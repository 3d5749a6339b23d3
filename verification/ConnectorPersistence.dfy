/** What the snapshot log holds: frontiers that never run ahead of the data, and a faithful recording. */
module ConnectorPersistence {
  import opened Wrappers
  import opened Backlog
  import opened ConnectorModel
  import opened ConnectorTime

  // ----- frontiers

  function Rows(ps: seq<Parsed>): seq<Row> {
    if ps == [] then []
    else
      var rest := Rows(ps[..|ps| - 1]);
      if ps[|ps| - 1].Data? then rest + [ps[|ps| - 1].row] else rest
  }

  function BatchRows(bs: seq<Batch>): seq<Row> {
    if bs == [] then [] else BatchRows(bs[..|bs| - 1]) + Rows(bs[|bs| - 1].parsed)
  }

  function Puts(log: seq<SnapshotEvent>): seq<Row> {
    if log == [] then []
    else
      var rest := Puts(log[..|log| - 1]);
      if log[|log| - 1].Put? then rest + [log[|log| - 1].row] else rest
  }

  /** The frontier after reading batches `bs` from `restored` on. */
  function FrontierOf(restored: Offsets, bs: seq<Batch>): Offsets {
    if bs == [] then restored
    else FrontierOf(restored, bs[..|bs| - 1])[bs[|bs| - 1].offsetKey := bs[|bs| - 1].offsetValue]
  }

  /** The first `j` batches are covered by `frontier`; `puts` holds their rows, then those that precede a commit inside the next. */
  ghost predicate Covers(frontier: Offsets, puts: seq<Row>, earlier: seq<Row>, restored: Offsets, bs: seq<Batch>, j: nat, p: nat) {
    && j <= |bs| && (p > 0 ==> j < |bs| && p < |bs[j].parsed| && bs[j].parsed[p].Commit?)
    && frontier == FrontierOf(restored, bs[..j])
    && puts == earlier + BatchRows(bs[..j]) + (if p > 0 then Rows(bs[j].parsed[..p]) else [])
  }

  /** The frontier logged at index `i` is backed by the rows logged before it. */
  ghost predicate Backed(c: Conn, log0: seq<SnapshotEvent>, i: nat)
    requires i < |c.log|
  {
    c.log[i].AdvanceTime? ==>
      exists j: nat, p: nat :: Covers(c.log[i].frontier, Puts(c.log[..i]), Puts(log0), c.restored, c.batches, j, p)
  }

  ghost predicate LogInv(c: Conn, log0: seq<SnapshotEvent>) {
    && log0 <= c.log
    && (!c.backfilled ==> c.log == log0 && c.batches == [])
    && Puts(c.log) == Puts(log0) + BatchRows(c.batches)
    && (c.backfilled ==> c.frontier == FrontierOf(c.restored, c.batches))
    && (forall i :: |log0| <= i < |c.log| ==> Backed(c, log0, i))
  }

  lemma PutsSnoc(log: seq<SnapshotEvent>, e: SnapshotEvent)
    ensures Puts(log + [e]) == if e.Put? then Puts(log) + [e.row] else Puts(log)
  {
    assert (log + [e])[..|log|] == log;
  }

  /** Logging one time advancement between batches keeps everything backed, exactly. */
  lemma LogAdvance(c: Conn, log0: seq<SnapshotEvent>, c': Conn, t: nat)
    requires LogInv(c, log0) && c.frontier == FrontierOf(c.restored, c.batches)
    requires c'.log == c.log + [AdvanceTime(t, c.frontier)]
    requires c'.batches == c.batches && c'.restored == c.restored && c'.frontier == c.frontier && c'.backfilled
    ensures LogInv(c', log0)
    ensures Covers(c.frontier, Puts(c'.log[..|c.log|]), Puts(log0), c.restored, c.batches, |c.batches|, 0)
  {
    PutsSnoc(c.log, AdvanceTime(t, c.frontier));
    assert c'.log[..|c.log|] == c.log;
    assert c.batches[..|c.batches|] == c.batches;
    assert Covers(c.frontier, Puts(c'.log[..|c.log|]), Puts(log0), c.restored, c.batches, |c.batches|, 0);
    forall i | |log0| <= i < |c'.log| ensures Backed(c', log0, i) {
      if i < |c.log| {
        assert c'.log[..i] == c.log[..i];
        assert Backed(c, log0, i);
      }
    }
  }

  /** The advancement at `i` is that of the commit at `p`: the rows of the entries before it are logged, and no others. */
  ghost predicate CommitAt(c: Conn, c1: Conn, ps: seq<Parsed>, i: nat, p: nat)
    requires i < |c1.log|
  {
    p < |ps| && ps[p].Commit? && Puts(c1.log[..i]) == Puts(c.log) + Rows(ps[..p])
  }

  ghost predicate MidBatch(c: Conn, c1: Conn, ps: seq<Parsed>, i: nat)
    requires i < |c1.log| && c1.log[i].AdvanceTime?
  {
    c1.log[i].frontier == c.frontier && exists p: nat :: CommitAt(c, c1, ps, i, p)
  }

  ghost predicate AllMidBatch(c: Conn, c1: Conn, ps: seq<Parsed>) {
    forall i :: |c.log| <= i < |c1.log| && c1.log[i].AdvanceTime? ==> MidBatch(c, c1, ps, i)
  }

  /** What processing a list of entries adds to the log. */
  ghost predicate Appends(c: Conn, c1: Conn, ps: seq<Parsed>) {
    && c.log <= c1.log && c1.frontier == c.frontier && c1.batches == c.batches
    && c1.restored == c.restored && c1.backfilled == c.backfilled && c1.cfg == c.cfg
    && Puts(c1.log) == Puts(c.log) + Rows(ps)
    && AllMidBatch(c, c1, ps)
  }

  /** One entry adds its row, or one time advancement with the unchanged frontier, or nothing. */
  lemma ProcessLog(c: Conn, p: Parsed)
    requires c.cfg.writer
    ensures var c' := Process(c, p);
            && c'.frontier == c.frontier && c'.batches == c.batches && c'.restored == c.restored
            && c'.backfilled == c.backfilled && c'.cfg == c.cfg
            && c'.log == match p
                         case Unparsable => c.log
                         case Data(row) => c.log + [Put(row)]
                         case Commit(r) => c.log + [AdvanceTime(c'.current, c.frontier)]
  {
  }

  lemma ProcessPuts(c1: Conn, p: Parsed)
    requires c1.cfg.writer
    ensures c1.log <= Process(c1, p).log && |Process(c1, p).log| <= |c1.log| + 1
    ensures Puts(Process(c1, p).log) == if p.Data? then Puts(c1.log) + [p.row] else Puts(c1.log)
  {
    ProcessLog(c1, p);
    match p
    case Unparsable =>
    case Data(row) => PutsSnoc(c1.log, Put(row));
    case Commit(r) => PutsSnoc(c1.log, AdvanceTime(Process(c1, p).current, c1.frontier));
  }

  lemma MidBatchStays(c: Conn, c1: Conn, c2: Conn, ps: seq<Parsed>, i: nat)
    requires ps != [] && Appends(c, c1, ps[..|ps| - 1])
    requires c1.log <= c2.log && |c2.log| <= |c1.log| + 1
    requires |c.log| <= i < |c2.log| && c2.log[i].AdvanceTime?
    requires i < |c1.log| || (c2.log[i].frontier == c.frontier && ps[|ps| - 1].Commit?)
    ensures MidBatch(c, c2, ps, i)
  {
    var n := |ps| - 1;
    if i < |c1.log| {
      assert c1.log[i] == c2.log[i] && c2.log[..i] == c1.log[..i];
      assert MidBatch(c, c1, ps[..n], i);
      var p: nat :| CommitAt(c, c1, ps[..n], i, p);
      assert ps[..n][..p] == ps[..p];
      assert CommitAt(c, c2, ps, i, p);
    } else {
      assert c2.log[..i] == c1.log;
      assert CommitAt(c, c2, ps, i, n);
    }
  }

  lemma Associative<T>(a: seq<T>, b: seq<T>, c: seq<T>)
    ensures a + b + c == a + (b + c)
  {
  }

  lemma RowsAppend(puts: seq<Row>, ps: seq<Parsed>)
    requires ps != []
    ensures puts + Rows(ps) ==
            if ps[|ps| - 1].Data? then (puts + Rows(ps[..|ps| - 1])) + [ps[|ps| - 1].row] else puts + Rows(ps[..|ps| - 1])
  {
    if ps[|ps| - 1].Data? { Associative(puts, Rows(ps[..|ps| - 1]), [ps[|ps| - 1].row]); }
  }

  lemma AllMidBatchStays(c: Conn, c1: Conn, c2: Conn, ps: seq<Parsed>)
    requires ps != [] && Appends(c, c1, ps[..|ps| - 1])
    requires c1.log <= c2.log && |c2.log| <= |c1.log| + 1
    requires |c2.log| > |c1.log| && c2.log[|c1.log|].AdvanceTime? ==>
               c2.log[|c1.log|].frontier == c.frontier && ps[|ps| - 1].Commit?
    ensures AllMidBatch(c, c2, ps)
  {
    forall i | |c.log| <= i < |c2.log| && c2.log[i].AdvanceTime? ensures MidBatch(c, c2, ps, i) {
      MidBatchStays(c, c1, c2, ps, i);
    }
  }

  lemma AppendsStep(c: Conn, c1: Conn, c2: Conn, ps: seq<Parsed>)
    requires ps != [] && Appends(c, c1, ps[..|ps| - 1]) && Keeps(c1, c2)
    requires c1.log <= c2.log && |c2.log| <= |c1.log| + 1
    requires Puts(c2.log) == if ps[|ps| - 1].Data? then Puts(c1.log) + [ps[|ps| - 1].row] else Puts(c1.log)
    requires |c2.log| > |c1.log| && c2.log[|c1.log|].AdvanceTime? ==>
               c2.log[|c1.log|].frontier == c1.frontier && ps[|ps| - 1].Commit?
    ensures Appends(c, c2, ps)
  {
    RowsAppend(Puts(c.log), ps);
    AllMidBatchStays(c, c1, c2, ps);
  }

  lemma ProcessAppends(c: Conn, c1: Conn, ps: seq<Parsed>)
    requires c.cfg.writer && ps != [] && Appends(c, c1, ps[..|ps| - 1])
    ensures Appends(c, Process(c1, ps[|ps| - 1]), ps)
  {
    var n := |ps| - 1;
    var c2 := Process(c1, ps[n]);
    ProcessKeeps(c1, ps[n]);
    ProcessLog(c1, ps[n]);
    ProcessPuts(c1, ps[n]);
    AppendsStep(c, c1, c2, ps);
  }

  lemma {:induction false} ProcessAllAppends(c: Conn, ps: seq<Parsed>)
    requires c.cfg.writer
    ensures Appends(c, ProcessAll(c, ps), ps)
  {
    if ps == [] {
      assert Puts(c.log) == Puts(c.log) + Rows(ps);
    } else {
      var n := |ps| - 1;
      ProcessAllAppends(c, ps[..n]);
      ProcessAppends(c, ProcessAll(c, ps[..n]), ps);
    }
  }

  lemma BackedStays(c: Conn, c2: Conn, log0: seq<SnapshotEvent>, i: nat)
    requires i < |c.log| && c.log <= c2.log && c.batches <= c2.batches && c.restored == c2.restored && Backed(c, log0, i)
    ensures Backed(c2, log0, i)
  {
    assert c2.log[..i] == c.log[..i] && c2.log[i] == c.log[i];
    if c.log[i].AdvanceTime? {
      var j: nat, p: nat :| Covers(c.log[i].frontier, Puts(c.log[..i]), Puts(log0), c.restored, c.batches, j, p);
      assert c2.batches[..j] == c.batches[..j];
      assert Covers(c2.log[i].frontier, Puts(c2.log[..i]), Puts(log0), c2.restored, c2.batches, j, p);
    }
  }

  /** A whole batch keeps the log backed: advancements inside it carry the frontier of the batches before it. */
  lemma BatchLogInv(c: Conn, log0: seq<SnapshotEvent>, b: Batch, g: Option<Reading>)
    requires LogInv(c, log0) && c.backfilled && c.cfg.writer
    ensures LogInv(HandleEntries(c, b, g), log0)
  {
    var ps := Effective(c, b, g);
    var c1 := ProcessAll(c, ps);
    var c2 := HandleEntries(c, b, g);
    ProcessAllAppends(c, ps);
    var nb := |c.batches|;
    assert c2.batches[..nb] == c.batches && c2.batches[nb].parsed == ps;
    assert BatchRows(c2.batches) == BatchRows(c.batches) + Rows(ps);
    forall i | |log0| <= i < |c2.log| ensures Backed(c2, log0, i) {
      if i < |c.log| {
        BackedStays(c, c2, log0, i);
      } else if c2.log[i].AdvanceTime? {
        assert MidBatch(c, c1, ps, i);
        var p: nat :| CommitAt(c, c1, ps, i, p);
        assert p == 0 ==> Rows(ps[..p]) == [];
        assert Covers(c2.log[i].frontier, Puts(c2.log[..i]), Puts(log0), c2.restored, c2.batches, nb, p);
      }
    }
  }

  /** What a step other than a batch may log: at most one time advancement, with the frontier of all batches so far. */
  ghost predicate LogsExactly(c: Conn, c': Conn, log0: seq<SnapshotEvent>) {
    && c'.batches == c.batches
    && (c'.log == c.log ||
        (|c'.log| == |c.log| + 1 && c.log <= c'.log && c'.log[|c.log|].AdvanceTime? &&
         Covers(c'.log[|c.log|].frontier, Puts(c.log), Puts(log0), c'.restored, c'.batches, |c'.batches|, 0)))
  }

  lemma CommitLogs(c: Conn, log0: seq<SnapshotEvent>, r: Reading)
    requires LogInv(c, log0) && c.backfilled && c.cfg.writer
    ensures LogInv(Process(c, Commit(r)), log0) && LogsExactly(c, Process(c, Commit(r)), log0)
  {
    var c' := Process(c, Commit(r));
    LogAdvance(c, log0, c', c'.current);
    assert c'.log[..|c.log|] == c.log;
  }

  lemma RewindLogs(c: Conn, log0: seq<SnapshotEvent>, restored: Offsets, r: Reading)
    requires LogInv(c, log0) && !c.backfilled && c.cfg.writer
    ensures var c' := Handle(c, RewindFinish(restored, true, r));
            LogInv(c', log0) && LogsExactly(c, c', log0)
  {
    var c1 := c.(backfilled := true, frontier := restored, restored := restored, coordinate := true);
    var c' := Handle(c, RewindFinish(restored, true, r));
    LogAdvance(c1, log0, c', c'.current);
    assert c'.log[..|c.log|] == c.log;
  }

  lemma FinishLogs(c: Conn, log0: seq<SnapshotEvent>)
    requires LogInv(c, log0) && c.backfilled && c.cfg.writer
    ensures LogInv(Handle(c, Finished), log0) && LogsExactly(c, Handle(c, Finished), log0)
  {
    var c' := Handle(c, Finished);
    LogAdvance(c, log0, c', c.current + 2);
    assert c'.log[..|c.log|] == c.log;
  }

  lemma QuietLogs(c: Conn, c': Conn, log0: seq<SnapshotEvent>)
    requires LogInv(c, log0)
    requires c'.log == c.log && c'.batches == c.batches && c'.restored == c.restored && c'.frontier == c.frontier
    requires c'.backfilled == c.backfilled
    ensures LogInv(c', log0) && LogsExactly(c, c', log0)
  {
    forall i | |log0| <= i < |c'.log| ensures Backed(c', log0, i) { assert Backed(c, log0, i); }
  }

  lemma FinishedSourceLogs(c: Conn, log0: seq<SnapshotEvent>, e: Entry)
    requires LogInv(c, log0) && c.backfilled && c.cfg.writer && e.FinishedSource?
    ensures LogInv(Handle(c, e), log0) && LogsExactly(c, Handle(c, e), log0)
  {
    var c1 := c.(commitAllowed := !e.possibility.Forbidden?);
    QuietLogs(c, c1, log0);
    CommitLogs(c1, log0, e.reading);
  }

  lemma HandleLogs(c: Conn, log0: seq<SnapshotEvent>, e: Entry)
    requires LogInv(c, log0) && LegalEntry(c, e) && c.cfg.writer
    ensures LogInv(Handle(c, e), log0)
    ensures !e.Entries? ==> LogsExactly(c, Handle(c, e), log0)
  {
    match e
    case Snapshot(event) => QuietLogs(c, Handle(c, e), log0);
    case RewindFinish(restored, needs, r) => RewindLogs(c, log0, restored, r);
    case Entries(b, g) => BatchLogInv(c, log0, b, g);
    case NewSource(_) => QuietLogs(c, Handle(c, e), log0);
    case FinishedSource(_, _, _) => FinishedSourceLogs(c, log0, e);
    case Finished => FinishLogs(c, log0);
    case ParsingError => QuietLogs(c, c, log0);
  }

  lemma HandleConfig(c: Conn, e: Entry)
    ensures Handle(c, e).cfg == c.cfg
  {
    match e
    case Entries(b, g) => ProcessAllKeeps(c, Effective(c, b, g));
    case FinishedSource(possibility, _, r) => ProcessKeeps(c.(commitAllowed := !possibility.Forbidden?), Commit(r));
    case _ =>
  }

  lemma StepConfig(c: Conn, e: Event)
    ensures Step(c, e).cfg == c.cfg
  {
    match e
    case Timer(r) => ProcessKeeps(c, Commit(r));
    case Probe(_) =>
    case Yield(_, r) => ProcessKeeps(c, Commit(r));
    case Receive(entry) => HandleConfig(c, entry);
  }

  lemma StepLogs(c: Conn, log0: seq<SnapshotEvent>, e: Event)
    requires LogInv(c, log0) && TimeInv(c) && Legal(c, e) && c.cfg.writer
    ensures LogInv(Step(c, e), log0)
    ensures !(e.Receive? && e.entry.Entries?) ==> LogsExactly(c, Step(c, e), log0)
  {
    match e
    case Timer(r) =>
      if c.backfilled && c.commitAllowed { CommitLogs(c, log0, r); } else { QuietLogs(c, c, log0); }
    case Probe(f) => QuietLogs(c, Step(c, e), log0);
    case Yield(_, r) =>
      if MinibatchHasData(c) { CommitLogs(c, log0, r); } else { QuietLogs(c, c, log0); }
    case Receive(entry) => HandleLogs(c, log0, entry);
  }

  lemma {:induction false} ReachableLog(c: Conn, log0: seq<SnapshotEvent>, es: seq<Event>)
    requires Init(c, log0) && LegalRun(c, es) && c.cfg.writer
    ensures LogInv(Exec(c, es), log0) && Exec(c, es).cfg == c.cfg
    decreases |es|
  {
    if es == [] {
    } else {
      ReachableLog(c, log0, es[..|es| - 1]);
      ReachableTime(c, log0, es[..|es| - 1]);
      StepLogs(Exec(c, es[..|es| - 1]), log0, es[|es| - 1]);
      StepConfig(Exec(c, es[..|es| - 1]), es[|es| - 1]);
    }
  }

  /** A time advancement that is not inside a batch is logged with exactly the rows its frontier covers. */
  lemma CommitBetweenBatchesIsExact(c: Conn, log0: seq<SnapshotEvent>, es: seq<Event>, e: Event)
    requires Init(c, log0) && LegalRun(c, es) && c.cfg.writer && Legal(Exec(c, es), e)
    requires !(e.Receive? && e.entry.Entries?)
    ensures LogsExactly(Exec(c, es), Step(Exec(c, es), e), log0)
  {
    ReachableLog(c, log0, es);
    ReachableTime(c, log0, es);
    StepLogs(Exec(c, es), log0, e);
  }

  lemma {:induction false} BatchRowsConcat(a: seq<Batch>, b: seq<Batch>)
    ensures BatchRows(a + b) == BatchRows(a) + BatchRows(b)
    decreases |b|
  {
    if b == [] {
      assert a + b == a;
    } else {
      var n := |b| - 1;
      BatchRowsConcat(a, b[..n]);
      assert (a + b)[..|a + b| - 1] == a + b[..n];
      Associative(BatchRows(a), BatchRows(b[..n]), Rows(b[n].parsed));
    }
  }

  lemma BatchRowsSplit(bs: seq<Batch>, j: nat)
    requires j <= |bs|
    ensures BatchRows(bs) == BatchRows(bs[..j]) + BatchRows(bs[j..])
  {
    assert bs == bs[..j] + bs[j..];
    BatchRowsConcat(bs[..j], bs[j..]);
  }
}
