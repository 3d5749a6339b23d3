/** Recovery: a run is cut off at a logged time advancement and a fresh connector resumes from there. */
module ConnectorRecovery {
  import opened Wrappers
  import opened ConnectorModel
  import opened ConnectorTime
  import opened ConnectorPersistence
  import opened ConnectorFrontier
  import opened ConnectorReplay

  // ----- the rows a run feeds depend on the entries received only

  function FedRows(ops: seq<Op>): seq<Row> {
    if ops == [] then []
    else
      var rest := FedRows(ops[..|ops| - 1]);
      if ops[|ops| - 1].Feed? then rest + [ops[|ops| - 1].row] else rest
  }

  function EntryRows(cfg: Config, e: Entry): seq<Row> {
    match e
    case Snapshot(event) => if event.Put? then [event.row] else []
    case Entries(b, _) => WellFormedRows(cfg, b.parsed)
    case _ => []
  }

  function EntriesRows(cfg: Config, es: seq<Entry>): seq<Row> {
    if es == [] then [] else EntriesRows(cfg, es[..|es| - 1]) + EntryRows(cfg, es[|es| - 1])
  }

  lemma FedRowsSnoc(ops: seq<Op>, op: Op)
    ensures FedRows(ops + [op]) == if op.Feed? then FedRows(ops) + [op.row] else FedRows(ops)
  {
    assert (ops + [op])[..|ops|] == ops;
  }

  lemma ProcessFeeds(c: Conn, p: Parsed)
    ensures FedRows(Process(c, p).ops) ==
            if p.Data? && WellFormed(c.cfg, p.row) then FedRows(c.ops) + [p.row] else FedRows(c.ops)
  {
    match p
    case Unparsable =>
    case Commit(r) => FedRowsSnoc(c.ops, Advance(NextTime(c, r.clock, r.forced)));
    case Data(row) => FedRowsSnoc(c.ops, Feed(row, c.sessionTime, true));
  }

  lemma {:induction false} ProcessAllFeeds(c: Conn, ps: seq<Parsed>)
    ensures FedRows(ProcessAll(c, ps).ops) == FedRows(c.ops) + WellFormedRows(c.cfg, ps)
  {
    if ps == [] {
    } else {
      var n := |ps| - 1;
      ProcessAllFeeds(c, ps[..n]);
      ProcessAllKeeps(c, ps[..n]);
      ProcessFeeds(ProcessAll(c, ps[..n]), ps[n]);
      if ps[n].Data? { Associative(FedRows(c.ops), WellFormedRows(c.cfg, ps[..n]), [ps[n].row]); }
    }
  }

  lemma WellFormedRowsSnoc(cfg: Config, ps: seq<Parsed>, p: Parsed)
    ensures WellFormedRows(cfg, ps + [p]) ==
            if p.Data? && WellFormed(cfg, p.row) then WellFormedRows(cfg, ps) + [p.row] else WellFormedRows(cfg, ps)
  {
    assert (ps + [p])[..|ps|] == ps;
  }

  lemma {:induction false} CommitsHaveNoRows(cfg: Config, ps: seq<Parsed>)
    ensures WellFormedRows(cfg, WithoutCommits(ps)) == WellFormedRows(cfg, ps)
  {
    if ps == [] {
    } else {
      var n := |ps| - 1;
      CommitsHaveNoRows(cfg, ps[..n]);
      assert ps == ps[..n] + [ps[n]];
      WellFormedRowsSnoc(cfg, ps[..n], ps[n]);
      WellFormedRowsSnoc(cfg, WithoutCommits(ps[..n]), ps[n]);
    }
  }

  lemma {:induction false} LeadingCommit(cfg: Config, p: Parsed, ps: seq<Parsed>)
    requires p.Commit?
    ensures WellFormedRows(cfg, [p] + ps) == WellFormedRows(cfg, ps)
  {
    if ps == [] {
      assert ([p] + ps)[..0] == [];
    } else {
      LeadingCommit(cfg, p, ps[..|ps| - 1]);
      assert ([p] + ps)[..|ps|] == [p] + ps[..|ps| - 1];
    }
  }

  lemma RewindFeeds(c: Conn, restored: Offsets, needs: bool, r: Reading)
    ensures FedRows(Handle(c, RewindFinish(restored, needs, r)).ops) == FedRows(c.ops)
  {
    if needs {
      var c' := Handle(c, RewindFinish(restored, needs, r));
      assert c'.ops == c.ops + [Advance(c'.current)];
      FedRowsSnoc(c.ops, Advance(c'.current));
    }
  }

  lemma HandleFeeds(c: Conn, e: Entry)
    ensures FedRows(Handle(c, e).ops) == FedRows(c.ops) + EntryRows(c.cfg, e)
  {
    match e
    case Snapshot(event) =>
      FedRowsSnoc(c.ops, if event.Put? then Feed(event.row, c.sessionTime, false) else Advance(Even(event.timestamp)));
    case RewindFinish(restored, needs, r) =>
      RewindFeeds(c, restored, needs, r);
    case Entries(b, g) =>
      ProcessAllFeeds(c, Effective(c, b, g));
      CommitsHaveNoRows(c.cfg, b.parsed);
      if g.Some? { LeadingCommit(c.cfg, Commit(g.value), if c.backfilled then b.parsed else WithoutCommits(b.parsed)); }
    case FinishedSource(possibility, _, r) => ProcessFeeds(c.(commitAllowed := !possibility.Forbidden?), Commit(r));
    case _ =>
  }

  lemma StepFeeds(c: Conn, e: Event)
    ensures FedRows(Step(c, e).ops) == FedRows(c.ops) + if e.Receive? then EntryRows(c.cfg, e.entry) else []
  {
    match e
    case Timer(r) => ProcessFeeds(c, Commit(r));
    case Probe(_) =>
    case Yield(_, r) => ProcessFeeds(c, Commit(r));
    case Receive(entry) => HandleFeeds(c, entry);
  }

  /** Timers, probes, yields and commits change when rows are fed, never which rows or in what order. */
  lemma {:induction false} RunFeeds(c: Conn, es: seq<Event>)
    requires LegalRun(c, es)
    ensures FedRows(Exec(c, es).ops) == FedRows(c.ops) + EntriesRows(c.cfg, Received(es)) && Exec(c, es).cfg == c.cfg
    decreases |es|
  {
    if es == [] {
    } else {
      var n := |es| - 1;
      RunFeeds(c, es[..n]);
      StepFeeds(Exec(c, es[..n]), es[n]);
      StepConfig(Exec(c, es[..n]), es[n]);
      if es[n].Receive? { Associative(FedRows(c.ops), EntriesRows(c.cfg, Received(es[..n])), EntryRows(c.cfg, es[n].entry)); }
    }
  }

  lemma EntriesRowsSnoc(cfg: Config, es: seq<Entry>, e: Entry)
    ensures EntriesRows(cfg, es + [e]) == EntriesRows(cfg, es) + EntryRows(cfg, e)
  {
    assert (es + [e])[..|es|] == es;
  }

  lemma EntriesRowsConcatSnoc(cfg: Config, a: seq<Entry>, b: seq<Entry>, e: Entry)
    requires EntriesRows(cfg, a + b) == EntriesRows(cfg, a) + EntriesRows(cfg, b)
    ensures EntriesRows(cfg, a + (b + [e])) == EntriesRows(cfg, a) + EntriesRows(cfg, b + [e])
  {
    assert a + (b + [e]) == (a + b) + [e];
    EntriesRowsSnoc(cfg, a + b, e);
    EntriesRowsSnoc(cfg, b, e);
    Associative(EntriesRows(cfg, a), EntriesRows(cfg, b), EntryRows(cfg, e));
  }

  lemma {:induction false} EntriesRowsConcat(cfg: Config, a: seq<Entry>, b: seq<Entry>)
    ensures EntriesRows(cfg, a + b) == EntriesRows(cfg, a) + EntriesRows(cfg, b)
    decreases |b|
  {
    if b == [] {
      assert a + b == a && EntriesRows(cfg, a) + EntriesRows(cfg, b) == EntriesRows(cfg, a);
    } else {
      var b0, e := b[..|b| - 1], b[|b| - 1];
      assert b == b0 + [e];
      EntriesRowsConcat(cfg, a, b0);
      EntriesRowsConcatSnoc(cfg, a, b0, e);
    }
  }

  lemma {:induction false} SnapshotEntriesRows(cfg: Config, log: seq<SnapshotEvent>)
    ensures EntriesRows(cfg, AsEntries(log)) == Puts(log)
  {
    if log == [] {
    } else {
      SnapshotEntriesRows(cfg, log[..|log| - 1]);
      assert AsEntries(log)[..|log| - 1] == AsEntries(log[..|log| - 1]);
    }
  }

  // ----- resuming

  /** What the reader delivers when it resumes from `f`. */
  function Beyond(f: Offsets, bs: seq<Batch>): seq<Batch> {
    if bs == [] then []
    else
      var rest := Beyond(f, bs[..|bs| - 1]);
      if Reaches(f, bs[|bs| - 1]) then rest else rest + [bs[|bs| - 1]]
  }

  lemma {:induction false} BeyondIsSuffix(f: Offsets, bs: seq<Batch>, j: nat)
    requires j <= |bs| && forall k :: 0 <= k < |bs| ==> (Reaches(f, bs[k]) <==> k < j)
    ensures Beyond(f, bs) == bs[j..]
    decreases |bs|
  {
    if bs == [] {
    } else {
      var n := |bs| - 1;
      BeyondIsSuffix(f, bs[..n], if j <= n then j else n);
      assert Reaches(f, bs[n]) <==> n < j;
    }
  }

  function AsMessages(bs: seq<Batch>): (es: seq<Entry>)
    ensures |es| == |bs| && forall k :: 0 <= k < |bs| ==> es[k] == Entries(bs[k], None)
  {
    seq(|bs|, k requires 0 <= k < |bs| => Entries(bs[k], None))
  }

  ghost predicate RowsFit(cfg: Config, b: Batch) {
    forall a :: 0 <= a < |b.parsed| && b.parsed[a].Data? ==> WellFormed(cfg, b.parsed[a].row)
  }

  ghost predicate AllFit(cfg: Config, bs: seq<Batch>) {
    forall k :: 0 <= k < |bs| ==> RowsFit(cfg, bs[k])
  }

  lemma {:induction false} FittingRows(cfg: Config, ps: seq<Parsed>)
    requires forall a :: 0 <= a < |ps| && ps[a].Data? ==> WellFormed(cfg, ps[a].row)
    ensures WellFormedRows(cfg, ps) == Rows(ps)
  {
    if ps == [] {
    } else {
      FittingRows(cfg, ps[..|ps| - 1]);
    }
  }

  lemma {:induction false} MessagesRows(cfg: Config, bs: seq<Batch>)
    requires AllFit(cfg, bs)
    ensures EntriesRows(cfg, AsMessages(bs)) == BatchRows(bs)
  {
    if bs == [] {
    } else {
      var n := |bs| - 1;
      MessagesRows(cfg, bs[..n]);
      assert AsMessages(bs)[..n] == AsMessages(bs[..n]);
      assert RowsFit(cfg, bs[n]);
      FittingRows(cfg, bs[n].parsed);
    }
  }

  /** The entries sent after a restart from the advancement at `i` of the log of `x`. */
  function RecoveryEntries(x: Conn, i: nat, r: Reading): seq<Entry>
    requires i < |x.log| && x.log[i].AdvanceTime?
  {
    AsEntries(Forwarded(Persisting, x.log[..i])) + [RewindFinish(x.log[i].frontier, true, r)]
    + AsMessages(Beyond(x.log[i].frontier, x.batches))
  }

  /** Entries that only open and close sources. */
  predicate Boundary(e: Entry) {
    e.NewSource? || e.FinishedSource? || e.Finished? || e.ParsingError?
  }

  function WithoutBoundaries(es: seq<Entry>): seq<Entry> {
    if es == [] then []
    else
      var rest := WithoutBoundaries(es[..|es| - 1]);
      if Boundary(es[|es| - 1]) then rest else rest + [es[|es| - 1]]
  }

  lemma {:induction false} BoundariesHaveNoRows(cfg: Config, es: seq<Entry>)
    ensures EntriesRows(cfg, WithoutBoundaries(es)) == EntriesRows(cfg, es)
  {
    if es == [] {
    } else {
      var n := |es| - 1;
      BoundariesHaveNoRows(cfg, es[..n]);
      var rest := WithoutBoundaries(es[..n]);
      assert (rest + [es[n]])[..|rest|] == rest;
    }
  }

  /** `es` restarts `y` from the advancement at `i`, among any timers, probes, yields and source boundaries. */
  ghost predicate Recovers(x: Conn, i: nat, y: Conn, r: Reading, es: seq<Event>) {
    && i < |x.log| && x.log[i].AdvanceTime?
    && Init(y, x.log[..i]) && y.cfg == x.cfg && LegalRun(y, es)
    && WithoutBoundaries(Received(es)) == RecoveryEntries(x, i, r)
  }

  lemma RecoveryEntriesRows(cfg: Config, log: seq<SnapshotEvent>, sentinel: Entry, rest: seq<Batch>)
    requires sentinel.RewindFinish? && AllFit(cfg, rest)
    ensures EntriesRows(cfg, AsEntries(log) + [sentinel] + AsMessages(rest)) == Puts(log) + BatchRows(rest)
  {
    EntriesRowsConcat(cfg, AsEntries(log) + [sentinel], AsMessages(rest));
    EntriesRowsSnoc(cfg, AsEntries(log), sentinel);
    SnapshotEntriesRows(cfg, log);
    assert Puts(log) + EntryRows(cfg, sentinel) == Puts(log);
    MessagesRows(cfg, rest);
  }

  lemma RecoveryRows(x: Conn, i: nat, y: Conn, r: Reading, es: seq<Event>)
    requires Recovers(x, i, y, r, es) && AllFit(x.cfg, Beyond(x.log[i].frontier, x.batches))
    ensures FedRows(Exec(y, es).ops) == Puts(x.log[..i]) + BatchRows(Beyond(x.log[i].frontier, x.batches))
  {
    RunFeeds(y, es);
    BoundariesHaveNoRows(x.cfg, Received(es));
    RecoveryEntriesRows(x.cfg, Forwarded(Persisting, x.log[..i]), RewindFinish(x.log[i].frontier, true, r),
                        Beyond(x.log[i].frontier, x.batches));
    RowsForwarded(Persisting, x.log[..i]);
  }

  // ----- a restart is always possible

  lemma {:induction false} ForwardedAreRows(log: seq<SnapshotEvent>)
    ensures forall k :: 0 <= k < |Forwarded(Persisting, log)| ==> Forwarded(Persisting, log)[k].Put?
  {
    if log == [] {
    } else {
      ForwardedAreRows(log[..|log| - 1]);
    }
  }

  function Receiving(es: seq<Entry>): (rs: seq<Event>)
    ensures |rs| == |es| && forall k :: 0 <= k < |es| ==> rs[k] == Receive(es[k])
  {
    seq(|es|, k requires 0 <= k < |es| => Receive(es[k]))
  }

  lemma {:induction false} ReceivingReceives(es: seq<Entry>)
    ensures Received(Receiving(es)) == es
  {
    if es == [] {
    } else {
      ReceivingReceives(es[..|es| - 1]);
      assert Receiving(es)[..|es| - 1] == Receiving(es[..|es| - 1]);
      assert es == es[..|es| - 1] + [es[|es| - 1]];
    }
  }

  /** Rows of the snapshot, the sentinel at index `m`, then messages. */
  ghost predicate Deliverable(es: seq<Entry>, m: nat) {
    forall k :: 0 <= k < |es| ==>
      if k < m then es[k].Snapshot? && es[k].event.Put?
      else if k == m then es[k].RewindFinish? && es[k].needsTimeAdvancement && EvenReading(es[k].reading)
      else es[k].Entries? && es[k].groupForces.None? && EvenBatch(es[k].batch)
  }

  lemma DeliverOne(x: Conn, e: Entry)
    requires !x.done
    requires if x.backfilled then e.Entries? && e.groupForces.None? && EvenBatch(e.batch)
             else (e.Snapshot? && e.event.Put?) || (e.RewindFinish? && e.needsTimeAdvancement && EvenReading(e.reading))
    ensures Legal(x, Receive(e)) && !Handle(x, e).done && Handle(x, e).backfilled == (x.backfilled || e.RewindFinish?)
  {
    if e.Entries? { ProcessAllKeeps(x, Effective(x, e.batch, e.groupForces)); }
  }

  lemma {:induction false} DeliverRun(y: Conn, log: seq<SnapshotEvent>, es: seq<Entry>, m: nat)
    requires Init(y, log) && Deliverable(es, m)
    ensures LegalRun(y, Receiving(es))
    ensures !Exec(y, Receiving(es)).done && Exec(y, Receiving(es)).backfilled == (|es| > m)
    decreases |es|
  {
    if es == [] {
    } else {
      var n := |es| - 1;
      DeliverRun(y, log, es[..n], m);
      DeliverOne(Exec(y, Receiving(es[..n])), es[n]);
      ExtendRun(y, Receiving(es[..n]), Receive(es[n]));
      assert Receiving(es) == Receiving(es[..n]) + [Receive(es[n])];
    }
  }

  lemma HandleEven(c: Conn, e: Entry)
    requires LegalEntry(c, e) && forall k :: 0 <= k < |c.batches| ==> EvenBatch(c.batches[k])
    ensures forall k :: 0 <= k < |Handle(c, e).batches| ==> EvenBatch(Handle(c, e).batches[k])
  {
    match e
    case Entries(b, g) =>
      var ps := Effective(c, b, g);
      ProcessAllKeeps(c, ps);
      assert EvenBatch(b.(parsed := ps));
    case FinishedSource(possibility, _, r) => ProcessKeeps(c.(commitAllowed := !possibility.Forbidden?), Commit(r));
    case _ =>
  }

  lemma StepEven(c: Conn, e: Event)
    requires Legal(c, e) && forall k :: 0 <= k < |c.batches| ==> EvenBatch(c.batches[k])
    ensures forall k :: 0 <= k < |Step(c, e).batches| ==> EvenBatch(Step(c, e).batches[k])
  {
    match e
    case Timer(r) => ProcessKeeps(c, Commit(r));
    case Probe(_) =>
    case Yield(_, r) => ProcessKeeps(c, Commit(r));
    case Receive(entry) => HandleEven(c, entry);
  }

  /** Messages that were handled were legal. */
  lemma {:induction false} BatchesEven(c: Conn, log0: seq<SnapshotEvent>, es: seq<Event>)
    requires Init(c, log0) && LegalRun(c, es)
    ensures forall k :: 0 <= k < |Exec(c, es).batches| ==> EvenBatch(Exec(c, es).batches[k])
    decreases |es|
  {
    if es == [] {
    } else {
      var n := |es| - 1;
      BatchesEven(c, log0, es[..n]);
      StepEven(Exec(c, es[..n]), es[n]);
    }
  }

  lemma {:induction false} NoBoundaries(es: seq<Entry>)
    requires forall k :: 0 <= k < |es| ==> !Boundary(es[k])
    ensures WithoutBoundaries(es) == es
  {
    if es == [] {
    } else {
      NoBoundaries(es[..|es| - 1]);
      assert es == es[..|es| - 1] + [es[|es| - 1]];
    }
  }

  lemma {:induction false} BeyondEven(f: Offsets, bs: seq<Batch>)
    requires forall k :: 0 <= k < |bs| ==> EvenBatch(bs[k])
    ensures forall k :: 0 <= k < |Beyond(f, bs)| ==> EvenBatch(Beyond(f, bs)[k])
  {
    if bs == [] {
    } else {
      BeyondEven(f, bs[..|bs| - 1]);
    }
  }

  function Restarted(x: Conn, i: nat): Conn
    requires i <= |x.log|
  {
    Conn(x.cfg, 0, 0, false, map[], [], true, false, false, x.log[..i], [], [], map[], [])
  }

  lemma RecoveryExists(x: Conn, i: nat)
    requires i < |x.log| && x.log[i].AdvanceTime? && x.cfg.atStart % 2 == 0
    requires forall k :: 0 <= k < |x.batches| ==> EvenBatch(x.batches[k])
    ensures Recovers(x, i, Restarted(x, i), Reading(0, None), Receiving(RecoveryEntries(x, i, Reading(0, None))))
  {
    var r := Reading(0, None);
    var entries := RecoveryEntries(x, i, r);
    ForwardedAreRows(x.log[..i]);
    BeyondEven(x.log[i].frontier, x.batches);
    DeliverRun(Restarted(x, i), x.log[..i], entries, |Forwarded(Persisting, x.log[..i])|);
    ReceivingReceives(entries);
    NoBoundaries(entries);
  }

  // ----- exactly once

  /** No row precedes a time advancement of its own message. */
  ghost predicate Clean(b: Batch) {
    forall a, k :: 0 <= a < k < |b.parsed| && b.parsed[a].Data? ==> !b.parsed[k].Commit?
  }

  ghost predicate FeedsAll(log0: seq<SnapshotEvent>, x: Conn, y: Conn, es: seq<Event>)
    requires LegalRun(y, es)
  {
    FedRows(Exec(y, es).ops) == Puts(log0) + BatchRows(x.batches)
  }

  /** However `y` restarts from the advancement at `i`, the rows fed are those of all messages, each once and in order. */
  ghost predicate ExactlyOnce(log0: seq<SnapshotEvent>, x: Conn, i: nat) {
    forall y: Conn, r: Reading, es: seq<Event> :: Recovers(x, i, y, r, es) ==> FeedsAll(log0, x, y, es)
  }

  /** A run whose log may be recovered from: reads in order, one message each, rows of the declared shape. */
  ghost predicate Recoverable(c: Conn, log0: seq<SnapshotEvent>, es: seq<Event>) {
    && Init(c, log0) && LegalRun(c, es) && c.cfg.writer
    && InOrder(Exec(c, es).restored, Exec(c, es).batches) && OneMessagePerRead(Exec(c, es).batches)
    && AllFit(c.cfg, Exec(c, es).batches)
  }

  lemma BeyondLogged(c: Conn, log0: seq<SnapshotEvent>, es: seq<Event>, n: nat, i: nat) returns (p: nat)
    requires Recoverable(c, log0, es)
    requires LoggedBy(c, es, n, i) && i < |Exec(c, es).log| && Exec(c, es).log[i].AdvanceTime?
    ensures var x, j := Exec(c, es), Before(c, es, n);
            && Covers(x.log[i].frontier, Puts(x.log[..i]), Puts(log0), x.restored, x.batches, j, p)
            && Beyond(x.log[i].frontier, x.batches) == x.batches[j..]
  {
    var x, j := Exec(c, es), Before(c, es, n);
    p := LoggedCovers(c, log0, es, n, i);
    forall k | 0 <= k < |x.batches| ensures Reaches(x.log[i].frontier, x.batches[k]) <==> k < j {
      ReachedIff(x.restored, x.batches, j, k);
    }
    BeyondIsSuffix(x.log[i].frontier, x.batches, j);
  }

  /** What a restart feeds: everything, and again the rows that precede the commit inside its own message. */
  lemma RecoveryFeeds(c: Conn, log0: seq<SnapshotEvent>, es: seq<Event>, n: nat, i: nat,
                      y: Conn, r: Reading, es': seq<Event>) returns (p: nat)
    requires Recoverable(c, log0, es) && LoggedBy(c, es, n, i) && Recovers(Exec(c, es), i, y, r, es')
    ensures var x, j := Exec(c, es), Before(c, es, n);
            && Covers(x.log[i].frontier, Puts(x.log[..i]), Puts(log0), x.restored, x.batches, j, p)
            && FedRows(Exec(y, es').ops) ==
               (Puts(log0) + BatchRows(x.batches[..j]) + if p > 0 then Rows(x.batches[j].parsed[..p]) else []) + BatchRows(x.batches[j..])
  {
    p := BeyondLogged(c, log0, es, n, i);
    RunFeeds(c, es);
    RecoveryRows(Exec(c, es), i, y, r, es');
  }

  lemma RepeatedRows(earlier: seq<Row>, bs: seq<Batch>, j: nat, extra: seq<Row>)
    requires j <= |bs|
    ensures (earlier + BatchRows(bs[..j]) + extra) + BatchRows(bs[j..]) == earlier + BatchRows(bs) <==> extra == []
  {
    BatchRowsSplit(bs, j);
    var a, b := earlier + BatchRows(bs[..j]), BatchRows(bs[j..]);
    Associative(earlier, BatchRows(bs[..j]), b);
    assert |a + extra + b| == |a + b| + |extra|;
    if extra == [] { assert a + extra == a; }
  }

  lemma {:induction false} NoRowsBefore(ps: seq<Parsed>, p: nat)
    requires p <= |ps|
    ensures Rows(ps[..p]) == [] <==> forall a :: 0 <= a < p ==> !ps[a].Data?
  {
    if p == 0 {
    } else {
      NoRowsBefore(ps, p - 1);
      assert ps[..p][..p - 1] == ps[..p - 1];
    }
  }

  lemma CleanIsExact(c: Conn, log0: seq<SnapshotEvent>, es: seq<Event>, i: nat)
    requires Recoverable(c, log0, es) && |log0| <= i < |Exec(c, es).log| && Exec(c, es).log[i].AdvanceTime?
    requires forall k :: 0 <= k < |Exec(c, es).batches| ==> Clean(Exec(c, es).batches[k])
    ensures ExactlyOnce(log0, Exec(c, es), i)
  {
    var x := Exec(c, es);
    var n := SomeStepLogged(c, log0, es, i);
    forall y: Conn, r: Reading, es': seq<Event> | Recovers(x, i, y, r, es') ensures FeedsAll(log0, x, y, es') {
      var p := RecoveryFeeds(c, log0, es, n, i, y, r, es');
      var j := Before(c, es, n);
      if p > 0 {
        assert Clean(x.batches[j]);
        NoRowsBefore(x.batches[j].parsed, p);
      }
      RepeatedRows(Puts(log0), x.batches, j, if p > 0 then Rows(x.batches[j].parsed[..p]) else []);
    }
  }

  lemma OnlyMessagesAdd(c: Conn, e: Event)
    requires Legal(c, e)
    ensures if e.Receive? && e.entry.Entries?
            then |Step(c, e).batches| == |c.batches| + 1 else Step(c, e).batches == c.batches
  {
    match e
    case Timer(r) => ProcessKeeps(c, Commit(r));
    case Probe(_) =>
    case Yield(_, r) => ProcessKeeps(c, Commit(r));
    case Receive(entry) =>
      if entry.Entries? {
        ProcessAllKeeps(c, Effective(c, entry.batch, entry.groupForces));
      } else if entry.FinishedSource? {
        ProcessKeeps(c.(commitAllowed := !entry.possibility.Forbidden?), Commit(entry.reading));
      }
  }

  /** The step that handled message `k`. */
  lemma {:induction false} SomeStepHandled(c: Conn, log0: seq<SnapshotEvent>, es: seq<Event>, k: nat) returns (n: nat)
    requires Init(c, log0) && LegalRun(c, es) && k < |Exec(c, es).batches|
    ensures n < |es| && LegalRun(c, es[..n]) && Before(c, es, n) == k
    ensures es[n].Receive? && es[n].entry.Entries? && Legal(Exec(c, es[..n]), es[n])
    decreases |es|
  {
    if es == [] {
    } else {
      var m := |es| - 1;
      var x0 := Exec(c, es[..m]);
      if k < |x0.batches| {
        n := SomeStepHandled(c, log0, es[..m], k);
        assert es[..m][..n] == es[..n];
      } else {
        OnlyMessagesAdd(x0, es[m]);
        n := m;
      }
    }
  }

  lemma {:induction false} RestGrows(c: Conn, ps: seq<Parsed>, k: nat)
    requires k <= |ps|
    ensures ProcessAll(c, ps[..k]).log <= ProcessAll(c, ps).log
    decreases |ps|
  {
    if k == |ps| {
      assert ps[..k] == ps;
    } else {
      var n := |ps| - 1;
      RestGrows(c, ps[..n], k);
      assert ps[..n][..k] == ps[..k];
      ProcessLogGrows(ProcessAll(c, ps[..n]), ps[n]);
    }
  }

  lemma ProcessedCommit(x0: Conn, ps: seq<Parsed>, k: nat) returns (i: nat)
    requires x0.cfg.writer && k < |ps| && ps[k].Commit?
    ensures var log := ProcessAll(x0, ps).log;
            && |x0.log| <= i < |log| && log[i].AdvanceTime? && Puts(log[..i]) == Puts(x0.log) + Rows(ps[..k])
  {
    var c1 := ProcessAll(x0, ps[..k]);
    ProcessAllAppends(x0, ps[..k]);
    ProcessLog(c1, ps[k]);
    i := |c1.log|;
    assert ps[..k + 1][..k] == ps[..k];
    assert ProcessAll(x0, ps[..k + 1]) == Process(c1, ps[k]);
    RestGrows(x0, ps, k + 1);
    assert ProcessAll(x0, ps).log[..i] == c1.log;
  }

  /** The commit at index `k` of a message writes the log right after the rows before it. */
  lemma CommitWrites(x0: Conn, b: Batch, g: Option<Reading>, k: nat) returns (i: nat)
    requires x0.cfg.writer && k < |Effective(x0, b, g)| && Effective(x0, b, g)[k].Commit?
    ensures var x1 := HandleEntries(x0, b, g);
            && |x0.log| <= i < |x1.log| && x1.log[i].AdvanceTime?
            && Puts(x1.log[..i]) == Puts(x0.log) + Rows(Effective(x0, b, g)[..k])
  {
    i := ProcessedCommit(x0, Effective(x0, b, g), k);
    assert HandleEntries(x0, b, g).log == ProcessAll(x0, Effective(x0, b, g)).log;
  }

  /** A message with a row before a commit: the log holds an advancement with the rows before that commit, and not the others. */
  lemma DirtyIsLogged(c: Conn, log0: seq<SnapshotEvent>, es: seq<Event>, k: nat, p: nat) returns (n: nat, i: nat)
    requires Init(c, log0) && LegalRun(c, es) && c.cfg.writer && k < |Exec(c, es).batches|
    requires p < |Exec(c, es).batches[k].parsed| && Exec(c, es).batches[k].parsed[p].Commit?
    ensures LoggedBy(c, es, n, i) && Before(c, es, n) == k
    ensures var x := Exec(c, es);
            && |log0| <= i < |x.log| && x.log[i].AdvanceTime?
            && Puts(x.log[..i]) == Puts(log0) + BatchRows(x.batches[..k]) + Rows(x.batches[k].parsed[..p])
  {
    n := SomeStepHandled(c, log0, es, k);
    NextRun(c, es, n);
    PrefixRun(c, es, n + 1);
    ReachableLog(c, log0, es[..n]);
    var x0, x1, x := Exec(c, es[..n]), Exec(c, es[..n + 1]), Exec(c, es);
    var e := es[n].entry;
    ProcessAllKeeps(x0, Effective(x0, e.batch, e.groupForces));
    assert x1.batches[k].parsed == Effective(x0, e.batch, e.groupForces) && x1.batches[..k] == x0.batches;
    assert x.batches[k] == x1.batches[k] && x.batches[..k] == x0.batches;
    i := CommitWrites(x0, e.batch, e.groupForces, p);
    assert x.log[..i] == x1.log[..i];
  }

  lemma DirtyIsNotExact(c: Conn, log0: seq<SnapshotEvent>, es: seq<Event>, k: nat) returns (i: nat)
    requires Recoverable(c, log0, es) && k < |Exec(c, es).batches| && !Clean(Exec(c, es).batches[k])
    ensures |log0| <= i < |Exec(c, es).log| && Exec(c, es).log[i].AdvanceTime? && !ExactlyOnce(log0, Exec(c, es), i)
  {
    var x := Exec(c, es);
    var a, p :| 0 <= a < p < |x.batches[k].parsed| && x.batches[k].parsed[a].Data? && x.batches[k].parsed[p].Commit?;
    var n;
    n, i := DirtyIsLogged(c, log0, es, k, p);
    BatchesEven(c, log0, es);
    RunFeeds(c, es);
    RecoveryExists(x, i);
    var y, r, es' := Restarted(x, i), Reading(0, None), Receiving(RecoveryEntries(x, i, Reading(0, None)));
    var q := BeyondLogged(c, log0, es, n, i);
    RecoveryRows(x, i, y, r, es');
    NoRowsBefore(x.batches[k].parsed, p);
    RepeatedRows(Puts(log0), x.batches, k, Rows(x.batches[k].parsed[..p]));
    assert !FeedsAll(log0, x, y, es');
  }

  /** Exactly once: wherever the run is cut off and however the restart interleaves, every row is fed once,
      if and only if no message has a row before a time advancement. */
  lemma RecoveryExactlyOnce(c: Conn, log0: seq<SnapshotEvent>, es: seq<Event>)
    requires Recoverable(c, log0, es)
    ensures (forall i :: |log0| <= i < |Exec(c, es).log| && Exec(c, es).log[i].AdvanceTime? ==> ExactlyOnce(log0, Exec(c, es), i))
            <==> (forall k :: 0 <= k < |Exec(c, es).batches| ==> Clean(Exec(c, es).batches[k]))
  {
    var x := Exec(c, es);
    if forall k :: 0 <= k < |x.batches| ==> Clean(x.batches[k]) {
      forall i | |log0| <= i < |x.log| && x.log[i].AdvanceTime? ensures ExactlyOnce(log0, x, i) {
        CleanIsExact(c, log0, es, i);
      }
    } else {
      var k :| 0 <= k < |x.batches| && !Clean(x.batches[k]);
      var i := DirtyIsNotExact(c, log0, es, k);
    }
  }
}
