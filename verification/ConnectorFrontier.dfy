/** What a logged frontier says about the reads it covers, in terms of their offsets. */
module ConnectorFrontier {
  import opened Wrappers
  import opened ConnectorModel
  import opened ConnectorTime
  import opened ConnectorPersistence

  // ----- offsets

  /** A reader that resumes from `f` does not deliver `b` again. */
  predicate Reaches(f: Offsets, b: Batch) {
    b.offsetKey in f && b.offsetValue <= f[b.offsetKey]
  }

  /** Two messages of one read; outside a connector group every read is one message. */
  predicate SameRead(a: Batch, b: Batch) {
    a.offsetKey == b.offsetKey && a.offsetValue == b.offsetValue
  }

  /** Reads come in the order of their offsets, all of them beyond the restored frontier. */
  ghost predicate InOrder(restored: Offsets, bs: seq<Batch>) {
    && (forall k :: 0 <= k < |bs| ==> !Reaches(restored, bs[k]))
    && (forall a, b :: 0 <= a < b < |bs| && bs[a].offsetKey == bs[b].offsetKey ==> bs[a].offsetValue <= bs[b].offsetValue)
  }

  ghost predicate OneMessagePerRead(bs: seq<Batch>) {
    forall a, b :: 0 <= a < b < |bs| ==> !SameRead(bs[a], bs[b])
  }

  /** Message `k` belongs to a read of which one of the first `j` messages is a part. */
  ghost predicate ReadBegun(bs: seq<Batch>, j: nat, k: nat)
    requires j <= |bs| && k < |bs|
  {
    exists a :: 0 <= a < j && SameRead(bs[a], bs[k])
  }

  lemma InOrderPrefix(restored: Offsets, bs: seq<Batch>, j: nat)
    requires InOrder(restored, bs) && j <= |bs|
    ensures InOrder(restored, bs[..j])
  {
  }

  /** Where the entry of a key in the frontier comes from: the last read of that key. */
  ghost predicate FromRead(f: Offsets, restored: Offsets, bs: seq<Batch>, key: nat) {
    key in f ==>
      || (key in restored && f[key] == restored[key])
      || exists a :: 0 <= a < |bs| && bs[a].offsetKey == key && bs[a].offsetValue == f[key]
  }

  lemma {:induction false} FrontierIs(restored: Offsets, bs: seq<Batch>, key: nat)
    requires InOrder(restored, bs)
    ensures FromRead(FrontierOf(restored, bs), restored, bs, key)
    ensures forall a :: 0 <= a < |bs| ==> Reaches(FrontierOf(restored, bs), bs[a])
    decreases |bs|
  {
    if bs == [] {
    } else {
      var n := |bs| - 1;
      InOrderPrefix(restored, bs, n);
      FrontierIs(restored, bs[..n], key);
      var f0, f := FrontierOf(restored, bs[..n]), FrontierOf(restored, bs);
      forall a | 0 <= a < |bs| ensures Reaches(f, bs[a]) {
        if a < n { assert Reaches(f0, bs[..n][a]); }
      }
      if key == bs[n].offsetKey {
        assert bs[n].offsetValue == f[key];
      } else if key in f && !(key in restored && f[key] == restored[key]) {
        var a :| 0 <= a < n && bs[..n][a].offsetKey == key && bs[..n][a].offsetValue == f0[key];
        assert bs[a].offsetValue == f[key];
      }
    }
  }

  /** The frontier of the first `j` messages reaches those and the further messages of their reads, and nothing else. */
  lemma ReachedIff(restored: Offsets, bs: seq<Batch>, j: nat, k: nat)
    requires InOrder(restored, bs) && j <= |bs| && k < |bs|
    ensures Reaches(FrontierOf(restored, bs[..j]), bs[k]) <==> k < j || ReadBegun(bs, j, k)
  {
    var f, key := FrontierOf(restored, bs[..j]), bs[k].offsetKey;
    InOrderPrefix(restored, bs, j);
    FrontierIs(restored, bs[..j], key);
    if k < j { assert Reaches(f, bs[..j][k]); }
    if ReadBegun(bs, j, k) {
      var a :| 0 <= a < j && SameRead(bs[a], bs[k]);
      assert Reaches(f, bs[..j][a]);
    }
    if Reaches(f, bs[k]) && k >= j {
      assert !(key in restored && f[key] == restored[key]);
      var a :| 0 <= a < j && bs[..j][a].offsetKey == key && bs[..j][a].offsetValue == f[key];
      assert SameRead(bs[a], bs[k]);
    }
  }

  // ----- the step that logged an advancement

  /** From `x0` on the log and the batches only grow, and the restored frontier stays. */
  ghost predicate Grows(x0: Conn, x: Conn) {
    x0.log <= x.log && x0.batches <= x.batches && x.restored == x0.restored && x.backfilled
  }

  lemma ProcessLogGrows(c: Conn, p: Parsed)
    ensures c.log <= Process(c, p).log
  {
    match p
    case Unparsable =>
    case Commit(r) =>
      var c1 := AdvanceTimeTo(c, r.clock, r.forced);
      LoggedKeeps(c1, AdvanceTime(c1.current, c1.frontier));
    case Data(row) =>
      LoggedKeeps(c, Put(row));
  }

  lemma {:induction false} ProcessAllLogGrows(c: Conn, ps: seq<Parsed>)
    ensures c.log <= ProcessAll(c, ps).log
  {
    if ps == [] {
    } else {
      ProcessAllLogGrows(c, ps[..|ps| - 1]);
      ProcessLogGrows(ProcessAll(c, ps[..|ps| - 1]), ps[|ps| - 1]);
    }
  }

  lemma HandleGrows(c: Conn, e: Entry)
    requires c.backfilled && LegalEntry(c, e)
    ensures Grows(c, Handle(c, e))
  {
    match e
    case Entries(b, g) =>
      ProcessAllKeeps(c, Effective(c, b, g));
      ProcessAllLogGrows(c, Effective(c, b, g));
    case FinishedSource(possibility, _, r) =>
      ProcessKeeps(c.(commitAllowed := !possibility.Forbidden?), Commit(r));
      ProcessLogGrows(c.(commitAllowed := !possibility.Forbidden?), Commit(r));
    case _ =>
  }

  lemma StepGrows(c: Conn, e: Event)
    requires c.backfilled && Legal(c, e)
    ensures Grows(c, Step(c, e))
  {
    match e
    case Timer(r) =>
      ProcessKeeps(c, Commit(r));
      ProcessLogGrows(c, Commit(r));
    case Probe(_) =>
    case Yield(_, r) =>
      ProcessKeeps(c, Commit(r));
      ProcessLogGrows(c, Commit(r));
    case Receive(entry) => HandleGrows(c, entry);
  }

  lemma {:induction false} PrefixRun(c: Conn, es: seq<Event>, n: nat)
    requires LegalRun(c, es) && n <= |es|
    ensures LegalRun(c, es[..n])
    ensures Exec(c, es[..n]).backfilled ==> Grows(Exec(c, es[..n]), Exec(c, es))
    decreases |es|
  {
    if n == |es| {
      assert es[..n] == es;
    } else {
      var m := |es| - 1;
      PrefixRun(c, es[..m], n);
      assert es[..m][..n] == es[..n];
      if Exec(c, es[..n]).backfilled { StepGrows(Exec(c, es[..m]), es[m]); }
    }
  }

  lemma NextRun(c: Conn, es: seq<Event>, n: nat)
    requires LegalRun(c, es) && n < |es|
    ensures LegalRun(c, es[..n]) && Legal(Exec(c, es[..n]), es[n])
    ensures LegalRun(c, es[..n + 1]) && Exec(c, es[..n + 1]) == Step(Exec(c, es[..n]), es[n])
  {
    PrefixRun(c, es, n);
    PrefixRun(c, es, n + 1);
    assert es[..n + 1][..n] == es[..n];
  }

  /** Step `n` of the run wrote index `i` of the log. */
  ghost predicate LoggedBy(c: Conn, es: seq<Event>, n: nat, i: nat) {
    && n < |es| && LegalRun(c, es[..n]) && Legal(Exec(c, es[..n]), es[n])
    && |Exec(c, es[..n]).log| <= i < |Step(Exec(c, es[..n]), es[n]).log|
  }

  /** Every entry of the log beyond the one the run began with was written by some step. */
  lemma {:induction false} SomeStepLogged(c: Conn, log0: seq<SnapshotEvent>, es: seq<Event>, i: nat) returns (n: nat)
    requires Init(c, log0) && LegalRun(c, es) && |log0| <= i < |Exec(c, es).log|
    ensures LoggedBy(c, es, n, i)
    decreases |es|
  {
    if es == [] {
    } else {
      var m := |es| - 1;
      if i < |Exec(c, es[..m]).log| {
        n := SomeStepLogged(c, log0, es[..m], i);
        assert es[..m][..n] == es[..n];
      } else {
        n := m;
      }
    }
  }

  /** How many messages had been handled completely before step `n`. */
  ghost function Before(c: Conn, es: seq<Event>, n: nat): nat
    requires n <= |es| && LegalRun(c, es[..n])
  {
    |Exec(c, es[..n]).batches|
  }

  lemma BatchCovers(x0: Conn, log0: seq<SnapshotEvent>, b: Batch, g: Option<Reading>, i: nat) returns (p: nat)
    requires LogInv(x0, log0) && x0.backfilled && x0.cfg.writer
    requires |x0.log| <= i < |HandleEntries(x0, b, g).log| && HandleEntries(x0, b, g).log[i].AdvanceTime?
    ensures var x1 := HandleEntries(x0, b, g);
            && x1.backfilled
            && Covers(x1.log[i].frontier, Puts(x1.log[..i]), Puts(log0), x1.restored, x1.batches, |x0.batches|, p)
  {
    var ps := Effective(x0, b, g);
    var c1 := ProcessAll(x0, ps);
    var x1 := HandleEntries(x0, b, g);
    ProcessAllAppends(x0, ps);
    assert MidBatch(x0, c1, ps, i);
    p :| CommitAt(x0, c1, ps, i, p);
    assert x1.batches[..|x0.batches|] == x0.batches && x1.batches[|x0.batches|].parsed == ps;
    assert p == 0 ==> Rows(ps[..p]) == [];
  }

  /** What a step logs covers exactly the messages before it, and the rows before the commit inside its own. */
  lemma StepCovers(x0: Conn, log0: seq<SnapshotEvent>, e: Event, i: nat) returns (p: nat)
    requires LogInv(x0, log0) && TimeInv(x0) && Legal(x0, e) && x0.cfg.writer
    requires |x0.log| <= i < |Step(x0, e).log| && Step(x0, e).log[i].AdvanceTime?
    ensures var x1 := Step(x0, e);
            && x1.backfilled
            && Covers(x1.log[i].frontier, Puts(x1.log[..i]), Puts(log0), x1.restored, x1.batches, |x0.batches|, p)
  {
    var x1 := Step(x0, e);
    StepLogs(x0, log0, e);
    if e.Receive? && e.entry.Entries? {
      p := BatchCovers(x0, log0, e.entry.batch, e.entry.groupForces, i);
    } else {
      assert x1.log[..i] == x0.log;
      p := 0;
    }
  }

  lemma CoversGrows(x1: Conn, x: Conn, log0: seq<SnapshotEvent>, i: nat, j: nat, p: nat)
    requires Grows(x1, x) && i < |x1.log| && x1.log[i].AdvanceTime?
    requires Covers(x1.log[i].frontier, Puts(x1.log[..i]), Puts(log0), x1.restored, x1.batches, j, p)
    ensures x.log[i] == x1.log[i]
    ensures Covers(x.log[i].frontier, Puts(x.log[..i]), Puts(log0), x.restored, x.batches, j, p)
  {
    assert x.log[..i] == x1.log[..i] && x.batches[..j] == x1.batches[..j];
  }

  lemma StepBackfills(x0: Conn, log0: seq<SnapshotEvent>, e: Event)
    requires LogInv(x0, log0) && TimeInv(x0) && Legal(x0, e) && x0.cfg.writer && |Step(x0, e).log| > |x0.log|
    ensures Step(x0, e).backfilled
  {
    StepLogs(x0, log0, e);
    if x0.backfilled { StepGrows(x0, e); }
  }

  /** In the final state, the advancement at `i` covers exactly the messages handled before the step that logged it. */
  lemma LoggedCovers(c: Conn, log0: seq<SnapshotEvent>, es: seq<Event>, n: nat, i: nat) returns (p: nat)
    requires Init(c, log0) && LegalRun(c, es) && c.cfg.writer
    requires LoggedBy(c, es, n, i) && i < |Exec(c, es).log| && Exec(c, es).log[i].AdvanceTime?
    ensures var x := Exec(c, es);
            Covers(x.log[i].frontier, Puts(x.log[..i]), Puts(log0), x.restored, x.batches, Before(c, es, n), p)
  {
    NextRun(c, es, n);
    var x0, x1, x := Exec(c, es[..n]), Exec(c, es[..n + 1]), Exec(c, es);
    ReachableLog(c, log0, es[..n]);
    ReachableTime(c, log0, es[..n]);
    StepBackfills(x0, log0, es[n]);
    PrefixRun(c, es, n + 1);
    assert x.log[i] == x1.log[i];
    p := StepCovers(x0, log0, es[n], i);
    CoversGrows(x1, x, log0, i, |x0.batches|, p);
  }

  // ----- the frontier and the data

  /** The rows of all messages up to `k` are logged before index `i`. */
  ghost predicate RowsLogged(x: Conn, log0: seq<SnapshotEvent>, i: nat, k: nat)
    requires i <= |x.log| && k < |x.batches|
  {
    Puts(log0) + BatchRows(x.batches[..k + 1]) <= Puts(x.log[..i])
  }

  /** A read is split by step `n`: some of its messages are handled before it and some later. */
  ghost predicate SplitBefore(bs: seq<Batch>, j: nat)
    requires j <= |bs|
  {
    exists k :: j <= k < |bs| && ReadBegun(bs, j, k)
  }

  lemma PrefixLogged(puts: seq<Row>, earlier: seq<Row>, extra: seq<Row>, bs: seq<Batch>, j: nat, k: nat)
    requires k < j <= |bs| && puts == earlier + BatchRows(bs[..j]) + extra
    ensures earlier + BatchRows(bs[..k + 1]) <= puts
  {
    assert bs[..j][..k + 1] == bs[..k + 1];
    BatchRowsSplit(bs[..j], k + 1);
  }

  /** The messages handled before an advancement are logged before it.  Its frontier reaches no others,
      if and only if no read is split by the step that logged it. */
  lemma FrontierNeverAhead(c: Conn, log0: seq<SnapshotEvent>, es: seq<Event>, n: nat, i: nat)
    requires Init(c, log0) && LegalRun(c, es) && c.cfg.writer && InOrder(Exec(c, es).restored, Exec(c, es).batches)
    requires LoggedBy(c, es, n, i) && i < |Exec(c, es).log| && Exec(c, es).log[i].AdvanceTime?
    ensures Before(c, es, n) <= |Exec(c, es).batches|
    ensures forall k :: 0 <= k < Before(c, es, n) ==> RowsLogged(Exec(c, es), log0, i, k)
    ensures var x := Exec(c, es);
            (forall k :: 0 <= k < |x.batches| && Reaches(x.log[i].frontier, x.batches[k]) ==> k < Before(c, es, n))
            <==> !SplitBefore(x.batches, Before(c, es, n))
  {
    var x, j := Exec(c, es), Before(c, es, n);
    var p := LoggedCovers(c, log0, es, n, i);
    forall k | 0 <= k < j ensures RowsLogged(x, log0, i, k) {
      PrefixLogged(Puts(x.log[..i]), Puts(log0), if p > 0 then Rows(x.batches[j].parsed[..p]) else [], x.batches, j, k);
    }
    forall k | 0 <= k < |x.batches|
      ensures Reaches(x.log[i].frontier, x.batches[k]) <==> k < j || ReadBegun(x.batches, j, k)
    {
      ReachedIff(x.restored, x.batches, j, k);
    }
  }

  /** Outside a group every offset that a logged frontier reaches had its rows logged earlier. */
  lemma ReachedIsLogged(c: Conn, log0: seq<SnapshotEvent>, es: seq<Event>, i: nat, k: nat)
    requires Init(c, log0) && LegalRun(c, es) && c.cfg.writer
    requires InOrder(Exec(c, es).restored, Exec(c, es).batches) && OneMessagePerRead(Exec(c, es).batches)
    requires |log0| <= i < |Exec(c, es).log| && Exec(c, es).log[i].AdvanceTime? && k < |Exec(c, es).batches|
    requires Reaches(Exec(c, es).log[i].frontier, Exec(c, es).batches[k])
    ensures RowsLogged(Exec(c, es), log0, i, k)
  {
    var n := SomeStepLogged(c, log0, es, i);
    FrontierNeverAhead(c, log0, es, n, i);
    assert !SplitBefore(Exec(c, es).batches, Before(c, es, n));
  }
}
