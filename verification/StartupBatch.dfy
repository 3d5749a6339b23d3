/** After recovery every source opens its first batch at one shared timestamp, and completed objects do not split it. */
module StartupBatch {
  import opened Wrappers
  import opened Backlog
  import opened ConnectorModel
  import opened ConnectorTime
  import opened AtomicUpdates

  /** Everything but what closes the start-up batch: the timer, a commit message, a forced commit, a full backlog. */
  predicate Quiet(e: Event) {
    match e
    case Timer(_) => false
    case Yield(_, _) => false
    case Probe(_) => true
    case Receive(entry) =>
      match entry
      case Entries(b, g) => g.None? && NoCommits(b)
      case FinishedSource(possibility, _, _) => !possibility.Forced?
      case NewSource(_) => true
      case Finished => true
      case ParsingError => true
      case _ => false
  }

  /** The start-up batch is open and the auto-commit timer will close it. */
  predicate InStartup(c: Conn) {
    c.backfilled && c.coordinate && c.cfg.timer && c.current <= c.cfg.atStart
  }

  lemma QuietStep(c: Conn, e: Event)
    requires Legal(c, e) && Quiet(e) && InStartup(c)
    ensures InStartup(Step(c, e))
    ensures FedAt(c, Step(c, e), if e.Receive? && e.entry.Entries? then WellFormedRows(c.cfg, e.entry.batch.parsed) else [], c.sessionTime)
  {
    if e.Receive? && e.entry.Entries? {
      BatchFedAt(c, e.entry.batch.parsed);
      ProcessAllKeeps(c, e.entry.batch.parsed);
    }
  }

  /** However the wall clock moves, objects that complete do not split the start-up batch. */
  lemma {:induction false} StartupBatchIsWhole(c: Conn, es: seq<Event>)
    requires LegalRun(c, es) && InStartup(c) && forall k :: 0 <= k < |es| ==> Quiet(es[k])
    ensures InStartup(Exec(c, es)) && FedAt(c, Exec(c, es), RunRows(c.cfg, es), c.sessionTime)
    decreases |es|
  {
    if es == [] {
    } else {
      var n := |es| - 1;
      StartupBatchIsWhole(c, es[..n]);
      var x := Exec(c, es[..n]);
      QuietStep(x, es[n]);
      var more := if es[n].Receive? && es[n].entry.Entries? then WellFormedRows(c.cfg, es[n].entry.batch.parsed) else [];
      FedAtTrans(c, x, Step(x, es[n]), RunRows(c.cfg, es[..n]), more, c.sessionTime);
      assert RunRows(c.cfg, es[..n]) + [] == RunRows(c.cfg, es[..n]);
    }
  }

  /** The sentinel opens the batch at the shared timestamp, if the replay did not get past it, and never before the replay. */
  lemma SentinelOpensBatch(c: Conn, restored: Offsets, r: Reading)
    requires TimeInv(c) && !c.backfilled && r.forced.None?
    ensures var c1 := Handle(c, RewindFinish(restored, true, r));
            && c1.sessionTime == (if c.current < c.cfg.atStart then c.cfg.atStart else c.current)
            && c1.current == c1.sessionTime && c1.backfilled && c1.coordinate && c1.cfg == c.cfg
  {
  }

  /** `x` fed `rows` of real-time data as its first ones, all at time `t`. */
  ghost predicate StartsWith(c: Conn, x: Conn, rows: seq<Row>, t: nat) {
    && |x.ops| == |c.ops| + 1 + |rows|
    && x.ops[|c.ops|] == Advance(t)
    && forall i :: 0 <= i < |rows| ==> x.ops[|c.ops| + 1 + i] == Feed(rows[i], t, true)
  }

  lemma OneAdvance(c: Conn, restored: Offsets, r: Reading)
    ensures var c1 := Handle(c, RewindFinish(restored, true, r));
            c1.ops == c.ops + [Advance(c1.sessionTime)]
  {
  }

  lemma OpenedThenFed(c: Conn, c1: Conn, x: Conn, rows: seq<Row>, t: nat)
    requires c1.ops == c.ops + [Advance(t)] && FedAt(c1, x, rows, t)
    ensures StartsWith(c, x, rows, t)
  {
    forall i | 0 <= i < |rows| ensures x.ops[|c.ops| + 1 + i] == Feed(rows[i], t, true) {
      assert x.ops[|c1.ops| + i] == Feed(rows[i], t, true);
    }
    assert x.ops[|c.ops|] == c1.ops[|c.ops|];
  }

  lemma StartupFrom(c: Conn, restored: Offsets, r: Reading, es: seq<Event>)
    requires TimeInv(c) && !c.backfilled && c.current <= c.cfg.atStart && c.cfg.timer && r.forced.None?
    requires LegalRun(Handle(c, RewindFinish(restored, true, r)), es) && forall k :: 0 <= k < |es| ==> Quiet(es[k])
    ensures StartsWith(c, Exec(Handle(c, RewindFinish(restored, true, r)), es), RunRows(c.cfg, es), c.cfg.atStart)
  {
    var c1 := Handle(c, RewindFinish(restored, true, r));
    SentinelOpensBatch(c, restored, r);
    OneAdvance(c, restored, r);
    StartupBatchIsWhole(c1, es);
    OpenedThenFed(c, c1, Exec(c1, es), RunRows(c.cfg, es), c.cfg.atStart);
  }

  /** Whatever a source replayed up to the shared start, its whole start-up batch is fed at the shared timestamp;
      hence so are those of all sources started together. */
  lemma StartupBatchesMeet(c: Conn, log: seq<SnapshotEvent>, es0: seq<Event>, restored: Offsets, r: Reading, es: seq<Event>)
    requires Init(c, log) && LegalRun(c, es0) && r.forced.None?
    requires var c0 := Exec(c, es0);
             !c0.backfilled && c0.current <= c0.cfg.atStart && c0.cfg.timer
             && LegalRun(Handle(c0, RewindFinish(restored, true, r)), es)
    requires forall k :: 0 <= k < |es| ==> Quiet(es[k])
    ensures var c0 := Exec(c, es0);
            StartsWith(c0, Exec(Handle(c0, RewindFinish(restored, true, r)), es), RunRows(c0.cfg, es), c0.cfg.atStart)
  {
    ReachableTime(c, log, es0);
    StartupFrom(Exec(c, es0), restored, r, es);
  }
}
