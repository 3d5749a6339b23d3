/** Time in a connector: even, never going back, and strictly later after every minibatch with data. */
module ConnectorTime {
  import opened Wrappers
  import opened Backlog
  import opened ConnectorModel

  // ----- the history of the input session

  /** Times in the history never decrease and never exceed `now`. */
  ghost predicate Chronological(ops: seq<Op>, now: nat) {
    && (forall i :: 0 <= i < |ops| ==> ops[i].time <= now)
    && (forall i, j :: 0 <= i < j < |ops| ==> ops[i].time <= ops[j].time)
  }

  predicate Live(op: Op) {
    op.Feed? && op.live
  }

  ghost predicate LiveAt(ops: seq<Op>, t: nat) {
    exists i :: 0 <= i < |ops| && Live(ops[i]) && ops[i].time == t
  }

  /** A live row is strictly earlier than everything that follows any advancement after it. */
  ghost predicate Separated(ops: seq<Op>) {
    forall i, j :: 0 <= i < j < |ops| && Live(ops[i]) && ops[j].Advance? ==> ops[i].time < ops[j].time
  }

  ghost predicate TimeInv(c: Conn) {
    && c.current % 2 == 0 && c.sessionTime == c.current && c.cfg.atStart % 2 == 0
    && Ordered(c.backlog) && Leq(LastTimestamp(c.backlog), Some(c.current))
    && (!c.backfilled ==> c.backlog == [] && forall i :: 0 <= i < |c.ops| ==> !Live(c.ops[i]))
    && (MinibatchHasData(c) <==> LiveAt(c.ops, c.current))
    && Chronological(c.ops, c.current) && Separated(c.ops)
  }

  /** The new time is even and not earlier, and strictly later when the minibatch holds data. */
  lemma NextTimeProgress(c: Conn, target: nat, forced: Option<nat>)
    requires c.current % 2 == 0 && target % 2 == 0 && (forced.Some? ==> forced.value % 2 == 0)
    ensures var t := NextTime(c, target, forced);
            t % 2 == 0 && t >= c.current && (MinibatchHasData(c) ==> t > c.current)
  {
  }

  lemma AdvanceInv(c: Conn, target: nat, forced: Option<nat>)
    requires TimeInv(c) && target % 2 == 0 && (forced.Some? ==> forced.value % 2 == 0)
    ensures TimeInv(AdvanceTimeTo(c, target, forced))
  {
    var c1 := AdvanceTimeTo(c, target, forced);
    NextTimeProgress(c, target, forced);
    forall i | 0 <= i < |c.ops| && Live(c.ops[i]) ensures c.ops[i].time < c1.current {
      if c.ops[i].time == c.current { assert LiveAt(c.ops, c.current); }
    }
    assert !LiveAt(c1.ops, c1.current) || (c1.current == c.current && LiveAt(c.ops, c.current));
  }

  lemma FeedInv(c: Conn, row: Row)
    requires TimeInv(c) && c.backfilled
    ensures TimeInv(c.(ops := c.ops + [Feed(row, c.sessionTime, true)], backlog := OnEvent(c.backlog, c.current)))
  {
    var c1 := c.(ops := c.ops + [Feed(row, c.sessionTime, true)], backlog := OnEvent(c.backlog, c.current));
    OnEventOrdered(c.backlog, c.current);
    assert Live(c1.ops[|c.ops|]);
  }

  lemma ProcessInv(c: Conn, p: Parsed)
    requires TimeInv(c) && c.backfilled && (p.Commit? ==> EvenReading(p.reading))
    ensures TimeInv(Process(c, p)) && Process(c, p).backfilled
  {
    match p
    case Unparsable =>
    case Commit(r) => AdvanceInv(c, r.clock, r.forced);
    case Data(row) => if WellFormed(c.cfg, row) { FeedInv(Logged(c, Put(row)), row); }
  }

  lemma {:induction false} ProcessAllInv(c: Conn, ps: seq<Parsed>)
    requires TimeInv(c) && c.backfilled
    requires forall k :: 0 <= k < |ps| && ps[k].Commit? ==> EvenReading(ps[k].reading)
    ensures TimeInv(ProcessAll(c, ps)) && ProcessAll(c, ps).backfilled
  {
    if ps == [] {
    } else {
      ProcessAllInv(c, ps[..|ps| - 1]);
      ProcessInv(ProcessAll(c, ps[..|ps| - 1]), ps[|ps| - 1]);
    }
  }

  lemma ProbeInv(c: Conn, f: Frontier)
    requires TimeInv(c) && f.Some? && f.value <= c.sessionTime
    ensures TimeInv(c.(backlog := AdvanceWithProbe(c.backlog, f)))
  {
    AdvanceOrdered(c.backlog, f);
    AdvanceKeepsLast(c.backlog, f);
  }

  lemma RewindInv(c: Conn, restored: Offsets, needs: bool, r: Reading)
    requires TimeInv(c) && LegalEntry(c, RewindFinish(restored, needs, r))
    ensures TimeInv(Handle(c, RewindFinish(restored, needs, r)))
  {
    var c1 := c.(backfilled := true, frontier := restored, restored := restored);
    if needs { AdvanceInv(c1.(coordinate := true), c.cfg.atStart, r.forced); }
  }

  lemma SnapshotInv(c: Conn, e: SnapshotEvent)
    requires TimeInv(c) && LegalEntry(c, Snapshot(e))
    ensures TimeInv(Handle(c, Snapshot(e)))
  {
    var c1 := Handle(c, Snapshot(e));
    assert !LiveAt(c1.ops, c1.current);
  }

  lemma HandleInv(c: Conn, e: Entry)
    requires TimeInv(c) && LegalEntry(c, e)
    ensures TimeInv(Handle(c, e))
  {
    match e
    case Snapshot(event) => SnapshotInv(c, event);
    case RewindFinish(restored, needs, r) => RewindInv(c, restored, needs, r);
    case Entries(b, g) => ProcessAllInv(c, Effective(c, b, g));
    case FinishedSource(possibility, clock, r) =>
      ProcessInv(c.(commitAllowed := !possibility.Forbidden?), Commit(r));
    case _ =>
  }

  lemma StepInv(c: Conn, e: Event)
    requires TimeInv(c) && Legal(c, e)
    ensures TimeInv(Step(c, e))
  {
    match e
    case Timer(r) => if c.backfilled { ProcessInv(c, Commit(r)); }
    case Probe(f) => ProbeInv(c, f);
    case Yield(_, r) => if MinibatchHasData(c) { ProcessInv(c, Commit(r)); }
    case Receive(entry) => HandleInv(c, entry);
  }

  lemma {:induction false} ReachableTime(c: Conn, log: seq<SnapshotEvent>, es: seq<Event>)
    requires Init(c, log) && LegalRun(c, es)
    ensures TimeInv(Exec(c, es))
    decreases |es|
  {
    if es == [] {
    } else {
      ReachableTime(c, log, es[..|es| - 1]);
      StepInv(Exec(c, es[..|es| - 1]), es[|es| - 1]);
    }
  }

  // ----- what it means

  lemma HandleForward(c: Conn, e: Entry)
    requires TimeInv(c) && LegalEntry(c, e)
    ensures Handle(c, e).current >= c.current
  {
    match e
    case Entries(b, g) => ProcessAllKeeps(c, Effective(c, b, g));
    case FinishedSource(possibility, _, r) => ProcessKeeps(c.(commitAllowed := !possibility.Forbidden?), Commit(r));
    case _ =>
  }

  lemma StepForward(c: Conn, e: Event)
    requires TimeInv(c) && Legal(c, e)
    ensures Step(c, e).current >= c.current
  {
    match e
    case Timer(r) => ProcessKeeps(c, Commit(r));
    case Probe(_) =>
    case Yield(_, r) => ProcessKeeps(c, Commit(r));
    case Receive(entry) => HandleForward(c, entry);
  }

  /** Each step keeps time even and never moves it back, whatever the clock and the group say. */
  lemma TimeNeverGoesBack(c: Conn, log: seq<SnapshotEvent>, es: seq<Event>, e: Event)
    requires Init(c, log) && LegalRun(c, es) && Legal(Exec(c, es), e)
    ensures var before, after := Exec(c, es), Step(Exec(c, es), e);
            before.current % 2 == 0 && after.current % 2 == 0 && before.current <= after.current
  {
    ReachableTime(c, log, es);
    var before := Exec(c, es);
    StepInv(before, e);
    StepForward(before, e);
  }

  /** Rows read in real time on either side of a time advancement never share a timestamp. */
  lemma CommitsSeparateRows(c: Conn, log: seq<SnapshotEvent>, es: seq<Event>, i: nat, j: nat, k: nat)
    requires Init(c, log) && LegalRun(c, es)
    requires i < j < k < |Exec(c, es).ops|
    requires Live(Exec(c, es).ops[i]) && Exec(c, es).ops[j].Advance? && Exec(c, es).ops[k].Feed?
    ensures Exec(c, es).ops[i].time < Exec(c, es).ops[k].time
  {
    ReachableTime(c, log, es);
    var ops := Exec(c, es).ops;
    assert ops[i].time < ops[j].time <= ops[k].time;
  }

  lemma YieldPassesBacklog(c: Conn, limit: nat, r: Reading)
    requires TimeInv(c) && Legal(c, Yield(limit, r))
    ensures var after := Step(c, Yield(limit, r));
            Ordered(after.backlog) && (after.backlog != [] ==> after.backlog[|after.backlog| - 1].timestamp < after.current)
  {
    NextTimeProgress(c, r.clock, r.forced);
  }

  lemma {:induction false} DrainsBelow(groups: seq<BacklogEntry>, t: nat)
    requires Ordered(groups) && (groups != [] ==> groups[|groups| - 1].timestamp < t)
    ensures forall g :: g in groups ==> g.timestamp < t
    ensures AdvanceWithProbe(groups, Some(t)) == []
    decreases |groups|
  {
    if groups == [] {
    } else {
      DrainsBelow(groups[1..], t);
    }
  }

  /** When the poller yields on a full backlog, time is already past every row of the backlog: the output can drain it. */
  lemma YieldCannotDeadlock(c: Conn, log: seq<SnapshotEvent>, es: seq<Event>, limit: nat, r: Reading)
    requires Init(c, log) && LegalRun(c, es) && Legal(Exec(c, es), Yield(limit, r))
    ensures var after := Step(Exec(c, es), Yield(limit, r));
            && (forall g :: g in after.backlog ==> g.timestamp < after.current)
            && AdvanceWithProbe(after.backlog, Some(after.current)) == []
  {
    ReachableTime(c, log, es);
    YieldPassesBacklog(Exec(c, es), limit, r);
    var after := Step(Exec(c, es), Yield(limit, r));
    DrainsBelow(after.backlog, after.current);
  }
}
