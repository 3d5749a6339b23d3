/** What the backlog of a connector holds: the rows read in real time that the output has not passed yet. */
module ConnectorBacklog {
  import opened Wrappers
  import opened Backlog
  import opened ConnectorModel
  import opened ConnectorTime

  /** How many rows read in real time were fed at time `t`. */
  function CountLive(ops: seq<Op>, t: nat): nat {
    if ops == [] then 0
    else CountLive(ops[..|ops| - 1], t) + if Live(ops[|ops| - 1]) && ops[|ops| - 1].time == t then 1 else 0
  }

  lemma CountLiveSnoc(ops: seq<Op>, op: Op, t: nat)
    ensures CountLive(ops + [op], t) == CountLive(ops, t) + if Live(op) && op.time == t then 1 else 0
  {
    assert (ops + [op])[..|ops|] == ops;
  }

  /** The output was seen past time `t`. */
  ghost predicate Passed(es: seq<Event>, t: nat) {
    exists k :: 0 <= k < |es| && es[k].Probe? && es[k].output.Some? && es[k].output.value > t
  }

  lemma PassedSnoc(es: seq<Event>, t: nat)
    requires es != []
    ensures var e := es[|es| - 1];
            Passed(es, t) <==> Passed(es[..|es| - 1], t) || (e.Probe? && e.output.Some? && e.output.value > t)
  {
    var n := |es| - 1;
    if Passed(es[..n], t) {
      var k :| 0 <= k < n && es[..n][k].Probe? && es[..n][k].output.Some? && es[..n][k].output.value > t;
      assert es[k].output.value > t;
    }
    if Passed(es, t) && !(es[n].Probe? && es[n].output.Some? && es[n].output.value > t) {
      var k :| 0 <= k < |es| && es[k].Probe? && es[k].output.Some? && es[k].output.value > t;
      assert es[..n][k].output.value > t;
    }
  }

  /** From `c` to `c'` the backlog gained exactly the rows fed, none of them before the time of `c`. */
  ghost predicate Counts(c: Conn, c': Conn, t: nat) {
    && InFlight(c'.backlog)[t] + CountLive(c.ops, t) == InFlight(c.backlog)[t] + CountLive(c'.ops, t)
    && (t < c.current ==> CountLive(c'.ops, t) == CountLive(c.ops, t))
    && c.current <= c'.current && c'.sessionTime == c'.current
  }

  lemma ProcessCounts(c: Conn, p: Parsed, t: nat)
    requires c.sessionTime == c.current
    ensures Counts(c, Process(c, p), t)
  {
    ProcessKeeps(c, p);
    match p
    case Unparsable =>
    case Commit(r) =>
      var c1 := AdvanceTimeTo(c, r.clock, r.forced);
      LoggedKeeps(c1, AdvanceTime(c1.current, c1.frontier));
      CountLiveSnoc(c.ops, Advance(c1.current), t);
    case Data(row) =>
      LoggedKeeps(c, Put(row));
      CountLiveSnoc(c.ops, Feed(row, c.sessionTime, true), t);
      OnEventAdds(c.backlog, c.current);
  }

  lemma {:induction false} ProcessAllCounts(c: Conn, ps: seq<Parsed>, t: nat)
    requires c.sessionTime == c.current
    ensures Counts(c, ProcessAll(c, ps), t)
  {
    if ps == [] {
    } else {
      ProcessAllCounts(c, ps[..|ps| - 1], t);
      ProcessCounts(ProcessAll(c, ps[..|ps| - 1]), ps[|ps| - 1], t);
    }
  }

  lemma RewindCounts(c: Conn, restored: Offsets, needs: bool, r: Reading, t: nat)
    requires TimeInv(c) && LegalEntry(c, RewindFinish(restored, needs, r))
    ensures Counts(c, Handle(c, RewindFinish(restored, needs, r)), t)
  {
    var c' := Handle(c, RewindFinish(restored, needs, r));
    if needs { CountLiveSnoc(c.ops, Advance(c'.current), t); }
  }

  lemma HandleCounts(c: Conn, e: Entry, t: nat)
    requires TimeInv(c) && LegalEntry(c, e)
    ensures Counts(c, Handle(c, e), t)
  {
    match e
    case Snapshot(event) =>
      CountLiveSnoc(c.ops, if event.Put? then Feed(event.row, c.sessionTime, false) else Advance(Even(event.timestamp)), t);
    case RewindFinish(restored, needs, r) => RewindCounts(c, restored, needs, r, t);
    case Entries(b, g) => ProcessAllCounts(c, Effective(c, b, g), t);
    case FinishedSource(possibility, _, r) => ProcessCounts(c.(commitAllowed := !possibility.Forbidden?), Commit(r), t);
    case _ =>
  }

  lemma StepCounts(c: Conn, e: Event, t: nat)
    requires TimeInv(c) && Legal(c, e) && !e.Probe?
    ensures Counts(c, Step(c, e), t)
  {
    match e
    case Timer(r) => ProcessCounts(c, Commit(r), t);
    case Yield(_, r) => ProcessCounts(c, Commit(r), t);
    case Receive(entry) => HandleCounts(c, entry, t);
  }

  /** In every run the backlog holds, for each time, exactly the rows read in real time that were fed at it,
      until the output is seen past that time, and none of them from then on. */
  lemma {:induction false} BacklogIsPending(c: Conn, log: seq<SnapshotEvent>, es: seq<Event>, t: nat)
    requires Init(c, log) && LegalRun(c, es)
    ensures Passed(es, t) ==> t < Exec(c, es).current
    ensures InFlight(Exec(c, es).backlog)[t] == if Passed(es, t) then 0 else CountLive(Exec(c, es).ops, t)
    decreases |es|
  {
    if es == [] {
    } else {
      var n := |es| - 1;
      var x := Exec(c, es[..n]);
      BacklogIsPending(c, log, es[..n], t);
      ReachableTime(c, log, es[..n]);
      PassedSnoc(es, t);
      if es[n].Probe? {
        AdvanceKeepsPending(x.backlog, es[n].output, t);
      } else {
        StepCounts(x, es[n], t);
      }
    }
  }
}
