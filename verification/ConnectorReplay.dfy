/** Replaying a recorded snapshot in speedrun mode feeds the session what the recorded run fed it. */
module ConnectorReplay {
  import opened Wrappers
  import opened Backlog
  import opened ConnectorModel
  import opened ConnectorTime
  import opened ConnectorPersistence

  datatype PersistenceMode =
    | RealtimeReplay | SpeedrunReplay | BatchReplay | Persisting | SelectivePersisting | UdfCaching | OperatorPersisting

  /** `handle_snapshot_time_advancement`: only a speedrun forwards recorded times. */
  predicate Forwards(mode: PersistenceMode, e: SnapshotEvent) {
    e.Put? || mode.SpeedrunReplay?
  }

  function Forwarded(mode: PersistenceMode, log: seq<SnapshotEvent>): seq<SnapshotEvent> {
    if log == [] then []
    else
      var rest := Forwarded(mode, log[..|log| - 1]);
      if Forwards(mode, log[|log| - 1]) then rest + [log[|log| - 1]] else rest
  }

  function AsEntries(log: seq<SnapshotEvent>): (es: seq<Entry>)
    ensures |es| == |log| && forall k :: 0 <= k < |log| ==> es[k] == Snapshot(log[k])
  {
    seq(|log|, k requires 0 <= k < |log| => Snapshot(log[k]))
  }

  lemma {:induction false} SpeedrunForwardsAll(log: seq<SnapshotEvent>)
    ensures Forwarded(SpeedrunReplay, log) == log
  {
    if log == [] {
    } else {
      SpeedrunForwardsAll(log[..|log| - 1]);
      assert log == log[..|log| - 1] + [log[|log| - 1]];
    }
  }

  /** Whatever the mode, every row is forwarded. */
  lemma {:induction false} RowsForwarded(mode: PersistenceMode, log: seq<SnapshotEvent>)
    ensures Puts(Forwarded(mode, log)) == Puts(log)
  {
    if log == [] {
    } else {
      var n := |log| - 1;
      RowsForwarded(mode, log[..n]);
      if Forwards(mode, log[n]) { PutsSnoc(Forwarded(mode, log[..n]), log[n]); }
    }
  }

  /** The snapshots of all earlier workers, one after the other. */
  function Joined(logs: seq<seq<SnapshotEvent>>): seq<SnapshotEvent> {
    if logs == [] then [] else Joined(logs[..|logs| - 1]) + logs[|logs| - 1]
  }

  lemma {:induction false} ForwardedConcat(mode: PersistenceMode, a: seq<SnapshotEvent>, b: seq<SnapshotEvent>)
    ensures Forwarded(mode, a + b) == Forwarded(mode, a) + Forwarded(mode, b)
    decreases |b|
  {
    if b == [] {
      assert a + b == a;
    } else {
      var n := |b| - 1;
      ForwardedConcat(mode, a, b[..n]);
      assert (a + b)[..|a + b| - 1] == a + b[..n];
      Associative(Forwarded(mode, a), Forwarded(mode, b[..n]), [b[n]]);
    }
  }

  /** The inner loop of `rewind_from_disk_snapshot`. */
  method RewindOne(log: seq<SnapshotEvent>, mode: PersistenceMode) returns (sent: seq<Entry>, entriesRead: nat)
    requires !mode.RealtimeReplay?
    ensures sent == AsEntries(Forwarded(mode, log)) && entriesRead == |Puts(log)|
  {
    sent, entriesRead := [], 0;
    for k := 0 to |log|
      invariant sent == AsEntries(Forwarded(mode, log[..k])) && entriesRead == |Puts(log[..k])|
    {
      assert log[..k + 1][..k] == log[..k] && log[..k + 1][k] == log[k];
      match log[k] {
        case Put(_) =>
          entriesRead := entriesRead + 1;
          sent := sent + [Snapshot(log[k])];
        case AdvanceTime(_, _) =>
          if mode.SpeedrunReplay? { sent := sent + [Snapshot(log[k])]; }
      }
    }
    assert log[..|log|] == log;
  }

  /** `rewind_from_disk_snapshot`: the entries sent to the poller; real-time replay is not a possible mode here. */
  method RewindFromDiskSnapshot(logs: seq<seq<SnapshotEvent>>, mode: PersistenceMode) returns (sent: seq<Entry>)
    requires !mode.RealtimeReplay?
    ensures sent == AsEntries(Forwarded(mode, Joined(logs)))
  {
    sent := [];
    for k := 0 to |logs|
      invariant sent == AsEntries(Forwarded(mode, Joined(logs[..k])))
    {
      assert logs[..k + 1][..k] == logs[..k] && logs[..k + 1][k] == logs[k];
      ForwardedConcat(mode, Joined(logs[..k]), logs[k]);
      var more, _ := RewindOne(logs[k], mode);
      sent := sent + more;
    }
    assert logs[..|logs|] == logs;
  }

  // ----- what a replay feeds

  type TimedRow = (Row, nat)

  function ReplayTime(log: seq<SnapshotEvent>): nat {
    if log == [] then 0
    else if log[|log| - 1].AdvanceTime? then Even(log[|log| - 1].timestamp)
    else ReplayTime(log[..|log| - 1])
  }

  function ReplayFeed(log: seq<SnapshotEvent>): seq<TimedRow> {
    if log == [] then []
    else
      var rest := log[..|log| - 1];
      if log[|log| - 1].Put? then ReplayFeed(rest) + [(log[|log| - 1].row, ReplayTime(rest))] else ReplayFeed(rest)
  }

  /** Recorded times never go back, so the replay's `advance_to` assertions hold. */
  predicate Replayable(log: seq<SnapshotEvent>) {
    log == [] ||
    (Replayable(log[..|log| - 1]) &&
     (log[|log| - 1].AdvanceTime? ==> ReplayTime(log[..|log| - 1]) <= Even(log[|log| - 1].timestamp)))
  }

  /** The rows the session was fed, with their timestamps. */
  function Fed(ops: seq<Op>): seq<TimedRow> {
    if ops == [] then []
    else
      var rest := Fed(ops[..|ops| - 1]);
      if ops[|ops| - 1].Feed? then rest + [(ops[|ops| - 1].row, ops[|ops| - 1].time)] else rest
  }

  lemma FedSnoc(ops: seq<Op>, op: Op)
    ensures Fed(ops + [op]) == if op.Feed? then Fed(ops) + [(op.row, op.time)] else Fed(ops)
  {
    assert (ops + [op])[..|ops|] == ops;
  }

  lemma ReplaySnoc(log: seq<SnapshotEvent>, e: SnapshotEvent)
    ensures ReplayTime(log + [e]) == if e.AdvanceTime? then Even(e.timestamp) else ReplayTime(log)
    ensures ReplayFeed(log + [e]) == if e.Put? then ReplayFeed(log) + [(e.row, ReplayTime(log))] else ReplayFeed(log)
    ensures Replayable(log + [e]) <==> Replayable(log) && (e.AdvanceTime? ==> ReplayTime(log) <= Even(e.timestamp))
  {
    assert (log + [e])[..|log|] == log;
  }

  function Replaying(log: seq<SnapshotEvent>): (es: seq<Event>)
    ensures |es| == |log| && forall k :: 0 <= k < |log| ==> es[k] == Receive(Snapshot(log[k]))
  {
    seq(|log|, k requires 0 <= k < |log| => Receive(Snapshot(log[k])))
  }

  /** `x` has replayed exactly `log`. */
  ghost predicate Replayed(x: Conn, log: seq<SnapshotEvent>) {
    Fed(x.ops) == ReplayFeed(log) && x.sessionTime == ReplayTime(log) && x.backlog == [] && !x.backfilled && !x.done
  }

  lemma ReplayOne(x: Conn, log: seq<SnapshotEvent>, e: SnapshotEvent)
    requires Replayed(x, log) && Replayable(log)
    ensures Legal(x, Receive(Snapshot(e))) <==> Replayable(log + [e])
    ensures Replayed(Step(x, Receive(Snapshot(e))), log + [e])
  {
    ReplaySnoc(log, e);
    FedSnoc(x.ops, if e.Put? then Feed(e.row, x.sessionTime, false) else Advance(Even(e.timestamp)));
  }

  /** A log whose times do not go back can be sent to a fresh connector. */
  lemma {:induction false} ReplayRun(y: Conn, log0: seq<SnapshotEvent>, log: seq<SnapshotEvent>)
    requires Init(y, log0) && Replayable(log)
    ensures LegalRun(y, Replaying(log)) && Replayed(Exec(y, Replaying(log)), log)
    decreases |log|
  {
    if log == [] {
    } else {
      var n := |log| - 1;
      ReplayRun(y, log0, log[..n]);
      var x := Exec(y, Replaying(log[..n]));
      assert log == log[..n] + [log[n]];
      ReplaySnoc(log[..n], log[n]);
      ReplayOne(x, log[..n], log[n]);
      ExtendRun(y, Replaying(log[..n]), Receive(Snapshot(log[n])));
      assert Replaying(log) == Replaying(log[..n]) + [Receive(Snapshot(log[n]))];
    }
  }

  lemma {:induction false} ReplayingSends(log: seq<SnapshotEvent>)
    ensures Received(Replaying(log)) == AsEntries(log)
    decreases |log|
  {
    if log == [] {
    } else {
      var n := |log| - 1;
      ReplayingSends(log[..n]);
      assert Replaying(log)[..n] == Replaying(log[..n]);
      assert AsEntries(log) == AsEntries(log[..n]) + [Snapshot(log[n])];
    }
  }

  /** Before the sentinel only the entries received matter: neither timer nor backlog does anything. */
  lemma QuietBeforeSentinel(x: Conn, log: seq<SnapshotEvent>, e: Event)
    requires Replayed(x, log) && Legal(x, e) && !e.Receive?
    ensures Replayed(Step(x, e), log)
  {
  }

  /** However timers, probes and full backlogs fall among the entries, the rows are fed as recorded, at the recorded times. */
  lemma {:induction false} ReplayAnyRun(y: Conn, log0: seq<SnapshotEvent>, es: seq<Event>, log: seq<SnapshotEvent>)
    requires Init(y, log0) && LegalRun(y, es) && Received(es) == AsEntries(log)
    ensures Replayable(log) && Replayed(Exec(y, es), log)
    decreases |es|
  {
    if es == [] {
    } else {
      var m := |es| - 1;
      if es[m].Receive? {
        var n := |log| - 1;
        assert AsEntries(log)[..n] == AsEntries(log[..n]);
        assert Received(es[..m]) == Received(es)[..n];
        ReplayAnyRun(y, log0, es[..m], log[..n]);
        assert es[m].entry == Received(es)[n] == Snapshot(log[n]);
        assert log == log[..n] + [log[n]];
        ReplayOne(Exec(y, es[..m]), log[..n], log[n]);
      } else {
        ReplayAnyRun(y, log0, es[..m], log);
        QuietBeforeSentinel(Exec(y, es[..m]), log, es[m]);
      }
    }
  }

  // ----- what a recording run feeds

  /** The rows read in real time, with their timestamps. */
  function LiveFed(ops: seq<Op>): seq<TimedRow> {
    if ops == [] then []
    else
      var rest := LiveFed(ops[..|ops| - 1]);
      if Live(ops[|ops| - 1]) then rest + [(ops[|ops| - 1].row, ops[|ops| - 1].time)] else rest
  }

  lemma LiveFedSnoc(ops: seq<Op>, op: Op)
    ensures LiveFed(ops + [op]) == if Live(op) then LiveFed(ops) + [(op.row, op.time)] else LiveFed(ops)
  {
    assert (ops + [op])[..|ops|] == ops;
  }

  lemma {:induction false} NothingLive(ops: seq<Op>)
    requires forall k :: 0 <= k < |ops| ==> !Live(ops[k])
    ensures LiveFed(ops) == []
  {
    if ops == [] {
    } else {
      NothingLive(ops[..|ops| - 1]);
    }
  }

  /** What a replay of `log` feeds from index `base` on. */
  function ReplayTail(log: seq<SnapshotEvent>, base: nat): seq<TimedRow>
    requires base <= |log|
    decreases |log|
  {
    if |log| == base then []
    else
      var rest := log[..|log| - 1];
      if log[|log| - 1].Put? then ReplayTail(rest, base) + [(log[|log| - 1].row, ReplayTime(rest))] else ReplayTail(rest, base)
  }

  lemma {:induction false} ReplaySplits(log: seq<SnapshotEvent>, base: nat)
    requires base <= |log|
    ensures ReplayFeed(log) == ReplayFeed(log[..base]) + ReplayTail(log, base)
    decreases |log|
  {
    if |log| == base {
      assert log[..base] == log;
    } else {
      var n := |log| - 1;
      ReplaySplits(log[..n], base);
      assert log[..n][..base] == log[..base];
      Associative(ReplayFeed(log[..base]), ReplayTail(log[..n], base), [if log[n].Put? then (log[n].row, ReplayTime(log[..n])) else (Row(Insert, 0, []), 0)]);
    }
  }

  /** The same, without the malformed rows. */
  function RecordedFeed(cfg: Config, log: seq<SnapshotEvent>, base: nat): seq<TimedRow>
    requires base <= |log|
    decreases |log|
  {
    if |log| == base then []
    else
      var rest := log[..|log| - 1];
      var e := log[|log| - 1];
      if e.Put? && WellFormed(cfg, e.row)
      then RecordedFeed(cfg, rest, base) + [(e.row, ReplayTime(rest))] else RecordedFeed(cfg, rest, base)
  }

  lemma RecordedSnoc(cfg: Config, log: seq<SnapshotEvent>, base: nat, e: SnapshotEvent)
    requires base <= |log|
    ensures RecordedFeed(cfg, log + [e], base) ==
            if e.Put? && WellFormed(cfg, e.row)
            then RecordedFeed(cfg, log, base) + [(e.row, ReplayTime(log))] else RecordedFeed(cfg, log, base)
  {
    assert (log + [e])[..|log|] == log;
  }

  /** What was fed is what was rewound, then the live rows, which are as logged. */
  ghost predicate FeedRecorded(c: Conn, base: nat) {
    && base <= |c.log|
    && LiveFed(c.ops) == RecordedFeed(c.cfg, c.log, base)
    && Fed(c.ops) == ReplayFeed(c.rewound) + LiveFed(c.ops)
  }

  /** The log replays if and only if the log before this run does, up to the time of the sentinel. */
  ghost predicate ReplayableFrom(log0: seq<SnapshotEvent>, log: seq<SnapshotEvent>) {
    && log0 < log && log[|log0|].AdvanceTime?
    && (Replayable(log) <==> Replayable(log0) && ReplayTime(log0) <= Even(log[|log0|].timestamp))
  }

  ghost predicate Recording(c: Conn, log0: seq<SnapshotEvent>) {
    && FeedRecorded(c, |log0|) && ReplayableFrom(log0, c.log)
    && c.sessionTime == c.current && c.current % 2 == 0
    && (!c.done ==> ReplayTime(c.log) == c.current)
  }

  lemma ReplayableGrows(log0: seq<SnapshotEvent>, log: seq<SnapshotEvent>, e: SnapshotEvent)
    requires ReplayableFrom(log0, log) && (e.AdvanceTime? ==> ReplayTime(log) <= Even(e.timestamp))
    ensures ReplayableFrom(log0, log + [e])
  {
    ReplaySnoc(log, e);
  }

  /** Logging the time that the session was advanced to. */
  lemma TimeRecording(c: Conn, c': Conn, log0: seq<SnapshotEvent>)
    requires Recording(c, log0) && !c.done && c'.rewound == c.rewound && c'.cfg == c.cfg
    requires c.current <= c'.current && c'.current % 2 == 0 && c'.sessionTime == c'.current
    requires c'.log == c.log + [AdvanceTime(c'.current, c.frontier)]
    requires c'.ops == c.ops + [Advance(c'.current)]
    ensures Recording(c', log0)
  {
    var e := AdvanceTime(c'.current, c.frontier);
    FedSnoc(c.ops, Advance(c'.current));
    LiveFedSnoc(c.ops, Advance(c'.current));
    ReplaySnoc(c.log, e);
    RecordedSnoc(c.cfg, c.log, |log0|, e);
    ReplayableGrows(log0, c.log, e);
  }

  lemma RowRecording(c: Conn, row: Row, log0: seq<SnapshotEvent>)
    requires Recording(c, log0) && !c.done && c.cfg.writer
    ensures Recording(Process(c, Data(row)), log0)
  {
    var op := Feed(row, c.sessionTime, true);
    FedSnoc(c.ops, op);
    LiveFedSnoc(c.ops, op);
    ReplaySnoc(c.log, Put(row));
    RecordedSnoc(c.cfg, c.log, |log0|, Put(row));
    ReplayableGrows(log0, c.log, Put(row));
    Associative(ReplayFeed(c.rewound), LiveFed(c.ops), [(row, c.sessionTime)]);
  }

  lemma ProcessRecording(c: Conn, p: Parsed, log0: seq<SnapshotEvent>)
    requires Recording(c, log0) && !c.done && c.cfg.writer && (p.Commit? ==> EvenReading(p.reading))
    ensures Recording(Process(c, p), log0)
  {
    match p
    case Unparsable =>
    case Commit(r) =>
      NextTimeProgress(c, r.clock, r.forced);
      TimeRecording(c, Process(c, p), log0);
    case Data(row) => RowRecording(c, row, log0);
  }

  lemma {:induction false} ProcessAllRecording(c: Conn, ps: seq<Parsed>, log0: seq<SnapshotEvent>)
    requires Recording(c, log0) && !c.done && c.cfg.writer
    requires forall k :: 0 <= k < |ps| && ps[k].Commit? ==> EvenReading(ps[k].reading)
    ensures Recording(ProcessAll(c, ps), log0)
  {
    if ps == [] {
    } else {
      ProcessAllRecording(c, ps[..|ps| - 1], log0);
      ProcessAllKeeps(c, ps[..|ps| - 1]);
      ProcessRecording(ProcessAll(c, ps[..|ps| - 1]), ps[|ps| - 1], log0);
    }
  }

  /** Before the sentinel the session is fed the rewound events; after it, rows are fed as they are logged. */
  ghost predicate ReplayInv(c: Conn, log0: seq<SnapshotEvent>) {
    if c.backfilled then Recording(c, log0)
    else
      && c.log == log0 && Fed(c.ops) == ReplayFeed(c.rewound) && LiveFed(c.ops) == []
      && c.current == ReplayTime(c.rewound) && Replayable(c.rewound)
  }

  /** The sentinel opens the recording: its time is the first thing logged. */
  lemma RewindReplay(c: Conn, log0: seq<SnapshotEvent>, restored: Offsets, r: Reading)
    requires ReplayInv(c, log0) && TimeInv(c) && c.cfg.writer && !c.done
    requires LegalEntry(c, RewindFinish(restored, true, r))
    ensures ReplayInv(Handle(c, RewindFinish(restored, true, r)), log0)
  {
    var c' := Handle(c, RewindFinish(restored, true, r));
    var e := AdvanceTime(c'.current, restored);
    NextTimeProgress(c, c.cfg.atStart, r.forced);
    assert c'.log == log0 + [e] && c'.ops == c.ops + [Advance(c'.current)];
    FedSnoc(c.ops, Advance(c'.current));
    LiveFedSnoc(c.ops, Advance(c'.current));
    ReplaySnoc(log0, e);
    RecordedSnoc(c.cfg, log0, |log0|, e);
    assert ReplayFeed(c.rewound) + [] == ReplayFeed(c.rewound);
  }

  lemma SnapshotReplay(c: Conn, log0: seq<SnapshotEvent>, event: SnapshotEvent)
    requires ReplayInv(c, log0) && TimeInv(c) && LegalEntry(c, Snapshot(event))
    ensures ReplayInv(Handle(c, Snapshot(event)), log0)
  {
    var op := if event.Put? then Feed(event.row, c.sessionTime, false) else Advance(Even(event.timestamp));
    ReplaySnoc(c.rewound, event);
    FedSnoc(c.ops, op);
    LiveFedSnoc(c.ops, op);
  }

  /** Logging a time does not change what was fed. */
  lemma FeedKept(c: Conn, c': Conn, base: nat, e: SnapshotEvent)
    requires FeedRecorded(c, base) && e.AdvanceTime? && c'.log == c.log + [e]
    requires c'.ops == c.ops && c'.rewound == c.rewound && c'.cfg == c.cfg
    ensures FeedRecorded(c', base)
  {
    RecordedSnoc(c.cfg, c.log, base, e);
  }

  lemma FinishReplay(c: Conn, log0: seq<SnapshotEvent>)
    requires ReplayInv(c, log0) && c.backfilled && c.cfg.writer && !c.done
    ensures ReplayInv(Handle(c, Finished), log0)
  {
    var e := AdvanceTime(c.current + 2, c.frontier);
    var c' := Handle(c, Finished);
    assert c' == c.(log := c.log + [e], done := true);
    ReplaySnoc(c.log, e);
    ReplayableGrows(log0, c.log, e);
    FeedKept(c, c', |log0|, e);
  }

  lemma BatchReplayInv(c: Conn, log0: seq<SnapshotEvent>, e: Entry)
    requires ReplayInv(c, log0) && c.cfg.writer && !c.done && e.Entries? && LegalEntry(c, e)
    ensures ReplayInv(Handle(c, e), log0)
  {
    var ps := Effective(c, e.batch, e.groupForces);
    ProcessAllKeeps(c, ps);
    ProcessAllRecording(c, ps, log0);
  }

  lemma CommitReplay(c: Conn, log0: seq<SnapshotEvent>, r: Reading)
    requires ReplayInv(c, log0) && c.backfilled && c.cfg.writer && !c.done && EvenReading(r)
    ensures ReplayInv(Process(c, Commit(r)), log0)
  {
    ProcessKeeps(c, Commit(r));
    ProcessRecording(c, Commit(r), log0);
  }

  lemma HandleReplay(c: Conn, log0: seq<SnapshotEvent>, e: Entry)
    requires ReplayInv(c, log0) && TimeInv(c) && c.cfg.writer && !c.done && LegalEntry(c, e)
    ensures ReplayInv(Handle(c, e), log0)
  {
    match e
    case Snapshot(event) => SnapshotReplay(c, log0, event);
    case RewindFinish(restored, needs, r) => RewindReplay(c, log0, restored, r);
    case Entries(_, _) => BatchReplayInv(c, log0, e);
    case FinishedSource(possibility, _, r) => CommitReplay(c.(commitAllowed := !possibility.Forbidden?), log0, r);
    case Finished => FinishReplay(c, log0);
    case NewSource(_) =>
    case ParsingError =>
  }

  lemma StepReplay(c: Conn, log0: seq<SnapshotEvent>, e: Event)
    requires ReplayInv(c, log0) && TimeInv(c) && c.cfg.writer && Legal(c, e)
    ensures ReplayInv(Step(c, e), log0)
  {
    match e
    case Timer(r) => if c.backfilled { CommitReplay(c, log0, r); }
    case Probe(_) =>
    case Yield(_, r) => if MinibatchHasData(c) { CommitReplay(c, log0, r); }
    case Receive(entry) => HandleReplay(c, log0, entry);
  }

  lemma {:induction false} ReachableReplay(c: Conn, log0: seq<SnapshotEvent>, es: seq<Event>)
    requires Init(c, log0) && LegalRun(c, es) && c.cfg.writer
    ensures ReplayInv(Exec(c, es), log0) && Exec(c, es).cfg == c.cfg
    decreases |es|
  {
    if es == [] {
    } else {
      ReachableReplay(c, log0, es[..|es| - 1]);
      ReachableTime(c, log0, es[..|es| - 1]);
      StepReplay(Exec(c, es[..|es| - 1]), log0, es[|es| - 1]);
      StepConfig(Exec(c, es[..|es| - 1]), es[|es| - 1]);
    }
  }

  // ----- the round trip

  /** Every row logged from `base` on has the declared number of columns. */
  ghost predicate AllWellFormed(cfg: Config, log: seq<SnapshotEvent>, base: nat) {
    forall i :: base <= i < |log| && log[i].Put? ==> WellFormed(cfg, log[i].row)
  }

  lemma {:induction false} RecordedIsReplayIff(cfg: Config, log: seq<SnapshotEvent>, base: nat)
    requires base <= |log|
    ensures |RecordedFeed(cfg, log, base)| <= |ReplayTail(log, base)|
    ensures |RecordedFeed(cfg, log, base)| == |ReplayTail(log, base)| <==> AllWellFormed(cfg, log, base)
    ensures RecordedFeed(cfg, log, base) == ReplayTail(log, base) <==> AllWellFormed(cfg, log, base)
    decreases |log|
  {
    if |log| == base {
    } else {
      var n := |log| - 1;
      RecordedIsReplayIff(cfg, log[..n], base);
      assert AllWellFormed(cfg, log, base) <==>
             AllWellFormed(cfg, log[..n], base) && (log[n].Put? ==> WellFormed(cfg, log[n].row));
    }
  }

  lemma {:induction false} FeedLength(log: seq<SnapshotEvent>)
    ensures |ReplayFeed(log)| == |Puts(log)|
  {
    if log == [] {
    } else {
      FeedLength(log[..|log| - 1]);
    }
  }

  lemma SplitEquality<T>(a: seq<T>, b: seq<T>, c: seq<T>, d: seq<T>)
    requires |a| == |c|
    ensures a + b == c + d <==> a == c && b == d
  {
    if a + b == c + d {
      assert a == (a + b)[..|a|] && b == (a + b)[|a|..];
      assert c == (c + d)[..|c|] && d == (c + d)[|c|..];
    }
  }

  /** `es` sends a fresh connector what `rewind_from_disk_snapshot` sends in speedrun mode, among any other events. */
  ghost predicate Speedruns(y: Conn, es: seq<Event>, log: seq<SnapshotEvent>) {
    Init(y, log) && LegalRun(y, es) && Received(es) == AsEntries(Forwarded(SpeedrunReplay, log))
  }

  /** The log of a run can be replayed if and only if that of the runs before can, and they did not get past the sentinel's time. */
  lemma RecordingReplays(c: Conn, log0: seq<SnapshotEvent>, es: seq<Event>, y: Conn)
    requires Init(c, log0) && LegalRun(c, es) && c.cfg.writer && Exec(c, es).backfilled && Init(y, Exec(c, es).log)
    ensures var log := Exec(c, es).log;
            && log0 < log && log[|log0|].AdvanceTime?
            && ((exists es': seq<Event> :: Speedruns(y, es', log)) <==>
                  Replayable(log0) && ReplayTime(log0) <= Even(log[|log0|].timestamp))
  {
    var log := Exec(c, es).log;
    ReachableReplay(c, log0, es);
    SpeedrunForwardsAll(log);
    if Replayable(log) {
      ReplayRun(y, log, log);
      ReplayingSends(log);
      assert Speedruns(y, Replaying(log), log);
    }
    if exists es': seq<Event> :: Speedruns(y, es', log) {
      var es' :| Speedruns(y, es', log);
      ReplayAnyRun(y, log, es', log);
    }
  }

  /** Both sides in parts: the replay feeds the earlier rows and those logged by the run, the run fed what it had rewound
      and the rows it read. */
  lemma ReplayAndRun(c: Conn, log0: seq<SnapshotEvent>, es: seq<Event>, y: Conn, es': seq<Event>)
    requires Init(c, log0) && LegalRun(c, es) && c.cfg.writer && Exec(c, es).backfilled
    requires Speedruns(y, es', Exec(c, es).log)
    ensures var x := Exec(c, es);
            && FeedRecorded(x, |log0|) && x.cfg == c.cfg
            && Fed(Exec(y, es').ops) == ReplayFeed(log0) + ReplayTail(x.log, |log0|)
  {
    var x := Exec(c, es);
    ReachableReplay(c, log0, es);
    SpeedrunForwardsAll(x.log);
    ReplayAnyRun(y, x.log, es', x.log);
    ReplaySplits(x.log, |log0|);
    assert x.log[..|log0|] == log0;
  }

  /** Record and replay: after the rows of earlier runs, every speedrun feeds the rows of this run at their times
      if and only if none of them was malformed. */
  lemma LiveRowsReplay(c: Conn, log0: seq<SnapshotEvent>, es: seq<Event>, y: Conn, es': seq<Event>)
    requires Init(c, log0) && LegalRun(c, es) && c.cfg.writer && Exec(c, es).backfilled
    requires Speedruns(y, es', Exec(c, es).log)
    ensures |Puts(log0)| <= |Fed(Exec(y, es').ops)|
    ensures Fed(Exec(y, es').ops)[|Puts(log0)|..] == LiveFed(Exec(c, es).ops) <==> AllWellFormed(c.cfg, Exec(c, es).log, |log0|)
  {
    ReplayAndRun(c, log0, es, y, es');
    var log := Exec(c, es).log;
    RecordedIsReplayIff(c.cfg, log, |log0|);
    FeedLength(log0);
    assert (ReplayFeed(log0) + ReplayTail(log, |log0|))[|Puts(log0)|..] == ReplayTail(log, |log0|);
  }

  /** A speedrun feeds everything the recorded run fed, at the same times, if and only if no malformed row was logged
      and the recorded run had itself replayed the earlier rows at their recorded times. */
  lemma RecordReplayRoundTrip(c: Conn, log0: seq<SnapshotEvent>, es: seq<Event>, mode: PersistenceMode, y: Conn, es': seq<Event>)
    requires Init(c, log0) && LegalRun(c, es) && c.cfg.writer && Exec(c, es).backfilled
    requires Exec(c, es).rewound == Forwarded(mode, log0)
    requires Speedruns(y, es', Exec(c, es).log)
    ensures Fed(Exec(y, es').ops) == Fed(Exec(c, es).ops) <==>
            AllWellFormed(c.cfg, Exec(c, es).log, |log0|) && ReplayFeed(Forwarded(mode, log0)) == ReplayFeed(log0)
  {
    ReplayAndRun(c, log0, es, y, es');
    var x := Exec(c, es);
    RecordedIsReplayIff(c.cfg, x.log, |log0|);
    RowsForwarded(mode, log0);
    FeedLength(log0);
    FeedLength(Forwarded(mode, log0));
    SplitEquality(ReplayFeed(log0), ReplayTail(x.log, |log0|), ReplayFeed(Forwarded(mode, log0)), LiveFed(x.ops));
  }
}
