/** The mutable connector: time advancement, entry handling and the poller loop, outside a connector group's deferral. */
module Connectors {
  import opened Wrappers
  import opened Backlog
  import opened ConnectorModel

  const MAX_EVENTS_BETWEEN_TWO_TIMELY_STEPS := 100_000

  datatype ControlFlow = Continue | Break

  /** The order in which the reading thread sends: the snapshot in the order of its times, the sentinel, real-time entries. */
  predicate LegalStream(writer: bool, backfilled: bool, time: nat, entries: seq<Entry>)
    decreases |entries|
  {
    entries == [] ||
    match entries[0]
    case Snapshot(event) =>
      && !backfilled && (event.AdvanceTime? ==> time <= Even(event.timestamp))
      && LegalStream(writer, backfilled, if event.AdvanceTime? then Even(event.timestamp) else time, entries[1..])
    case RewindFinish(_, needs, r) =>
      !backfilled && EvenReading(r) && (writer ==> needs) && LegalStream(writer, true, time, entries[1..])
    case Entries(b, g) =>
      backfilled && EvenBatch(b) && (g.Some? ==> EvenReading(g.value)) && LegalStream(writer, true, time, entries[1..])
    case FinishedSource(_, _, r) => backfilled && EvenReading(r) && LegalStream(writer, true, time, entries[1..])
    case _ => backfilled && LegalStream(writer, true, time, entries[1..])
  }

  /** Once real-time reading has begun the session time no longer matters. */
  lemma {:induction false} StreamAnyTime(writer: bool, time: nat, time': nat, entries: seq<Entry>)
    requires LegalStream(writer, true, time, entries)
    ensures LegalStream(writer, true, time', entries)
    decreases |entries|
  {
    if entries == [] {
    } else {
      StreamAnyTime(writer, time, time', entries[1..]);
    }
  }

  lemma StreamHead(c: Conn, entries: seq<Entry>)
    requires entries != [] && LegalStream(c.cfg.writer, c.backfilled, c.sessionTime, entries)
    ensures LegalEntry(c, entries[0])
    ensures LegalStream(c.cfg.writer, Handle(c, entries[0]).backfilled, Handle(c, entries[0]).sessionTime, entries[1..])
  {
    var e := entries[0];
    var c' := Handle(c, e);
    if e.Entries? { ProcessAllKeeps(c, Effective(c, e.batch, e.groupForces)); }
    if c'.backfilled { StreamAnyTime(c.cfg.writer, c.sessionTime, c'.sessionTime, entries[1..]); }
  }

  /** Every entry of the run was received while the backlog was below the limit or commits were forbidden. */
  ghost predicate WithinLimit(c: Conn, es: seq<Event>, limit: Option<nat>) {
    limit.Some? ==>
      forall k :: 0 <= k < |es| && es[k].Receive? ==>
        LegalRun(c, es[..k]) && (Exec(c, es[..k]).commitAllowed ==> Total(Exec(c, es[..k]).backlog) < limit.value)
  }

  lemma ExtendWithinLimit(c: Conn, es: seq<Event>, e: Event, limit: Option<nat>)
    requires LegalRun(c, es) && WithinLimit(c, es, limit)
    requires limit.Some? && e.Receive? && Exec(c, es).commitAllowed ==> Total(Exec(c, es).backlog) < limit.value
    ensures WithinLimit(c, es + [e], limit)
  {
    var es1 := es + [e];
    if limit.Some? {
      forall k | 0 <= k < |es1| && es1[k].Receive?
        ensures LegalRun(c, es1[..k]) && (Exec(c, es1[..k]).commitAllowed ==> Total(Exec(c, es1[..k]).backlog) < limit.value)
      {
        if k < |es| { assert es1[..k] == es[..k] && es[k].Receive?; } else { assert es1[..k] == es; }
      }
    }
  }

  /** What every poll begins with. */
  function Opening(timerDue: Option<Reading>, output: Frontier): seq<Event> {
    if timerDue.Some? then [Timer(timerDue.value), Probe(output)] else [Probe(output)]
  }

  /** Why a poll ended: it breaks off exactly at the end of the source, and otherwise goes on while there is something to do. */
  predicate Stopped(flow: ControlFlow, done: bool, disconnected: bool, entries: seq<Entry>, received: nat, events: seq<Event>)
    requires received <= |entries|
  {
    && (done ==> flow == Break)
    && (flow == Break ==> done || (disconnected && received == |entries|))
    && (flow == Continue ==>
          || (received == |entries| && !disconnected)
          || (events != [] && events[|events| - 1].Yield?)
          || received + 1 == MAX_EVENTS_BETWEEN_TWO_TIMELY_STEPS
          || (received > 0 && entries[received - 1].Snapshot? && entries[received - 1].event.AdvanceTime?))
  }

  ghost predicate Ran(c: Conn, x: Conn, events: seq<Event>) {
    LegalRun(c, events) && x == Exec(c, events)
  }

  /** A poll took the connector from `c` to `x` by the legal run `events`, which received `entries`. */
  ghost predicate Polled(c: Conn, x: Conn, events: seq<Event>, entries: seq<Entry>, limit: Option<nat>) {
    Ran(c, x, events) && Received(events) == entries && WithinLimit(c, events, limit)
  }

  lemma RanProbe(c: Conn, x: Conn, events: seq<Event>, output: Frontier)
    requires Ran(c, x, events) && !x.done && output.Some? && output.value <= x.sessionTime
    ensures Ran(c, x.(backlog := AdvanceWithProbe(x.backlog, output)), events + [Probe(output)])
  {
    ExtendRun(c, events, Probe(output));
  }

  lemma {:induction false} NothingReceived(es: seq<Event>)
    requires forall k :: 0 <= k < |es| ==> !es[k].Receive?
    ensures Received(es) == []
  {
    if es == [] {
    } else {
      NothingReceived(es[..|es| - 1]);
    }
  }

  lemma PolledStart(c: Conn, x: Conn, events: seq<Event>, limit: Option<nat>)
    requires Ran(c, x, events) && forall k :: 0 <= k < |events| ==> !events[k].Receive?
    ensures Polled(c, x, events, [], limit)
  {
    NothingReceived(events);
  }

  lemma ReceivedSnoc(es: seq<Event>, e: Event)
    ensures Received(es + [e]) == if e.Receive? then Received(es) + [e.entry] else Received(es)
  {
    assert (es + [e])[..|es|] == es;
  }

  lemma PolledStep(c: Conn, x: Conn, events: seq<Event>, e: Event, entries: seq<Entry>, limit: Option<nat>)
    requires Polled(c, x, events, entries, limit) && Legal(x, e)
    requires limit.Some? && e.Receive? && x.commitAllowed ==> Total(x.backlog) < limit.value
    ensures Polled(c, Step(x, e), events + [e], if e.Receive? then entries + [e.entry] else entries, limit)
  {
    ExtendRun(c, events, e);
    ExtendWithinLimit(c, events, e, limit);
    ReceivedSnoc(events, e);
  }

  lemma TimerKeeps(c: Conn, r: Reading)
    ensures var c' := Step(c, Timer(r));
            && c'.done == c.done && c'.backfilled == c.backfilled && (!c.backfilled ==> c' == c)
            && (c.sessionTime == c.current ==> c'.sessionTime >= c.sessionTime)
  {
    ProcessKeeps(c, Commit(r));
  }

  lemma PolledYield(c: Conn, x: Conn, events: seq<Event>, e: Event, entries: seq<Entry>, limit: Option<nat>)
    requires Polled(c, x, events, entries, limit) && Legal(x, e) && e.Yield?
    ensures Polled(c, Step(x, e), events + [e], entries, limit) && !Step(x, e).done
  {
    PolledStep(c, x, events, e, entries, limit);
    ProcessKeeps(x, Commit(e.reading));
  }

  lemma NotDone(c: Conn, e: Entry)
    requires !c.done && !(e.Finished? && Handle(c, e).backfilled)
    ensures !Handle(c, e).done
  {
    if e.Entries? { ProcessAllKeeps(c, Effective(c, e.batch, e.groupForces)); }
  }

  /** `parsed_entries.retain(...)` while the snapshot is still being replayed. */
  method RetainData(parsed: seq<Parsed>) returns (kept: seq<Parsed>)
    ensures kept == WithoutCommits(parsed)
    ensures forall p :: multiset(kept)[p] == if p.Commit? then 0 else multiset(parsed)[p]
  {
    kept := [];
    for k := 0 to |parsed|
      invariant kept == WithoutCommits(parsed[..k])
    {
      assert parsed[..k + 1][..k] == parsed[..k] && parsed[..k + 1][k] == parsed[k];
      if !parsed[k].Commit? { kept := kept + [parsed[k]]; }
    }
    assert parsed[..|parsed|] == parsed;
    forall p ensures multiset(kept)[p] == if p.Commit? then 0 else multiset(parsed)[p] {
      WithoutCommitsIs(parsed, p);
    }
  }

  class Connector {
    const cfg: Config
    const backlogTracker: BacklogTracker
    var currentTimestamp: nat
    var coordinateStartupBatch: bool
    var currentFrontier: Offsets
    // the poller's own variables
    var commitAllowed: bool
    var backfillingFinished: bool
    var done: bool
    // what it drives: the input session and the snapshot writer
    var sessionTime: nat
    var sessionOps: seq<Op>
    var snapshotLog: seq<SnapshotEvent>
    ghost var rewound: seq<SnapshotEvent>
    ghost var restored: Offsets
    ghost var batches: seq<Batch>

    ghost function State(): Conn
      reads this, backlogTracker
    {
      Conn(cfg, currentTimestamp, sessionTime, coordinateStartupBatch, currentFrontier, backlogTracker.backlog,
           commitAllowed, backfillingFinished, done, snapshotLog, sessionOps, rewound, restored, batches)
    }

    ghost predicate Valid()
      reads this, backlogTracker
    {
      backlogTracker.Valid() && sessionTime == currentTimestamp
    }

    constructor (cfg: Config, parallelReaders: nat, log: seq<SnapshotEvent>)
      requires cfg.atStart % 2 == 0
      ensures Valid() && Init(State(), log) && State().cfg == cfg && State().coordinate == (parallelReaders > 1)
      ensures fresh(backlogTracker)
    {
      this.cfg := cfg;
      backlogTracker := new BacklogTracker();
      currentTimestamp, sessionTime, coordinateStartupBatch, currentFrontier := 0, 0, parallelReaders > 1, map[];
      commitAllowed, backfillingFinished, done := true, false, false;
      sessionOps, snapshotLog := [], log;
      rewound, restored, batches := [], map[], [];
    }

    /** `advance_time_to`; the session's own assertion that time does not go back is checked here. */
    method AdvanceTo(newTimestamp: nat, forced: Option<nat>) returns (t: nat)
      requires Valid()
      modifies this`currentTimestamp, this`sessionTime, this`sessionOps
      ensures Valid() && State() == AdvanceTimeTo(old(State()), newTimestamp, forced) && t == currentTimestamp
    {
      var oldTimestamp := currentTimestamp;
      var lastWithData := backlogTracker.LastTimestampWithData();
      if currentTimestamp < newTimestamp {
        currentTimestamp := newTimestamp;
      } else if lastWithData == Some(currentTimestamp) {
        currentTimestamp := currentTimestamp + 2;
      }
      if forced.Some? && forced.value > oldTimestamp { currentTimestamp := forced.value; }
      assert oldTimestamp <= currentTimestamp;
      assert sessionTime <= currentTimestamp;
      sessionTime := currentTimestamp;
      sessionOps := sessionOps + [Advance(currentTimestamp)];
      t := currentTimestamp;
    }

    method WriteSnapshot(e: SnapshotEvent)
      requires Valid()
      modifies this`snapshotLog
      ensures Valid() && State() == Logged(old(State()), e)
    {
      if cfg.writer { snapshotLog := snapshotLog + [e]; }
    }

    /** The body of the loop of `on_parsed_data`. */
    method OnParsedEntry(entry: Parsed)
      requires Valid()
      modifies this, backlogTracker
      ensures Valid() && State() == Process(old(State()), entry)
    {
      match entry {
        case Unparsable =>
        case Commit(r) =>
          var timeAdvanced := AdvanceTo(r.clock, r.forced);
          WriteSnapshot(AdvanceTime(timeAdvanced, currentFrontier));
        case Data(row) =>
          WriteSnapshot(Put(row));
          if |row.values| != cfg.numColumns && (row.kind == Insert || cfg.native) { return; }
          sessionOps := sessionOps + [Feed(row, sessionTime, true)];
          backlogTracker.OnEventAt(currentTimestamp);
      }
    }

    /** `on_parsed_data`. */
    method OnParsedData(parsed: seq<Parsed>)
      requires Valid()
      modifies this, backlogTracker
      ensures Valid() && State() == ProcessAll(old(State()), parsed)
    {
      for k := 0 to |parsed|
        invariant Valid() && State() == ProcessAll(old(State()), parsed[..k])
      {
        assert parsed[..k + 1][..k] == parsed[..k] && parsed[..k + 1][k] == parsed[k];
        OnParsedEntry(parsed[k]);
      }
      assert parsed[..|parsed|] == parsed;
    }

    method OnSnapshot(event: SnapshotEvent)
      requires Valid() && LegalEntry(State(), Snapshot(event))
      modifies this
      ensures Valid() && State() == Handle(old(State()), Snapshot(event))
    {
      rewound := rewound + [event];
      match event {
        case Put(row) => sessionOps := sessionOps + [Feed(row, sessionTime, false)];
        case AdvanceTime(t, _) =>
          currentTimestamp := Even(t);
          assert sessionTime <= currentTimestamp;
          sessionTime := currentTimestamp;
          sessionOps := sessionOps + [Advance(currentTimestamp)];
      }
    }

    method OnRewindFinish(restoredFrontier: Offsets, needsTimeAdvancement: bool, r: Reading)
      requires Valid() && LegalEntry(State(), RewindFinish(restoredFrontier, needsTimeAdvancement, r))
      modifies this
      ensures Valid() && State() == Handle(old(State()), RewindFinish(restoredFrontier, needsTimeAdvancement, r))
    {
      backfillingFinished := true;
      currentFrontier, restored := restoredFrontier, restoredFrontier;
      if needsTimeAdvancement {
        coordinateStartupBatch := true;
        var timeAdvanced := AdvanceTo(cfg.atStart, r.forced);
        WriteSnapshot(AdvanceTime(timeAdvanced, currentFrontier));
      }
    }

    method OnFinishedSource(possibility: CommitPossibility, clock: nat, r: Reading)
      requires Valid()
      modifies this, backlogTracker
      ensures Valid() && State() == Handle(old(State()), FinishedSource(possibility, clock, r))
    {
      commitAllowed := !possibility.Forbidden?;
      var inStartupBatch := coordinateStartupBatch && currentTimestamp <= cfg.atStart && cfg.timer;
      var commitNeeded := possibility.Forced? || (!inStartupBatch && clock > currentTimestamp);
      if commitAllowed && commitNeeded { OnParsedEntry(Commit(r)); }
    }

    method HandleEntriesOf(batch: Batch, groupForces: Option<Reading>)
      requires Valid() && (cfg.writer ==> backfillingFinished)
      modifies this, backlogTracker
      ensures Valid() && State() == HandleEntries(old(State()), batch, groupForces)
    {
      var parsed := batch.parsed;
      if !backfillingFinished { parsed := RetainData(parsed); }
      if groupForces.Some? { parsed := [Commit(groupForces.value)] + parsed; }
      OnParsedData(parsed);
      batches := batches + [batch.(parsed := parsed)];
      if cfg.writer { currentFrontier := currentFrontier[batch.offsetKey := batch.offsetValue]; }
    }

    /** `handle_input_entry`, with the two entries the poller treats itself. */
    method HandleInputEntry(entry: Entry)
      requires Valid() && LegalEntry(State(), entry)
      modifies this, backlogTracker
      ensures Valid() && State() == Handle(old(State()), entry)
    {
      match entry {
        case Snapshot(event) => OnSnapshot(event);
        case RewindFinish(restoredFrontier, needsTimeAdvancement, r) => OnRewindFinish(restoredFrontier, needsTimeAdvancement, r);
        case Entries(batch, groupForces) => HandleEntriesOf(batch, groupForces);
        case NewSource(allowedInBetween) => commitAllowed := commitAllowed && allowedInBetween;
        case FinishedSource(possibility, clock, r) => OnFinishedSource(possibility, clock, r);
        case Finished =>
          WriteSnapshot(AdvanceTime(currentTimestamp + 2, currentFrontier));
          done := backfillingFinished;
        case ParsingError =>
      }
    }

    /** The auto-commit, when its time has come. */
    method OnTimer(r: Reading, ghost c: Conn)
      requires Valid() && !done && EvenReading(r) && c == State()
      modifies this, backlogTracker
      ensures Valid() && !done && backfillingFinished == old(backfillingFinished) && sessionTime >= old(sessionTime)
      ensures !backfillingFinished ==> sessionTime == old(sessionTime)
      ensures Ran(c, State(), [] + [Timer(r)])
    {
      ExtendRun(c, [], Timer(r));
      TimerKeeps(c, r);
      if backfillingFinished && commitAllowed { OnParsedEntry(Commit(r)); }
    }

    /** The start of a poll: the auto-commit and the probe of the backlog. */
    method BeginPoll(timerDue: Option<Reading>, output: Frontier) returns (ghost events: seq<Event>)
      requires Valid() && !done && output.Some? && output.value <= sessionTime
      requires timerDue.Some? ==> EvenReading(timerDue.value)
      modifies this, backlogTracker
      ensures Valid() && !done && backfillingFinished == old(backfillingFinished)
      ensures !backfillingFinished ==> sessionTime == old(sessionTime)
      ensures Ran(old(State()), State(), events) && events == Opening(timerDue, output)
    {
      ghost var c := State();
      events := [];
      if timerDue.Some? {
        OnTimer(timerDue.value, c);
        events := [] + [Timer(timerDue.value)];
      }
      RanProbe(c, State(), events, output);
      events := events + [Probe(output)];
      backlogTracker.Advance(output);
    }

    /** The backlog check of the poller loop: when it is full, close the minibatch and pass control on. */
    method YieldIfFull(maxBacklogSize: Option<nat>, r: Reading, ghost c: Conn, ghost events: seq<Event>, ghost before: seq<Entry>)
      returns (full: bool)
      requires Valid() && !done && EvenReading(r) && Polled(c, State(), events, before, maxBacklogSize)
      modifies this, backlogTracker
      ensures Valid() && !done
      ensures full <==> maxBacklogSize.Some? && old(commitAllowed) && Total(old(backlogTracker.backlog)) >= maxBacklogSize.value
      ensures full ==> Polled(c, State(), events + [Yield(maxBacklogSize.value, r)], before, maxBacklogSize)
      ensures !full ==> State() == old(State())
    {
      full := maxBacklogSize.Some? && backlogTracker.totalInFly >= maxBacklogSize.value && commitAllowed;
      if full {
        PolledYield(c, State(), events, Yield(maxBacklogSize.value, r), before, maxBacklogSize);
        var lastWithData := backlogTracker.LastTimestampWithData();
        if lastWithData == Some(currentTimestamp) { OnParsedEntry(Commit(r)); }
      }
    }

    /** Handles one entry while there is room in the backlog. */
    method ReceiveNext(entry: Entry, ghost c: Conn, ghost events: seq<Event>, ghost before: seq<Entry>, ghost rest: seq<Entry>,
                       ghost limit: Option<nat>)
      requires Valid() && !done && Polled(c, State(), events, before, limit)
      requires LegalStream(cfg.writer, backfillingFinished, sessionTime, [entry] + rest)
      requires limit.Some? && commitAllowed ==> Total(backlogTracker.backlog) < limit.value
      modifies this, backlogTracker
      ensures Valid() && Polled(c, State(), events + [Receive(entry)], before + [entry], limit)
      ensures !(entry.Finished? && backfillingFinished) ==>
                !done && LegalStream(cfg.writer, backfillingFinished, sessionTime, rest)
    {
      ghost var x := State();
      assert ([entry] + rest)[0] == entry && ([entry] + rest)[1..] == rest;
      StreamHead(x, [entry] + rest);
      PolledStep(c, x, events, Receive(entry), before, limit);
      HandleInputEntry(entry);
      if !(entry.Finished? && backfillingFinished) { NotDone(x, entry); }
    }

    /** The body of the loop of the poller; `received` entries were handled by this poll so far. */
    method ReceiveOrStop(entries: seq<Entry>, received: nat, disconnected: bool, maxBacklogSize: Option<nat>, yieldReading: Reading,
                         ghost c: Conn, ghost events: seq<Event>)
      returns (stop: bool, flow: ControlFlow, received': nat, ghost events': seq<Event>)
      requires received <= |entries| && Valid() && !done && EvenReading(yieldReading)
      requires Polled(c, State(), events, entries[..received], maxBacklogSize)
      requires LegalStream(cfg.writer, backfillingFinished, sessionTime, entries[received..])
      modifies this, backlogTracker
      ensures received' <= |entries| && Valid() && events <= events'
      ensures Polled(c, State(), events', entries[..received'], maxBacklogSize)
      ensures !stop ==> received' == received + 1 && !done
      ensures !stop ==> LegalStream(cfg.writer, backfillingFinished, sessionTime, entries[received'..])
      ensures stop ==> Stopped(flow, done, disconnected, entries, received', events')
    {
      stop, flow, received', events' := true, Continue, received, events;
      var full := YieldIfFull(maxBacklogSize, yieldReading, c, events, entries[..received]);
      if full {
        events' := events + [Yield(maxBacklogSize.value, yieldReading)];
        return;
      }
      if received + 1 == MAX_EVENTS_BETWEEN_TWO_TIMELY_STEPS { return; }
      if received == |entries| {
        if disconnected { flow := Break; }
        return;
      }
      var entry := entries[received];
      assert entries[received..] == [entry] + entries[received + 1..];
      assert entries[..received] + [entry] == entries[..received + 1];
      ReceiveNext(entry, c, events, entries[..received], entries[received + 1..], maxBacklogSize);
      events', received' := events + [Receive(entry)], received + 1;
      if entry.Finished? && backfillingFinished {
        flow := Break;
      } else {
        stop := entry.Snapshot? && entry.event.AdvanceTime?;
      }
    }

    /** The loop of the poller. */
    method ReceiveEntries(entries: seq<Entry>, disconnected: bool, maxBacklogSize: Option<nat>, yieldReading: Reading,
                          ghost c: Conn, ghost opening: seq<Event>)
      returns (flow: ControlFlow, received: nat, ghost events: seq<Event>)
      requires Valid() && !done && LegalStream(cfg.writer, backfillingFinished, sessionTime, entries)
      requires Polled(c, State(), opening, [], maxBacklogSize) && EvenReading(yieldReading)
      modifies this, backlogTracker
      ensures Valid() && received <= |entries|
      ensures Polled(c, State(), events, entries[..received], maxBacklogSize) && opening <= events
      ensures Stopped(flow, done, disconnected, entries, received, events)
    {
      flow, received, events := Continue, 0, opening;
      assert entries[0..] == entries && entries[..0] == [];
      var stop := false;
      while !stop
        invariant received <= |entries| && Valid() && opening <= events
        invariant Polled(c, State(), events, entries[..received], maxBacklogSize)
        invariant !stop ==> !done && LegalStream(cfg.writer, backfillingFinished, sessionTime, entries[received..])
        invariant stop ==> Stopped(flow, done, disconnected, entries, received, events)
        decreases !stop, |entries| - received
      {
        stop, flow, received, events := ReceiveOrStop(entries, received, disconnected, maxBacklogSize, yieldReading, c, events);
      }
    }

    /** One call of the poller.  `entries` is what the channel delivers, then it is empty or `disconnected`. */
    method Poll(entries: seq<Entry>, disconnected: bool, timerDue: Option<Reading>, output: Frontier,
                maxBacklogSize: Option<nat>, yieldReading: Reading)
      returns (flow: ControlFlow, received: nat, ghost events: seq<Event>)
      requires Valid() && !done && LegalStream(cfg.writer, backfillingFinished, sessionTime, entries)
      requires output.Some? && output.value <= sessionTime
      requires EvenReading(yieldReading) && (timerDue.Some? ==> EvenReading(timerDue.value))
      modifies this, backlogTracker
      ensures Valid() && received <= |entries|
      ensures Polled(old(State()), State(), events, entries[..received], maxBacklogSize)
      ensures Opening(timerDue, output) <= events
      ensures Stopped(flow, done, disconnected, entries, received, events)
    {
      ghost var c := State();
      ghost var opening := BeginPoll(timerDue, output);
      if backfillingFinished { StreamAnyTime(cfg.writer, c.sessionTime, sessionTime, entries); }
      PolledStart(c, State(), opening, maxBacklogSize);
      flow, received, events := ReceiveEntries(entries, disconnected, maxBacklogSize, yieldReading, c, opening);
    }
  }
}
