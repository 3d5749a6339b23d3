/**
 A connector between a reader thread and the engine, as a transition system.

 The poller receives entries from the reader, feeds rows to the input session at
 the session's time, decides when time advances, logs rows and time advancements
 to the snapshot and watches the backlog.  Everything it reads from outside (the
 clock, the timestamp forced by a connector group, the output frontier) is part of
 the event that reads it.
 */
module ConnectorModel {
  import opened Wrappers
  import opened Backlog

  type Key = nat
  type Value = int
  type Offsets = map<nat, nat>

  datatype Kind = Insert | Delete
  datatype Row = Row(kind: Kind, key: Key, values: seq<Value>)

  datatype SnapshotEvent = Put(row: Row) | AdvanceTime(timestamp: nat, frontier: Offsets)

  /** What one time advancement reads: the wall clock, and the group's forced timestamp for this worker. */
  datatype Reading = Reading(clock: nat, forced: Option<nat>)

  /** A parsed entry; `Unparsable` is one whose errors make it be skipped. */
  datatype Parsed = Data(row: Row) | Commit(reading: Reading) | Unparsable

  datatype CommitPossibility = Forbidden | Possible | Forced

  /** The entries parsed from one read, with the offset of that read. */
  datatype Batch = Batch(parsed: seq<Parsed>, offsetKey: nat, offsetValue: nat)

  datatype Entry =
    | Snapshot(event: SnapshotEvent)
    | RewindFinish(restored: Offsets, needsTimeAdvancement: bool, reading: Reading)
    | Entries(batch: Batch, groupForces: Option<Reading>)
    | NewSource(commitsAllowedInBetween: bool)
    | FinishedSource(possibility: CommitPossibility, clock: nat, reading: Reading)
    | Finished
    | ParsingError

  /** What the input session is told; `live` marks rows read in real time. */
  datatype Op = Feed(row: Row, time: nat, live: bool) | Advance(time: nat)

  datatype Config = Config(numColumns: nat, native: bool, writer: bool, timer: bool, atStart: nat)

  datatype Conn = Conn(
    cfg: Config,
    current: nat,
    sessionTime: nat,
    coordinate: bool,
    frontier: Offsets,
    backlog: seq<BacklogEntry>,
    commitAllowed: bool,
    backfilled: bool,
    done: bool,
    log: seq<SnapshotEvent>,
    ops: seq<Op>,
    // history, for stating theorems
    rewound: seq<SnapshotEvent>,
    restored: Offsets,
    batches: seq<Batch>)

  // ----- time

  function Even(t: nat): nat {
    (t / 2) * 2
  }

  predicate MinibatchHasData(c: Conn) {
    LastTimestamp(c.backlog) == Some(c.current)
  }

  /** The timestamp `advance_time_to` moves to. */
  function NextTime(c: Conn, target: nat, forced: Option<nat>): nat {
    if forced.Some? && forced.value > c.current then forced.value
    else if c.current < target then target
    else if MinibatchHasData(c) then c.current + 2
    else c.current
  }

  /** `advance_time_to`. */
  function AdvanceTimeTo(c: Conn, target: nat, forced: Option<nat>): Conn {
    var t := NextTime(c, target, forced);
    c.(current := t, sessionTime := t, ops := c.ops + [Advance(t)])
  }

  function Logged(c: Conn, e: SnapshotEvent): Conn {
    if c.cfg.writer then c.(log := c.log + [e]) else c
  }

  // ----- entries

  predicate WellFormed(cfg: Config, row: Row) {
    |row.values| == cfg.numColumns || (row.kind == Delete && !cfg.native)
  }

  /** The rows of a list of entries that have the declared number of columns. */
  function WellFormedRows(cfg: Config, ps: seq<Parsed>): seq<Row> {
    if ps == [] then []
    else
      var rest := WellFormedRows(cfg, ps[..|ps| - 1]);
      var p := ps[|ps| - 1];
      if p.Data? && WellFormed(cfg, p.row) then rest + [p.row] else rest
  }

  /** One iteration of `on_parsed_data`. */
  function Process(c: Conn, p: Parsed): Conn {
    match p
    case Unparsable => c
    case Commit(r) =>
      var c1 := AdvanceTimeTo(c, r.clock, r.forced);
      Logged(c1, AdvanceTime(c1.current, c1.frontier))
    case Data(row) =>
      var c1 := Logged(c, Put(row));
      if !WellFormed(c.cfg, row) then c1
      else c1.(ops := c1.ops + [Feed(row, c1.sessionTime, true)], backlog := OnEvent(c1.backlog, c1.current))
  }

  /** `on_parsed_data`. */
  function ProcessAll(c: Conn, ps: seq<Parsed>): Conn {
    if ps == [] then c else Process(ProcessAll(c, ps[..|ps| - 1]), ps[|ps| - 1])
  }

  /** What processing entries leaves alone. */
  predicate Keeps(c: Conn, c': Conn) {
    && c' == c.(current := c'.current, sessionTime := c'.sessionTime, backlog := c'.backlog, log := c'.log, ops := c'.ops)
    && c.current <= c'.current
  }

  lemma LoggedKeeps(c: Conn, e: SnapshotEvent)
    ensures Logged(c, e) == c.(log := Logged(c, e).log) && c.log <= Logged(c, e).log
  {
  }

  lemma ProcessKeeps(c: Conn, p: Parsed)
    ensures Keeps(c, Process(c, p))
  {
    match p
    case Unparsable =>
    case Commit(r) =>
      assert c.current <= NextTime(c, r.clock, r.forced);
      LoggedKeeps(AdvanceTimeTo(c, r.clock, r.forced), AdvanceTime(NextTime(c, r.clock, r.forced), c.frontier));
    case Data(row) =>
      LoggedKeeps(c, Put(row));
  }

  lemma {:induction false} ProcessAllKeeps(c: Conn, ps: seq<Parsed>)
    ensures Keeps(c, ProcessAll(c, ps))
  {
    if ps == [] {
    } else {
      ProcessAllKeeps(c, ps[..|ps| - 1]);
      ProcessKeeps(ProcessAll(c, ps[..|ps| - 1]), ps[|ps| - 1]);
    }
  }

  function WithoutCommits(ps: seq<Parsed>): seq<Parsed> {
    if ps == [] then []
    else
      var rest := WithoutCommits(ps[..|ps| - 1]);
      if ps[|ps| - 1].Commit? then rest else rest + [ps[|ps| - 1]]
  }

  /** Exactly the time advancements are dropped. */
  lemma {:induction false} WithoutCommitsIs(ps: seq<Parsed>, p: Parsed)
    ensures multiset(WithoutCommits(ps))[p] == if p.Commit? then 0 else multiset(ps)[p]
  {
    if ps == [] {
    } else {
      WithoutCommitsIs(ps[..|ps| - 1], p);
      assert ps == ps[..|ps| - 1] + [ps[|ps| - 1]];
    }
  }

  /** The entries of a batch as they are processed. */
  function Effective(c: Conn, b: Batch, groupForces: Option<Reading>): seq<Parsed> {
    var ps := if c.backfilled then b.parsed else WithoutCommits(b.parsed);
    if groupForces.Some? then [Commit(groupForces.value)] + ps else ps
  }

  function HandleEntries(c: Conn, b: Batch, groupForces: Option<Reading>): Conn {
    var ps := Effective(c, b, groupForces);
    var c1 := ProcessAll(c, ps);
    c1.(frontier := if c.cfg.writer then c1.frontier[b.offsetKey := b.offsetValue] else c1.frontier,
        batches := c1.batches + [b.(parsed := ps)])
  }

  /** `handle_input_entry`, and the two entries the poller handles itself. */
  function Handle(c: Conn, e: Entry): Conn {
    match e
    case Snapshot(event) =>
      var c1 := c.(rewound := c.rewound + [event]);
      if event.Put? then c1.(ops := c.ops + [Feed(event.row, c.sessionTime, false)])
      else c1.(current := Even(event.timestamp), sessionTime := Even(event.timestamp), ops := c.ops + [Advance(Even(event.timestamp))])
    case RewindFinish(restored, needs, r) =>
      var c1 := c.(backfilled := true, frontier := restored, restored := restored);
      if !needs then c1
      else
        var c2 := AdvanceTimeTo(c1.(coordinate := true), c1.cfg.atStart, r.forced);
        Logged(c2, AdvanceTime(c2.current, c2.frontier))
    case Entries(b, groupForces) => HandleEntries(c, b, groupForces)
    case NewSource(allowed) => c.(commitAllowed := c.commitAllowed && allowed)
    case FinishedSource(possibility, clock, r) =>
      var c1 := c.(commitAllowed := !possibility.Forbidden?);
      var inStartup := c.coordinate && c.current <= c.cfg.atStart && c.cfg.timer;
      if c1.commitAllowed && (possibility.Forced? || (!inStartup && clock > c.current))
      then Process(c1, Commit(r)) else c1
    case Finished =>
      var c1 := Logged(c, AdvanceTime(c.current + 2, c.frontier));
      c1.(done := c.backfilled)
    case ParsingError => c
  }

  // ----- the poller

  datatype Event =
    | Timer(reading: Reading)                 // the auto-commit interval has elapsed
    | Probe(output: Frontier)                 // the backlog is compared with the output frontier
    | Yield(limit: nat, reading: Reading)     // the backlog is full and control is passed on
    | Receive(entry: Entry)

  function Step(c: Conn, e: Event): Conn {
    match e
    case Timer(r) => if c.backfilled && c.commitAllowed then Process(c, Commit(r)) else c
    case Probe(f) => c.(backlog := AdvanceWithProbe(c.backlog, f))
    case Yield(_, r) => if MinibatchHasData(c) then Process(c, Commit(r)) else c
    case Receive(entry) => Handle(c, entry)
  }

  // ----- legal runs

  /** Clock readings are even by construction; a forced timestamp was some connector's own time. */
  predicate EvenReading(r: Reading) {
    r.clock % 2 == 0 && (r.forced.Some? ==> r.forced.value % 2 == 0)
  }

  predicate EvenBatch(b: Batch) {
    forall k :: 0 <= k < |b.parsed| && b.parsed[k].Commit? ==> EvenReading(b.parsed[k].reading)
  }

  /** The reader sends the snapshot, then the sentinel, then real-time entries, and replays times in order. */
  predicate LegalEntry(c: Conn, e: Entry) {
    match e
    case Snapshot(event) => !c.backfilled && (event.AdvanceTime? ==> c.sessionTime <= Even(event.timestamp))
    case RewindFinish(_, needs, r) => !c.backfilled && EvenReading(r) && (c.cfg.writer ==> needs)
    case Entries(b, g) => c.backfilled && EvenBatch(b) && (g.Some? ==> EvenReading(g.value))
    case FinishedSource(_, _, r) => c.backfilled && EvenReading(r)
    case _ => c.backfilled
  }

  predicate Legal(c: Conn, e: Event) {
    && !c.done
    && match e
       case Timer(r) => EvenReading(r)
       case Probe(f) => f.Some? && f.value <= c.sessionTime
       case Yield(limit, r) => EvenReading(r) && c.commitAllowed && Total(c.backlog) >= limit
       case Receive(entry) => LegalEntry(c, entry)
  }

  predicate LegalRun(c: Conn, es: seq<Event>)
    decreases |es|, 0
  {
    es == [] || (LegalRun(c, es[..|es| - 1]) && Legal(Exec(c, es[..|es| - 1]), es[|es| - 1]))
  }

  function Exec(c: Conn, es: seq<Event>): Conn
    requires LegalRun(c, es)
    decreases |es|, 1
  {
    if es == [] then c else Step(Exec(c, es[..|es| - 1]), es[|es| - 1])
  }

  lemma ExtendRun(c: Conn, es: seq<Event>, e: Event)
    requires LegalRun(c, es) && Legal(Exec(c, es), e)
    ensures LegalRun(c, es + [e]) && Exec(c, es + [e]) == Step(Exec(c, es), e)
  {
    assert (es + [e])[..|es|] == es;
  }

  /** The entries received during a run, in order. */
  function Received(es: seq<Event>): seq<Entry> {
    if es == [] then []
    else if es[|es| - 1].Receive? then Received(es[..|es| - 1]) + [es[|es| - 1].entry]
    else Received(es[..|es| - 1])
  }

  /** A connector that has just been built, over the snapshot `log` of earlier runs. */
  predicate Init(c: Conn, log: seq<SnapshotEvent>) {
    && c.cfg.atStart % 2 == 0
    && c.current == 0 && c.sessionTime == 0 && c.frontier == map[] && c.backlog == []
    && c.commitAllowed && !c.backfilled && !c.done
    && c.log == log && c.ops == [] && c.rewound == [] && c.batches == []
  }
}
