/** From the reader to the engine: replacing an object happens at a single timestamp. */
module AtomicUpdates {
  import opened Wrappers
  import opened Tokenizer
  import opened ConnectorModel
  import R = PosixReader
  import P = PosixUpdates

  // ----- the connector while commits are forbidden

  predicate NoCommits(b: Batch) {
    forall k :: 0 <= k < |b.parsed| ==> !b.parsed[k].Commit?
  }

  /** Everything that can happen around an object being replaced: timers, probes, full backlogs and the object's own entries. */
  predicate Calm(e: Event) {
    e.Receive? ==>
      match e.entry
      case Entries(b, g) => g.None? && NoCommits(b)
      case FinishedSource(possibility, _, _) => possibility.Forbidden?
      case RewindFinish(_, _, _) => false
      case Snapshot(_) => false
      case _ => true
  }

  /** The rows that a run's batches feed. */
  function RunRows(cfg: Config, es: seq<Event>): seq<Row> {
    if es == [] then []
    else
      var rest := RunRows(cfg, es[..|es| - 1]);
      var e := es[|es| - 1];
      if e.Receive? && e.entry.Entries? then rest + WellFormedRows(cfg, e.entry.batch.parsed) else rest
  }

  /** From `c` to `c1` only `rows` were fed, all at time `t`, and time stood still. */
  ghost predicate FedAt(c: Conn, c1: Conn, rows: seq<Row>, t: nat) {
    && c1.current == c.current && c1.sessionTime == c.sessionTime && c1.cfg == c.cfg && c1.backfilled == c.backfilled
    && |c1.ops| == |c.ops| + |rows| && c.ops <= c1.ops
    && forall i :: 0 <= i < |rows| ==> c1.ops[|c.ops| + i] == Feed(rows[i], t, true)
  }

  lemma FedAtTrans(c: Conn, c1: Conn, c2: Conn, rows1: seq<Row>, rows2: seq<Row>, t: nat)
    requires FedAt(c, c1, rows1, t) && FedAt(c1, c2, rows2, t)
    ensures FedAt(c, c2, rows1 + rows2, t)
  {
    forall i | 0 <= i < |rows1 + rows2| ensures c2.ops[|c.ops| + i] == Feed((rows1 + rows2)[i], t, true) {
      if i < |rows1| {
        assert c2.ops[|c.ops| + i] == c1.ops[|c.ops| + i];
      } else {
        assert c2.ops[|c1.ops| + (i - |rows1|)] == Feed(rows2[i - |rows1|], t, true);
      }
    }
  }

  lemma RowFedAt(c: Conn, p: Parsed)
    requires !p.Commit?
    ensures FedAt(c, Process(c, p), if p.Data? && WellFormed(c.cfg, p.row) then [p.row] else [], c.sessionTime)
    ensures Process(c, p).commitAllowed == c.commitAllowed
  {
  }

  lemma {:induction false} BatchFedAt(c: Conn, ps: seq<Parsed>)
    requires forall k :: 0 <= k < |ps| ==> !ps[k].Commit?
    ensures FedAt(c, ProcessAll(c, ps), WellFormedRows(c.cfg, ps), c.sessionTime)
    ensures ProcessAll(c, ps).commitAllowed == c.commitAllowed
  {
    if ps == [] {
    } else {
      BatchFedAt(c, ps[..|ps| - 1]);
      RowFedAt(ProcessAll(c, ps[..|ps| - 1]), ps[|ps| - 1]);
      FedAtTrans(c, ProcessAll(c, ps[..|ps| - 1]), ProcessAll(c, ps), WellFormedRows(c.cfg, ps[..|ps| - 1]),
                 if ps[|ps| - 1].Data? && WellFormed(c.cfg, ps[|ps| - 1].row) then [ps[|ps| - 1].row] else [], c.sessionTime);
      assert WellFormedRows(c.cfg, ps[..|ps| - 1]) + [] == WellFormedRows(c.cfg, ps[..|ps| - 1]);
    }
  }

  lemma StepFedAt(c: Conn, e: Event)
    requires Legal(c, e) && Calm(e) && c.backfilled && !c.commitAllowed
    ensures !Step(c, e).commitAllowed
    ensures FedAt(c, Step(c, e), if e.Receive? && e.entry.Entries? then WellFormedRows(c.cfg, e.entry.batch.parsed) else [], c.sessionTime)
  {
    if e.Receive? && e.entry.Entries? { BatchFedAt(c, e.entry.batch.parsed); }
  }

  /** While commits are forbidden no timer, backlog or completion moves time: all rows get one timestamp. */
  lemma {:induction false} ForbiddenCommitsFreezeTime(c: Conn, es: seq<Event>)
    requires LegalRun(c, es) && c.backfilled && !c.commitAllowed && forall k :: 0 <= k < |es| ==> Calm(es[k])
    ensures !Exec(c, es).commitAllowed && FedAt(c, Exec(c, es), RunRows(c.cfg, es), c.sessionTime)
    decreases |es|
  {
    if es == [] {
    } else {
      var n := |es| - 1;
      ForbiddenCommitsFreezeTime(c, es[..n]);
      var x := Exec(c, es[..n]);
      StepFedAt(x, es[n]);
      var more := if es[n].Receive? && es[n].entry.Entries? then WellFormedRows(c.cfg, es[n].entry.batch.parsed) else [];
      FedAtTrans(c, x, Step(x, es[n]), RunRows(c.cfg, es[..n]), more, c.sessionTime);
      assert RunRows(c.cfg, es[..n]) + [] == RunRows(c.cfg, es[..n]);
    }
  }

  // ----- the reader's results as the connector's entries

  /** The parser of a source: rows for an entry of an object, or None for a parsing error. */
  type Parser = (R.EventType, Token) -> Option<seq<Row>>

  function AsParsed(rows: seq<Row>): (ps: seq<Parsed>)
    ensures |ps| == |rows| && forall i :: 0 <= i < |rows| ==> ps[i] == Parsed.Data(rows[i])
  {
    seq(|rows|, i requires 0 <= i < |rows| => Parsed.Data(rows[i]))
  }

  /** `entry` is what the reading thread sends for `result`, outside a connector group. */
  predicate Carries(parse: Parser, result: R.ReadResult, entry: Entry) {
    match result
    case NewSource(_) => entry == NewSource(false)
    case FinishedSource(p) => entry.FinishedSource? && (entry.possibility == if p.Forbidden? then Forbidden else Possible)
    case Data(event, _, token, total) =>
      match parse(event, token)
      case None => entry == ParsingError
      case Some(rows) => entry.Entries? && entry.groupForces.None? && entry.batch.parsed == AsParsed(rows)
                         && entry.batch.offsetValue == total
  }

  ghost predicate CarriesAll(parse: Parser, results: seq<R.ReadResult>, entries: seq<Entry>) {
    |entries| == |results| && forall k :: 0 <= k < |results| ==> Carries(parse, results[k], entries[k])
  }

  /** The rows the parser makes of `ts`, as far as they have the right shape. */
  function ParsedRows(cfg: Config, parse: Parser, event: R.EventType, ts: seq<Token>): seq<Row> {
    if ts == [] then []
    else
      var rest := ParsedRows(cfg, parse, event, ts[..|ts| - 1]);
      match parse(event, ts[|ts| - 1])
      case None => rest
      case Some(rows) => rest + WellFormedRows(cfg, AsParsed(rows))
  }

  /** The rows of a list of reader results. */
  function ResultRows(cfg: Config, parse: Parser, results: seq<R.ReadResult>): seq<Row> {
    if results == [] then []
    else
      var rest := ResultRows(cfg, parse, results[..|results| - 1]);
      var e := results[|results| - 1];
      if !e.Data? then rest
      else match parse(e.event, e.token)
           case None => rest
           case Some(rows) => rest + WellFormedRows(cfg, AsParsed(rows))
  }

  lemma {:induction false} RunRowsAreResultRows(cfg: Config, parse: Parser, es: seq<Event>, results: seq<R.ReadResult>)
    requires CarriesAll(parse, results, Received(es))
    ensures RunRows(cfg, es) == ResultRows(cfg, parse, results)
    decreases |es|
  {
    if es == [] {
    } else {
      var n := |es| - 1;
      if es[n].Receive? {
        var m := |results| - 1;
        assert Received(es)[..m] == Received(es[..n]);
        assert CarriesAll(parse, results[..m], Received(es[..n])) by {
          forall k | 0 <= k < m ensures Carries(parse, results[..m][k], Received(es[..n])[k]) {
            assert Carries(parse, results[k], Received(es)[k]);
          }
        }
        RunRowsAreResultRows(cfg, parse, es[..n], results[..m]);
        assert Carries(parse, results[m], Received(es)[m]);
      } else {
        RunRowsAreResultRows(cfg, parse, es[..n], results);
      }
    }
  }

  lemma {:induction false} ResultRowsConcat(cfg: Config, parse: Parser, a: seq<R.ReadResult>, b: seq<R.ReadResult>)
    ensures ResultRows(cfg, parse, a + b) == ResultRows(cfg, parse, a) + ResultRows(cfg, parse, b)
    decreases |b|
  {
    if b == [] {
      assert a + b == a;
    } else {
      var n := |b| - 1;
      ResultRowsConcat(cfg, parse, a, b[..n]);
      assert (a + b)[..|a + b| - 1] == a + b[..n];
    }
  }

  lemma {:induction false} DataRows(cfg: Config, parse: Parser, event: R.EventType, p: R.Path, ts: seq<Token>, total: nat)
    ensures ResultRows(cfg, parse, R.Datas(event, p, ts, total)) == ParsedRows(cfg, parse, event, ts)
    decreases |ts|
  {
    if ts == [] {
    } else {
      var n := |ts| - 1;
      R.DatasSnoc(event, p, ts, total);
      var ds := R.Datas(event, p, ts[..n], total);
      assert (ds + [R.Data(event, p, ts[n], total + n + 1)])[..|ds|] == ds;
      DataRows(cfg, parse, event, p, ts[..n], total);
    }
  }

  lemma NoRows(cfg: Config, parse: Parser, e: R.ReadResult)
    requires !e.Data?
    ensures ResultRows(cfg, parse, [e]) == []
  {
    assert [e][..0] == [];
  }

  /** The rows of the retractions of the old version. */
  lemma UndoRows(cfg: Config, parse: Parser, r: R.State)
    requires P.AtUpdate(r)
    ensures ResultRows(cfg, parse, P.Undo(r)) == ParsedRows(cfg, parse, R.Deleting, P.Old(r))
  {
    var p := r.queue[0].path;
    var first, undo := [R.NewSource(r.cache[p].metadata)], R.Datas(R.Deleting, p, P.Old(r), r.totalEntriesRead);
    NoRows(cfg, parse, R.NewSource(r.cache[p].metadata));
    NoRows(cfg, parse, R.FinishedSource(R.Forbidden));
    ResultRowsConcat(cfg, parse, first + undo, [R.FinishedSource(R.Forbidden)]);
    ResultRowsConcat(cfg, parse, first, undo);
    DataRows(cfg, parse, R.Deleting, p, P.Old(r), r.totalEntriesRead);
  }

  /** The rows of the atomic part of an update: the retractions, and the insertions if the object could be read again. */
  function AtomicRows(cfg: Config, parse: Parser, r: R.State, answers: seq<Option<seq<Byte>>>): seq<Row>
    requires P.AtUpdate(r)
  {
    ParsedRows(cfg, parse, R.Deleting, P.Old(r)) +
    if |answers| >= 2 && P.Body(r.cfg, answers[1]).Some?
    then ParsedRows(cfg, parse, R.Inserting, Tokens(r.cfg.readMethod, P.Body(r.cfg, answers[1]).value)) else []
  }

  lemma RedoRows(cfg: Config, parse: Parser, r: R.State, body: seq<Byte>)
    requires P.AtUpdate(r)
    ensures ResultRows(cfg, parse, P.Redo(r, body)) == ParsedRows(cfg, parse, R.Inserting, Tokens(r.cfg.readMethod, body))
  {
    var p, after, total := r.queue[0].path, Tokens(r.cfg.readMethod, body), r.totalEntriesRead + |P.Old(r)|;
    NoRows(cfg, parse, R.NewSource(r.queue[0].metadata));
    ResultRowsConcat(cfg, parse, [R.NewSource(r.queue[0].metadata)], R.Datas(R.Inserting, p, after, total));
    DataRows(cfg, parse, R.Inserting, p, after, total);
  }

  lemma AtomicPartRows(cfg: Config, parse: Parser, r: R.State, answers: seq<Option<seq<Byte>>>)
    requires P.AtUpdate(r)
    ensures ResultRows(cfg, parse, P.AtomicPart(r, answers)) == AtomicRows(cfg, parse, r, answers)
  {
    UndoRows(cfg, parse, r);
    if |answers| >= 2 && P.Body(r.cfg, answers[1]).Some? {
      var body := P.Body(r.cfg, answers[1]).value;
      RedoRows(cfg, parse, r, body);
      ResultRowsConcat(cfg, parse, P.Undo(r), P.Redo(r, body));
    }
  }

  // ----- one timestamp

  lemma {:induction false} RunFromFront(c: Conn, es: seq<Event>)
    requires LegalRun(c, es) && es != []
    ensures Legal(c, es[0]) && LegalRun(Step(c, es[0]), es[1..]) && Exec(Step(c, es[0]), es[1..]) == Exec(c, es)
    decreases |es|
  {
    var n := |es| - 1;
    if n == 0 {
      assert es[..0] == [] && es[1..] == [];
    } else {
      RunFromFront(c, es[..n]);
      assert es[..n][0] == es[0];
      assert es[..n][1..] == es[1..][..n - 1];
    }
  }

  lemma {:induction false} ReceivedInRun(es: seq<Event>, k: nat)
    requires k < |es| && es[k].Receive?
    ensures es[k].entry in Received(es)
    decreases |es|
  {
    if k < |es| - 1 { ReceivedInRun(es[..|es| - 1], k); }
  }

  lemma {:induction false} DatasAreData(event: R.EventType, p: R.Path, ts: seq<Token>, total: nat)
    ensures forall x :: x in R.Datas(event, p, ts, total) ==> x.Data?
  {
    if ts == [] {
    } else {
      DatasAreData(event, p, ts[1..], total + 1);
    }
  }

  /** Nothing in `results` allows commits. */
  ghost predicate KeepsForbidden(results: seq<R.ReadResult>) {
    forall k :: 0 <= k < |results| && results[k].FinishedSource? ==> results[k].possibility.Forbidden?
  }

  lemma ResultsAreCalm(parse: Parser, es: seq<Event>, k: nat, results: seq<R.ReadResult>)
    requires k < |es| && CarriesAll(parse, results, Received(es)) && KeepsForbidden(results)
    ensures Calm(es[k])
  {
    if es[k].Receive? {
      ReceivedInRun(es, k);
      var i :| 0 <= i < |results| && Received(es)[i] == es[k].entry;
      assert Carries(parse, results[i], es[k].entry);
    }
  }

  lemma {:induction false} FirstReceived(es: seq<Event>)
    requires es != [] && es[0].Receive?
    ensures Received(es) != [] && Received(es)[0] == es[0].entry
    decreases |es|
  {
    if |es| == 1 {
    } else {
      FirstReceived(es[..|es| - 1]);
    }
  }

  lemma {:induction false} RunRowsFront(cfg: Config, es: seq<Event>)
    requires es != [] && !(es[0].Receive? && es[0].entry.Entries?)
    ensures RunRows(cfg, es) == RunRows(cfg, es[1..])
    decreases |es|
  {
    var n := |es| - 1;
    if n == 0 {
    } else {
      RunRowsFront(cfg, es[..n]);
      assert es[..n][1..] == es[1..][..n - 1];
    }
  }

  /** From the opening of an object until commits are allowed again, every row is fed at one timestamp,
      whatever happens in between. */
  lemma ResultsFedAtOnce(parse: Parser, c: Conn, es: seq<Event>, results: seq<R.ReadResult>)
    requires LegalRun(c, es) && c.backfilled && es != [] && es[0].Receive?
    requires CarriesAll(parse, results, Received(es)) && results != [] && results[0].NewSource? && KeepsForbidden(results)
    ensures FedAt(c, Exec(c, es), ResultRows(c.cfg, parse, results), c.sessionTime)
  {
    forall k | 0 <= k < |es| ensures Calm(es[k]) { ResultsAreCalm(parse, es, k, results); }
    RunFromFront(c, es);
    FirstReceived(es);
    assert Carries(parse, results[0], Received(es)[0]);
    var c1 := Step(c, es[0]);
    ForbiddenCommitsFreezeTime(c1, es[1..]);
    RunRowsFront(c.cfg, es);
    RunRowsAreResultRows(c.cfg, parse, es, results);
    FedAtTrans(c, c1, Exec(c, es), [], RunRows(c.cfg, es[1..]), c.sessionTime);
    assert [] + RunRows(c.cfg, es[1..]) == RunRows(c.cfg, es);
  }

  // ----- a prefix of a run

  lemma ProcessOpsGrow(c: Conn, p: Parsed)
    ensures c.ops <= Process(c, p).ops
  {
    match p
    case Unparsable =>
    case Commit(r) =>
      var c1 := AdvanceTimeTo(c, r.clock, r.forced);
      LoggedKeeps(c1, AdvanceTime(c1.current, c1.frontier));
    case Data(row) => LoggedKeeps(c, Put(row));
  }

  lemma {:induction false} ProcessAllOpsGrow(c: Conn, ps: seq<Parsed>)
    ensures c.ops <= ProcessAll(c, ps).ops
  {
    if ps == [] {
    } else {
      ProcessAllOpsGrow(c, ps[..|ps| - 1]);
      ProcessOpsGrow(ProcessAll(c, ps[..|ps| - 1]), ps[|ps| - 1]);
    }
  }

  lemma HandleOpsGrow(c: Conn, e: Entry)
    ensures c.ops <= Handle(c, e).ops
  {
    match e
    case Entries(b, g) => ProcessAllOpsGrow(c, Effective(c, b, g));
    case FinishedSource(possibility, _, r) => ProcessOpsGrow(c.(commitAllowed := !possibility.Forbidden?), Commit(r));
    case _ =>
  }

  lemma StepOpsGrow(c: Conn, e: Event)
    ensures c.ops <= Step(c, e).ops
  {
    match e
    case Timer(r) => ProcessOpsGrow(c, Commit(r));
    case Probe(_) =>
    case Yield(_, r) => ProcessOpsGrow(c, Commit(r));
    case Receive(entry) => HandleOpsGrow(c, entry);
  }

  /** The run up to the moment when `m` entries were received. */
  lemma {:induction false} CutRun(c: Conn, es: seq<Event>, m: nat) returns (n: nat)
    requires LegalRun(c, es) && m <= |Received(es)|
    ensures n <= |es| && LegalRun(c, es[..n]) && Received(es[..n]) == Received(es)[..m]
    ensures Exec(c, es[..n]).ops <= Exec(c, es).ops
    decreases |es|
  {
    if m == |Received(es)| {
      n := |es|;
      assert es[..n] == es && Received(es)[..m] == Received(es);
    } else {
      var k := |es| - 1;
      n := CutRun(c, es[..k], m);
      assert es[..k][..n] == es[..n];
      assert Received(es)[..m] == Received(es[..k])[..m];
      StepOpsGrow(Exec(c, es[..k]), es[k]);
    }
  }

  lemma CarriesPrefix(parse: Parser, results: seq<R.ReadResult>, entries: seq<Entry>, m: nat)
    requires CarriesAll(parse, results, entries) && m <= |results|
    ensures CarriesAll(parse, results[..m], entries[..m])
  {
    forall k | 0 <= k < m ensures Carries(parse, results[..m][k], entries[..m][k]) {
      assert Carries(parse, results[k], entries[k]);
    }
  }

  // ----- the theorem

  lemma AtomicPartForbids(r: R.State, answers: seq<Option<seq<Byte>>>, results: seq<R.ReadResult>)
    requires P.AtUpdate(r) && results <= P.AtomicPart(r, answers)
    ensures KeepsForbidden(results) && (results != [] ==> results[0].NewSource?)
  {
    var part, p := P.AtomicPart(r, answers), r.queue[0].path;
    DatasAreData(R.Deleting, p, P.Old(r), r.totalEntriesRead);
    if |answers| >= 2 && P.Body(r.cfg, answers[1]).Some? {
      DatasAreData(R.Inserting, p, Tokens(r.cfg.readMethod, P.Body(r.cfg, answers[1]).value), r.totalEntriesRead + |P.Old(r)|);
    }
    forall k | 0 <= k < |results| && results[k].FinishedSource? ensures results[k].possibility.Forbidden? {
      assert results[k] in part;
    }
  }

  lemma PrefixesMeet<T>(a: seq<T>, out: seq<T>, part: seq<T>)
    requires a <= out && (out <= part || part <= out)
    ensures if |a| <= |part| then a <= part else part <= a
  {
  }

  /** Rows fed one after the other at time `t`. */
  function AsFeeds(rows: seq<Row>, t: nat): (ops: seq<Op>)
    ensures |ops| == |rows| && forall i :: 0 <= i < |rows| ==> ops[i] == Feed(rows[i], t, true)
  {
    seq(|rows|, i requires 0 <= i < |rows| => Feed(rows[i], t, true))
  }

  lemma FedAtIs(c: Conn, c1: Conn, rows: seq<Row>, t: nat)
    requires FedAt(c, c1, rows, t)
    ensures c1.ops == c.ops + AsFeeds(rows, t)
  {
  }

  /** The first entries of a longer run, up to the end of `part`. */
  lemma PartFedAtOnce(parse: Parser, c: Conn, es: seq<Event>, results: seq<R.ReadResult>, part: seq<R.ReadResult>)
    requires LegalRun(c, es) && c.backfilled && es != [] && es[0].Receive? && CarriesAll(parse, results, Received(es))
    requires part != [] && part <= results && part[0].NewSource? && KeepsForbidden(part)
    ensures c.ops + AsFeeds(ResultRows(c.cfg, parse, part), c.sessionTime) <= Exec(c, es).ops
  {
    var n := CutRun(c, es, |part|);
    assert results[..|part|] == part;
    CarriesPrefix(parse, results, Received(es), |part|);
    assert n > 0;
    ResultsFedAtOnce(parse, c, es[..n], part);
    FedAtIs(c, Exec(c, es[..n]), ResultRows(c.cfg, parse, part), c.sessionTime);
  }

  /** Either the whole of `part` has arrived, or `results` is what arrived of it. */
  ghost predicate AtOneTime(parse: Parser, c: Conn, x: Conn, results: seq<R.ReadResult>, part: seq<R.ReadResult>) {
    if |results| <= |part|
    then results <= part && FedAt(c, x, ResultRows(c.cfg, parse, results), c.sessionTime)
    else c.ops + AsFeeds(ResultRows(c.cfg, parse, part), c.sessionTime) <= x.ops
  }

  lemma AtomicPartAtOneTime(r: R.State, answers: seq<Option<seq<Byte>>>, out: seq<R.ReadResult>,
                            parse: Parser, c: Conn, es: seq<Event>, results: seq<R.ReadResult>)
    requires P.AtUpdate(r) && (out <= P.AtomicPart(r, answers) || P.AtomicPart(r, answers) <= out)
    requires LegalRun(c, es) && c.backfilled && es != [] && es[0].Receive?
    requires results <= out && CarriesAll(parse, results, Received(es))
    ensures AtOneTime(parse, c, Exec(c, es), results, P.AtomicPart(r, answers))
  {
    var part := P.AtomicPart(r, answers);
    PrefixesMeet(results, out, part);
    FirstReceived(es);
    if |results| <= |part| {
      AtomicPartForbids(r, answers, results);
      ResultsFedAtOnce(parse, c, es, results);
    } else {
      AtomicPartForbids(r, answers, part);
      assert part != [];
      PartFedAtOnce(parse, c, es, results, part);
    }
  }

  /** Replacing an object is atomic end to end.  Take any run of the reader from an update on and any run of the connector
      that has received part of what the reader emitted, with timers, probes and full backlogs anywhere among it.
      Until the whole atomic part has arrived, exactly its rows so far were fed, all at one timestamp, and time stood still;
      afterwards the rows fed begin with those of the whole part, all at that timestamp.  These are the retractions of the
      old version, and the insertions of the new one if it could be read. */
  lemma UpdateIsAtomic(r: R.State, ss: seq<R.Step>, parse: Parser, c: Conn, es: seq<Event>, results: seq<R.ReadResult>)
    requires P.AtUpdate(r) && R.LegalRun(r, ss)
    requires LegalRun(c, es) && c.backfilled && es != [] && es[0].Receive?
    requires results <= P.Emitted(r, ss) && CarriesAll(parse, results, Received(es))
    ensures AtOneTime(parse, c, Exec(c, es), results, P.AtomicPart(r, P.Answers(ss)))
    ensures ResultRows(c.cfg, parse, P.AtomicPart(r, P.Answers(ss))) == AtomicRows(c.cfg, parse, r, P.Answers(ss))
  {
    P.EmittedMeetsAtomicPart(r, ss);
    AtomicPartAtOneTime(r, P.Answers(ss), P.Emitted(r, ss), parse, c, es, results);
    AtomicPartRows(c.cfg, parse, r, P.Answers(ss));
  }

  // ----- when commits are allowed

  lemma EntryCommits(parse: Parser, c: Conn, result: R.ReadResult, entry: Entry)
    requires Carries(parse, result, entry) && LegalEntry(c, entry)
    ensures Handle(c, entry).commitAllowed ==
            match result
            case NewSource(_) => false
            case FinishedSource(possibility) => possibility.Possible?
            case Data(_, _, _, _) => c.commitAllowed
  {
    match result
    case NewSource(_) =>
    case FinishedSource(_) => ProcessKeeps(c.(commitAllowed := !entry.possibility.Forbidden?), Commit(entry.reading));
    case Data(_, _, _, _) => if entry.Entries? { ProcessAllKeeps(c, Effective(c, entry.batch, entry.groupForces)); }
  }

  lemma QuietCommits(c: Conn, e: Event)
    requires !e.Receive?
    ensures Step(c, e).commitAllowed == c.commitAllowed
    ensures e.Timer? && !c.commitAllowed ==> Step(c, e) == c
  {
    match e
    case Timer(r) => ProcessKeeps(c, Commit(r));
    case Probe(_) =>
    case Yield(_, r) => ProcessKeeps(c, Commit(r));
  }

  lemma {:induction false} CommitsFollowResults(parse: Parser, c: Conn, es: seq<Event>, results: seq<R.ReadResult>)
    requires LegalRun(c, es) && CarriesAll(parse, results, Received(es))
    ensures Exec(c, es).commitAllowed == P.CommitsAfter(c.commitAllowed, results)
    decreases |es|
  {
    if es == [] {
    } else {
      var n := |es| - 1;
      if es[n].Receive? {
        var m := |results| - 1;
        CarriesPrefix(parse, results, Received(es), m);
        assert Received(es)[..m] == Received(es[..n]) && results == results[..m] + [results[m]];
        CommitsFollowResults(parse, c, es[..n], results[..m]);
        assert Carries(parse, results[m], Received(es)[m]);
        EntryCommits(parse, Exec(c, es[..n]), results[m], es[n].entry);
        P.CommitsSnoc(c.commitAllowed, results[..m], results[m]);
      } else {
        CommitsFollowResults(parse, c, es[..n], results);
        QuietCommits(Exec(c, es[..n]), es[n]);
      }
    }
  }

  /** Reader and connector together: once everything emitted has been received, the connector commits on its timer
      if and only if no object is open and the action that the reader closed last was not an update.
      Hence after an update whose object cannot be read again nothing is committed until another object is finished. */
  lemma CommitsFollowReader(r: R.State, ss: seq<R.Step>, parse: Parser, c: Conn, es: seq<Event>)
    requires R.LegalRun(r, ss) && r.current.None?
    requires LegalRun(c, es) && c.commitAllowed && CarriesAll(parse, P.Emitted(r, ss), Received(es))
    ensures Exec(c, es).commitAllowed <==> P.MayCommit(r, ss)
    ensures !P.MayCommit(r, ss) ==> forall reading :: Step(Exec(c, es), Timer(reading)) == Exec(c, es)
    ensures P.AtUpdate(r) && |P.Answers(ss)| == 2 && P.Body(r.cfg, P.Answers(ss)[1]).None? ==> !P.MayCommit(r, ss)
  {
    CommitsFollowResults(parse, c, es, P.Emitted(r, ss));
    P.CommitsIff(r, ss);
    if P.AtUpdate(r) && |P.Answers(ss)| == 2 && P.Body(r.cfg, P.Answers(ss)[1]).None? { P.FailedRereadForbids(r, ss); }
  }
}
