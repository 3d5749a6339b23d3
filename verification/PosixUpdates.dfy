/** Every way in which the reader can replace an object, and when it leaves commits forbidden. */
module PosixUpdates {
  import opened Wrappers
  import opened Tokenizer
  import opened PosixReader

  /** The reader is about to replace a cached object. */
  predicate AtUpdate(r: State) {
    r.pending == [] && r.current.None? && r.queue != [] && r.queue[0].Update? && r.queue[0].path in r.cache
  }

  function Old(r: State): seq<Token>
    requires AtUpdate(r)
  {
    Tokens(r.cfg.readMethod, r.cache[r.queue[0].path].contents)
  }

  /** Retracting the old version. */
  function Undo(r: State): seq<ReadResult>
    requires AtUpdate(r)
  {
    [NewSource(r.cache[r.queue[0].path].metadata)] + Datas(Deleting, r.queue[0].path, Old(r), r.totalEntriesRead)
    + [FinishedSource(Forbidden)]
  }

  /** Inserting the new version, up to the end of its entries. */
  function Redo(r: State, body: seq<Byte>): seq<ReadResult>
    requires AtUpdate(r)
  {
    [NewSource(r.queue[0].metadata)]
    + Datas(Inserting, r.queue[0].path, Tokens(r.cfg.readMethod, body), r.totalEntriesRead + |Old(r)|)
  }

  /** What is read of an object when the scanner answers `contents`; None when the read fails. */
  function Body(cfg: Config, contents: Option<seq<Byte>>): Option<seq<Byte>> {
    if cfg.onlyMetadata then Some([]) else contents
  }

  /** The scanner's answers of a run, one for each action that was begun. */
  function Answers(ss: seq<Step>): seq<Option<seq<Byte>>> {
    if ss == [] then []
    else if ss[|ss| - 1].Begin? then Answers(ss[..|ss| - 1]) + [ss[|ss| - 1].contents]
    else Answers(ss[..|ss| - 1])
  }

  /** The part of an update that is to be atomic, as far as the run decides it: with the new version if it could be read. */
  function AtomicPart(r: State, answers: seq<Option<seq<Byte>>>): seq<ReadResult>
    requires AtUpdate(r)
  {
    if |answers| >= 2 && Body(r.cfg, answers[1]).Some? then Undo(r) + Redo(r, Body(r.cfg, answers[1]).value) else Undo(r)
  }

  // ----- the stages of an update

  ghost predicate Undoing(r: State, x: State)
    requires AtUpdate(r)
  {
    && x.current == Some(r.queue[0]) && x.queue == r.queue[1..] && x.cfg == r.cfg && x.event == Deleting
    && Drained(x).totalEntriesRead == r.totalEntriesRead + |Old(r)|
    && Drained(x).results == r.results + [NewSource(r.cache[r.queue[0].path].metadata)]
                             + Datas(Deleting, r.queue[0].path, Old(r), r.totalEntriesRead)
  }

  ghost predicate Undone(r: State, x: State)
    requires AtUpdate(r)
  {
    && x.current.None? && x.pending == [] && x.cfg == r.cfg
    && x.queue == [Read(r.queue[0].path, r.queue[0].metadata)] + r.queue[1..]
    && x.totalEntriesRead == r.totalEntriesRead + |Old(r)| && x.results == r.results + Undo(r)
  }

  ghost predicate Redoing(r: State, x: State, body: seq<Byte>)
    requires AtUpdate(r)
  {
    && x.current == Some(Read(r.queue[0].path, r.queue[0].metadata)) && x.event == Inserting
    && Drained(x).results == r.results + Undo(r) + Redo(r, body)
  }

  ghost predicate Stage(r: State, x: State, answers: seq<Option<seq<Byte>>>)
    requires AtUpdate(r)
  {
    if |answers| == 0 then x == r
    else if |answers| == 1 then Undoing(r, x) || Undone(r, x)
    else match Body(r.cfg, answers[1])
         case None =>
           && r.results + Undo(r) <= x.results
           && (|answers| == 2 ==> x.current.None? && x.pending == [] && x.results == r.results + Undo(r))
         case Some(body) => Redoing(r, x, body) || r.results + Undo(r) + Redo(r, body) + [FinishedSource(Possible)] <= x.results
  }

  lemma ResultsGrow(x: State, s: Step)
    requires CanDo(x, s)
    ensures x.results <= Do(x, s).results
  {
  }

  lemma {:induction false} RunResultsGrow(r: State, ss: seq<Step>)
    requires LegalRun(r, ss)
    ensures r.results <= Exec(r, ss).results
    decreases |ss|
  {
    if ss == [] {
    } else {
      RunResultsGrow(r, ss[..|ss| - 1]);
      ResultsGrow(Exec(r, ss[..|ss| - 1]), ss[|ss| - 1]);
    }
  }

  lemma UndoBegins(r: State, contents: Option<seq<Byte>>)
    requires AtUpdate(r)
    ensures Undoing(r, OnBegin(r, contents))
  {
  }

  lemma Reassociate<T>(a: seq<T>, b: seq<T>, c: seq<T>, d: seq<T>)
    ensures a + b + c + d == a + (b + c + d)
  {
  }

  lemma UndoContinues(r: State, x: State, s: Step)
    requires AtUpdate(r) && Undoing(r, x) && CanDo(x, s)
    ensures !s.Begin? && (Undoing(r, Do(x, s)) || Undone(r, Do(x, s)))
  {
    if s.NextToken? {
      DrainOne(x);
    } else {
      assert Drained(x).results == x.results + [] == x.results;
      Reassociate(r.results, [NewSource(r.cache[r.queue[0].path].metadata)],
                  Datas(Deleting, r.queue[0].path, Old(r), r.totalEntriesRead), [FinishedSource(Forbidden)]);
    }
  }

  lemma RedoBegins(r: State, x: State, contents: Option<seq<Byte>>)
    requires AtUpdate(r) && Undone(r, x)
    ensures match Body(r.cfg, contents)
            case None => OnBegin(x, contents) == x.(queue := x.queue[1..])
            case Some(body) => Redoing(r, OnBegin(x, contents), body)
  {
    var p, m := r.queue[0].path, r.queue[0].metadata;
    match Body(r.cfg, contents)
    case None =>
    case Some(body) =>
      var x' := OnBegin(x, contents);
      var news := Datas(Inserting, p, Tokens(r.cfg.readMethod, body), x.totalEntriesRead);
      assert x'.results == x.results + [NewSource(m)];
      assert x.results + [NewSource(m)] + news == x.results + ([NewSource(m)] + news);
  }

  lemma RedoContinues(r: State, x: State, body: seq<Byte>, s: Step)
    requires AtUpdate(r) && Redoing(r, x, body) && CanDo(x, s)
    ensures !s.Begin?
    ensures Redoing(r, Do(x, s), body) || r.results + Undo(r) + Redo(r, body) + [FinishedSource(Possible)] <= Do(x, s).results
  {
    if s.NextToken? {
      DrainOne(x);
    } else {
      assert Drained(x).results == x.results + [] == x.results;
    }
  }

  lemma StageStep(r: State, x: State, answers: seq<Option<seq<Byte>>>, s: Step)
    requires AtUpdate(r) && Stage(r, x, answers) && CanDo(x, s)
    ensures Stage(r, Do(x, s), if s.Begin? then answers + [s.contents] else answers)
  {
    ResultsGrow(x, s);
    if |answers| == 0 {
      UndoBegins(r, s.contents);
    } else if |answers| == 1 {
      if Undoing(r, x) {
        UndoContinues(r, x, s);
      } else {
        RedoBegins(r, x, s.contents);
      }
    } else if Body(r.cfg, answers[1]).Some? && Redoing(r, x, Body(r.cfg, answers[1]).value) {
      RedoContinues(r, x, Body(r.cfg, answers[1]).value, s);
    }
  }

  lemma {:induction false} RunStage(r: State, ss: seq<Step>)
    requires AtUpdate(r) && LegalRun(r, ss)
    ensures Stage(r, Exec(r, ss), Answers(ss))
    decreases |ss|
  {
    if ss == [] {
    } else {
      RunStage(r, ss[..|ss| - 1]);
      StageStep(r, Exec(r, ss[..|ss| - 1]), Answers(ss[..|ss| - 1]), ss[|ss| - 1]);
    }
  }

  /** What a run of the reader returns. */
  ghost function Emitted(r: State, ss: seq<Step>): seq<ReadResult>
    requires LegalRun(r, ss)
  {
    RunResultsGrow(r, ss);
    Exec(r, ss).results[|r.results|..]
  }

  lemma DrainedPrefix(x: State, a: seq<ReadResult>, out: seq<ReadResult>)
    requires x.current.Some? && a <= x.results && Drained(x).results == a + out
    ensures x.results[|a|..] <= out
  {
    assert x.results <= Drained(x).results;
  }

  ghost predicate Emits(r: State, answers: seq<Option<seq<Byte>>>, out: seq<ReadResult>)
    requires AtUpdate(r)
  {
    if |answers| < 2 then out <= Undo(r)
    else match Body(r.cfg, answers[1])
         case None => Undo(r) <= out && (|answers| == 2 ==> out == Undo(r))
         case Some(body) => out <= Undo(r) + Redo(r, body) || Undo(r) + Redo(r, body) + [FinishedSource(Possible)] <= out
  }

  lemma UndoEmits(r: State, x: State)
    requires AtUpdate(r) && r.results <= x.results && (Undoing(r, x) || Undone(r, x))
    ensures x.results[|r.results|..] <= Undo(r)
  {
    if Undoing(r, x) {
      var undo := [NewSource(r.cache[r.queue[0].path].metadata)] + Datas(Deleting, r.queue[0].path, Old(r), r.totalEntriesRead);
      assert Drained(x).results == r.results + undo;
      DrainedPrefix(x, r.results, undo);
      assert undo <= Undo(r);
    }
  }

  lemma RedoEmits(r: State, x: State, body: seq<Byte>)
    requires AtUpdate(r) && r.results <= x.results && Redoing(r, x, body)
    ensures x.results[|r.results|..] <= Undo(r) + Redo(r, body)
  {
    assert r.results + Undo(r) + Redo(r, body) == r.results + (Undo(r) + Redo(r, body));
    DrainedPrefix(x, r.results, Undo(r) + Redo(r, body));
  }

  lemma DoneEmits<T>(a: seq<T>, b: seq<T>, c: seq<T>, d: seq<T>, all: seq<T>)
    requires a + b + c + d <= all
    ensures b + c + d <= all[|a|..]
  {
    Reassociate(a, b, c, d);
  }

  lemma StageEmits(r: State, x: State, answers: seq<Option<seq<Byte>>>)
    requires AtUpdate(r) && r.results <= x.results && Stage(r, x, answers)
    ensures Emits(r, answers, x.results[|r.results|..])
  {
    if |answers| == 0 {
      assert x.results[|r.results|..] == [];
    } else if |answers| == 1 {
      UndoEmits(r, x);
    } else if Body(r.cfg, answers[1]).Some? {
      var body := Body(r.cfg, answers[1]).value;
      if Redoing(r, x, body) {
        RedoEmits(r, x, body);
      } else {
        DoneEmits(r.results, Undo(r), Redo(r, body), [FinishedSource(Possible)], x.results);
      }
    }
  }

  /** Every run from an update on: the retractions of the old version come first.  If the object cannot be read again
      anything may follow them; otherwise the insertions of the new version follow at once, and then the end of the source. */
  lemma EveryUpdateRun(r: State, ss: seq<Step>)
    requires AtUpdate(r) && LegalRun(r, ss)
    ensures Emits(r, Answers(ss), Emitted(r, ss))
  {
    RunStage(r, ss);
    RunResultsGrow(r, ss);
    StageEmits(r, Exec(r, ss), Answers(ss));
  }

  /** What was emitted so far and the atomic part of the update never disagree. */
  lemma EmittedMeetsAtomicPart(r: State, ss: seq<Step>)
    requires AtUpdate(r) && LegalRun(r, ss)
    ensures Emitted(r, ss) <= AtomicPart(r, Answers(ss)) || AtomicPart(r, Answers(ss)) <= Emitted(r, ss)
  {
    EveryUpdateRun(r, ss);
  }

  // ----- which action was closed last

  /** The action that the last `Finish` of a run closed. */
  ghost function LastClosed(r: State, ss: seq<Step>): Option<QueuedAction>
    requires LegalRun(r, ss)
    decreases |ss|
  {
    if ss == [] then None
    else if ss[|ss| - 1].Finish? then Exec(r, ss[..|ss| - 1]).current
    else LastClosed(r, ss[..|ss| - 1])
  }

  /** Whether a connector that received `results` may commit; the metadata of objects forbids commits inside them. */
  function CommitsAfter(allowed: bool, results: seq<ReadResult>): bool {
    if results == [] then allowed
    else match results[|results| - 1]
         case NewSource(_) => false
         case FinishedSource(possibility) => possibility.Possible?
         case Data(_, _, _, _) => CommitsAfter(allowed, results[..|results| - 1])
  }

  lemma CommitsSnoc(allowed: bool, results: seq<ReadResult>, e: ReadResult)
    ensures CommitsAfter(allowed, results + [e]) ==
            match e
            case NewSource(_) => false
            case FinishedSource(possibility) => possibility.Possible?
            case Data(_, _, _, _) => CommitsAfter(allowed, results)
  {
    assert (results + [e])[..|results|] == results;
  }

  /** No object is open, and the last one that was closed is not waiting to be read again. */
  ghost predicate MayCommit(r: State, ss: seq<Step>)
    requires LegalRun(r, ss)
  {
    Exec(r, ss).current.None? && (LastClosed(r, ss).Some? ==> !LastClosed(r, ss).value.Update?)
  }

  lemma EmittedGrows(r: State, ss: seq<Step>)
    requires LegalRun(r, ss) && ss != []
    ensures var x, s := Exec(r, ss[..|ss| - 1]), ss[|ss| - 1];
            && CanDo(x, s) && x.results <= Do(x, s).results && |Do(x, s).results| <= |x.results| + 1
            && Emitted(r, ss) == Emitted(r, ss[..|ss| - 1]) + Do(x, s).results[|x.results|..]
  {
    RunResultsGrow(r, ss[..|ss| - 1]);
  }

  lemma CommitsStep(x: State, s: Step, before: seq<ReadResult>, after: seq<ReadResult>)
    requires CanDo(x, s) && x.results <= Do(x, s).results && after == before + Do(x, s).results[|x.results|..]
    ensures match s
            case NextToken => CommitsAfter(true, after) == CommitsAfter(true, before) && Do(x, s).current == x.current
            case Finish => (CommitsAfter(true, after) <==> !x.current.value.Update?) && Do(x, s).current.None?
            case Begin(_) => if Do(x, s).current.None? then after == before else !CommitsAfter(true, after)
            case Refresh(_, _) => after == before && Do(x, s).current == x.current
  {
    var more := Do(x, s).results[|x.results|..];
    if |more| == 1 {
      assert more == [more[0]];
      CommitsSnoc(true, before, more[0]);
    } else if |more| == 0 {
      assert after == before;
    }
  }

  /** Commits are allowed if and only if no object is open and the action closed last was not an update. */
  lemma {:induction false} CommitsIff(r: State, ss: seq<Step>)
    requires LegalRun(r, ss) && r.current.None?
    ensures CommitsAfter(true, Emitted(r, ss)) <==> MayCommit(r, ss)
    decreases |ss|
  {
    if ss == [] {
      assert Emitted(r, ss) == [];
    } else {
      var n := |ss| - 1;
      CommitsIff(r, ss[..n]);
      EmittedGrows(r, ss);
      CommitsStep(Exec(r, ss[..n]), ss[n], Emitted(r, ss[..n]), Emitted(r, ss));
    }
  }

  /** When the object of an update cannot be read again, the reader is idle and commits stay forbidden
      until it begins another action. */
  lemma FailedRereadForbids(r: State, ss: seq<Step>)
    requires AtUpdate(r) && LegalRun(r, ss) && |Answers(ss)| == 2 && Body(r.cfg, Answers(ss)[1]).None?
    ensures Exec(r, ss).current.None? && Emitted(r, ss) == Undo(r) && !CommitsAfter(true, Emitted(r, ss)) && !MayCommit(r, ss)
  {
    RunStage(r, ss);
    EveryUpdateRun(r, ss);
    var p := r.queue[0].path;
    CommitsSnoc(true, [NewSource(r.cache[p].metadata)] + Datas(Deleting, p, Old(r), r.totalEntriesRead), FinishedSource(Forbidden));
    CommitsIff(r, ss);
  }
}
