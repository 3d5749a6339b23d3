/** What becomes of the actions that the scanner proposes: each is carried out, in order, and the cache follows them. */
module PosixProgress {
  import opened Wrappers
  import opened Tokenizer
  import opened PosixReader
  import opened PosixUpdates

  /** An action that was begun, and what its object was read as; None when nothing was read, not yet or not at all. */
  datatype Handled = Handled(action: QueuedAction, body: Option<seq<Byte>>)

  /** The actions begun so far, and whether the last one is an update whose object is to be read again. */
  datatype Progress = Progress(begun: seq<Handled>, reread: bool)

  /** How a step adds to the history; the second half of an update counts as part of it. */
  function Note(x: State, s: Step, k: Progress): Progress
    requires s.Begin? ==> x.queue != []
  {
    match s
    case NextToken => k.(reread := false)
    case Finish => k.(reread := x.current.Some? && x.current.value.Update?)
    case Begin(contents) =>
      if k.reread && k.begun != []
      then Progress(k.begun[..|k.begun| - 1] + [k.begun[|k.begun| - 1].(body := Body(x.cfg, contents))], false)
      else Progress(k.begun + [Handled(x.queue[0], if x.queue[0].Read? then Body(x.cfg, contents) else None)], false)
    case Refresh(_, _) => k.(reread := false)
  }

  ghost function ProgressOf(r: State, ss: seq<Step>): Progress
    requires LegalRun(r, ss)
    decreases |ss|
  {
    if ss == [] then Progress([], false)
    else Note(Exec(r, ss[..|ss| - 1]), ss[|ss| - 1], ProgressOf(r, ss[..|ss| - 1]))
  }

  function Actions(hs: seq<Handled>): (actions: seq<QueuedAction>)
    ensures |actions| == |hs| && forall k :: 0 <= k < |hs| ==> actions[k] == hs[k].action
  {
    seq(|hs|, k requires 0 <= k < |hs| => hs[k].action)
  }

  /** All actions that the scanner proposed during a run, in order. */
  function Proposed(ss: seq<Step>): seq<QueuedAction> {
    if ss == [] then []
    else if ss[|ss| - 1].Refresh? then Proposed(ss[..|ss| - 1]) + ss[|ss| - 1].actions
    else Proposed(ss[..|ss| - 1])
  }

  /** The proposed actions that are still to be begun. */
  function ToBegin(x: State, k: Progress): seq<QueuedAction> {
    if k.reread && x.queue != [] then x.queue[1..] else x.queue
  }

  /** While an update is open, or its object is to be read again, it is the last action begun. */
  ghost predicate LastBegun(x: State, k: Progress) {
    && (x.current.Some? && x.current.value.Update? ==> k.begun != [] && k.begun[|k.begun| - 1].action == x.current.value)
    && (k.reread ==>
          && k.begun != [] && k.begun[|k.begun| - 1].action.Update? && x.current.None? && x.pending == []
          && x.queue != [] && x.queue[0] == Read(k.begun[|k.begun| - 1].action.path, k.begun[|k.begun| - 1].action.metadata))
  }

  lemma LastBegunStep(x: State, s: Step, k: Progress)
    requires LastBegun(x, k) && CanDo(x, s)
    ensures LastBegun(Do(x, s), Note(x, s, k))
  {
  }

  lemma {:induction false} RunLastBegun(r: State, ss: seq<Step>)
    requires LegalRun(r, ss) && r.current.None?
    ensures LastBegun(Exec(r, ss), ProgressOf(r, ss))
    decreases |ss|
  {
    if ss == [] {
    } else {
      RunLastBegun(r, ss[..|ss| - 1]);
      LastBegunStep(Exec(r, ss[..|ss| - 1]), ss[|ss| - 1], ProgressOf(r, ss[..|ss| - 1]));
    }
  }

  // ----- no action is lost

  /** What a step does to the queue. */
  lemma QueueStep(x: State, s: Step)
    requires CanDo(x, s)
    ensures Do(x, s).queue ==
            match s
            case NextToken => x.queue
            case Finish => if x.current.value.Update? then [Read(x.current.value.path, x.current.value.metadata)] + x.queue else x.queue
            case Begin(_) => x.queue[1..]
            case Refresh(actions, _) => x.queue + actions
  {
  }

  lemma Regroup<T>(a: seq<T>, b: seq<T>, c: seq<T>)
    ensures (a + b) + c == a + (b + c)
  {
  }

  lemma ActionsSnoc(hs: seq<Handled>, h: Handled)
    ensures Actions(hs + [h]) == Actions(hs) + [h.action]
  {
  }

  lemma ActionsReplaced(hs: seq<Handled>, body: Option<seq<Byte>>)
    requires hs != []
    ensures Actions(hs[..|hs| - 1] + [hs[|hs| - 1].(body := body)]) == Actions(hs)
  {
  }

  lemma BeginAccounted(x: State, contents: Option<seq<Byte>>, k: Progress, queue: seq<QueuedAction>)
    requires x.queue != [] && queue == x.queue[1..] && (k.reread ==> k.begun != [])
    ensures Actions(Note(x, Begin(contents), k).begun) + queue == Actions(k.begun) + ToBegin(x, k)
  {
    if k.reread {
      ActionsReplaced(k.begun, Body(x.cfg, contents));
    } else {
      ActionsSnoc(k.begun, Handled(x.queue[0], if x.queue[0].Read? then Body(x.cfg, contents) else None));
      assert x.queue == [x.queue[0]] + queue;
      Regroup(Actions(k.begun), [x.queue[0]], queue);
    }
  }

  lemma AccountedStep(x: State, s: Step, k: Progress)
    requires LastBegun(x, k) && CanDo(x, s)
    ensures var k' := Note(x, s, k);
            Actions(k'.begun) + ToBegin(Do(x, s), k') ==
            (Actions(k.begun) + ToBegin(x, k)) + if s.Refresh? then s.actions else []
  {
    QueueStep(x, s);
    match s
    case NextToken =>
    case Finish =>
      if x.current.value.Update? {
        assert ([Read(x.current.value.path, x.current.value.metadata)] + x.queue)[1..] == x.queue;
      }
    case Begin(contents) => BeginAccounted(x, contents, k, Do(x, s).queue);
    case Refresh(actions, _) => Regroup(Actions(k.begun), x.queue, actions);
  }

  /** Nothing that the scanner proposes is lost, repeated or reordered: the actions begun and those still queued are the
      initial queue and then all proposals. */
  lemma {:induction false} ActionsAccounted(r: State, ss: seq<Step>)
    requires LegalRun(r, ss) && r.current.None?
    ensures Actions(ProgressOf(r, ss).begun) + ToBegin(Exec(r, ss), ProgressOf(r, ss)) == r.queue + Proposed(ss)
    decreases |ss|
  {
    if ss == [] {
      assert Actions([]) + r.queue == r.queue + [];
    } else {
      var before, s := ss[..|ss| - 1], ss[|ss| - 1];
      ActionsAccounted(r, before);
      RunLastBegun(r, before);
      AccountedStep(Exec(r, before), s, ProgressOf(r, before));
      Regroup(r.queue, Proposed(before), if s.Refresh? then s.actions else []);
      assert Proposed(ss) == Proposed(before) + if s.Refresh? then s.actions else [];
    }
  }

  // ----- the cache follows the actions

  /** The last action begun on `p`. */
  function LastOn(hs: seq<Handled>, p: Path): Option<Handled> {
    if hs == [] then None
    else if hs[|hs| - 1].action.path == p then Some(hs[|hs| - 1])
    else LastOn(hs[..|hs| - 1], p)
  }

  /** Object `p` is cached as its last action left it: as it was read, or not at all. */
  ghost predicate CacheMatches(initial: map<Path, Object>, cache: map<Path, Object>, hs: seq<Handled>, p: Path) {
    match LastOn(hs, p)
    case None => (p in cache <==> p in initial) && (p in cache ==> cache[p] == initial[p])
    case Some(h) =>
      if h.body.Some? && !h.action.Delete?
      then p in cache && cache[p] == Object(h.body.value, h.action.metadata)
      else p !in cache
  }

  lemma LastOnSnoc(hs: seq<Handled>, h: Handled, p: Path)
    ensures LastOn(hs + [h], p) == if h.action.path == p then Some(h) else LastOn(hs, p)
  {
    assert (hs + [h])[..|hs|] == hs;
  }

  lemma BeginMatches(initial: map<Path, Object>, x: State, contents: Option<seq<Byte>>, k: Progress, p: Path)
    requires QueueOk(x) && x.cfg.DeletionsEnabled() && LastBegun(x, k) && CanDo(x, Begin(contents))
    requires CacheMatches(initial, x.cache, k.begun, p)
    ensures CacheMatches(initial, OnBegin(x, contents).cache, Note(x, Begin(contents), k).begun, p)
  {
    var k', a := Note(x, Begin(contents), k), x.queue[0];
    if k.reread {
      var n := |k.begun| - 1;
      assert k.begun == k.begun[..n] + [k.begun[n]];
      LastOnSnoc(k.begun[..n], k.begun[n], p);
      LastOnSnoc(k.begun[..n], k'.begun[n], p);
    } else {
      LastOnSnoc(k.begun, k'.begun[|k.begun|], p);
    }
    if a.Read? { assert a.path !in x.cache; }
  }

  lemma MatchesStep(initial: map<Path, Object>, x: State, s: Step, k: Progress, p: Path)
    requires Inv(x) && x.cfg.DeletionsEnabled() && LastBegun(x, k) && CanDo(x, s)
    requires CacheMatches(initial, x.cache, k.begun, p)
    ensures CacheMatches(initial, Do(x, s).cache, Note(x, s, k).begun, p)
  {
    if s.Begin? {
      BeginMatches(initial, x, s.contents, k, p);
    } else {
      assert Do(x, s).cache == x.cache && Note(x, s, k).begun == k.begun;
    }
  }

  /** At every moment the cache holds each object as the last action begun on it left it. */
  lemma {:induction false} CacheFollowsActions(r: State, ss: seq<Step>, p: Path)
    requires Init(r) && LegalRun(r, ss) && (r.cfg.persisted || r.cfg.polling)
    ensures CacheMatches(r.cache, Exec(r, ss).cache, ProgressOf(r, ss).begun, p)
    decreases |ss|
  {
    if ss == [] {
    } else {
      var before := ss[..|ss| - 1];
      CacheFollowsActions(r, before, p);
      InitInv(r);
      ReachableInv(r, before);
      RunLastBegun(r, before);
      MatchesStep(r.cache, Exec(r, before), ss[|ss| - 1], ProgressOf(r, before), p);
    }
  }

  /** When the reader has nothing left to do, every proposal has been carried out: an object whose last proposal was to
      read or update it is cached with the contents read, and not at all if that failed; a deleted one is not cached. */
  lemma IdleReaderIsUpToDate(r: State, ss: seq<Step>, p: Path)
    requires Init(r) && LegalRun(r, ss) && (r.cfg.persisted || r.cfg.polling)
    requires Exec(r, ss).current.None? && Exec(r, ss).queue == []
    ensures Actions(ProgressOf(r, ss).begun) == r.queue + Proposed(ss)
    ensures CacheMatches(r.cache, Exec(r, ss).cache, ProgressOf(r, ss).begun, p)
  {
    ActionsAccounted(r, ss);
    CacheFollowsActions(r, ss, p);
  }

  // ----- without deletions

  /** When nothing can be undone, only the object being read is kept. */
  lemma {:induction false} NothingKeptWithoutDeletions(r: State, ss: seq<Step>)
    requires Init(r) && LegalRun(r, ss) && !r.cfg.persisted && !r.cfg.polling && r.cache == map[]
    ensures var x := Exec(r, ss);
            && x.cfg == r.cfg && (forall k :: 0 <= k < |x.queue| ==> x.queue[k].Read?)
            && (x.current.Some? ==> x.current.value.Read?)
            && x.cache.Keys == if x.current.Some? then {x.current.value.path} else {}
    decreases |ss|
  {
    if ss == [] {
    } else {
      NothingKeptWithoutDeletions(r, ss[..|ss| - 1]);
    }
  }

  // ----- the count of entries

  function DataCount(results: seq<ReadResult>): nat {
    if results == [] then 0
    else DataCount(results[..|results| - 1]) + if results[|results| - 1].Data? then 1 else 0
  }

  lemma DataCountSnoc(results: seq<ReadResult>, e: ReadResult)
    ensures DataCount(results + [e]) == DataCount(results) + if e.Data? then 1 else 0
  {
    assert (results + [e])[..|results|] == results;
  }

  /** Entry by entry, the offsets count the entries returned. */
  ghost predicate Counted(results: seq<ReadResult>, start: nat) {
    forall k :: 0 <= k < |results| && results[k].Data? ==> results[k].totalEntriesRead == start + DataCount(results[..k + 1])
  }

  lemma CountedSnoc(results: seq<ReadResult>, e: ReadResult, start: nat)
    requires Counted(results, start) && (e.Data? ==> e.totalEntriesRead == start + DataCount(results) + 1)
    ensures Counted(results + [e], start)
  {
    DataCountSnoc(results, e);
    forall k | 0 <= k < |results + [e]| && (results + [e])[k].Data?
      ensures (results + [e])[k].totalEntriesRead == start + DataCount((results + [e])[..k + 1])
    {
      if k < |results| {
        assert (results + [e])[..k + 1] == results[..k + 1];
      } else {
        assert (results + [e])[..k + 1] == results + [e];
      }
    }
  }

  /** Every step adds at most one result. */
  lemma OneResult(x: State, s: Step)
    requires CanDo(x, s)
    ensures var x' := Do(x, s);
            || (x'.results == x.results && x'.totalEntriesRead == x.totalEntriesRead)
            || (|x'.results| == |x.results| + 1 && x'.results == x.results + [x'.results[|x.results|]]
                && x'.totalEntriesRead == x.totalEntriesRead + (if x'.results[|x.results|].Data? then 1 else 0)
                && (x'.results[|x.results|].Data? ==> x'.results[|x.results|].totalEntriesRead == x'.totalEntriesRead))
  {
  }

  /** The offset of every entry is the number of entries read up to it, counted on from where the reader started. */
  lemma {:induction false} EntriesCounted(r: State, ss: seq<Step>)
    requires Init(r) && LegalRun(r, ss)
    ensures Exec(r, ss).totalEntriesRead == r.totalEntriesRead + DataCount(Exec(r, ss).results)
    ensures Counted(Exec(r, ss).results, r.totalEntriesRead)
    decreases |ss|
  {
    if ss == [] {
    } else {
      var x, s := Exec(r, ss[..|ss| - 1]), ss[|ss| - 1];
      EntriesCounted(r, ss[..|ss| - 1]);
      OneResult(x, s);
      if |Do(x, s).results| > |x.results| {
        DataCountSnoc(x.results, Do(x, s).results[|x.results|]);
        CountedSnoc(x.results, Do(x, s).results[|x.results|], r.totalEntriesRead);
      }
    }
  }
}
