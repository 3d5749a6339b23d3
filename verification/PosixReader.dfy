/**
 The reader of POSIX-like storages: objects are read, re-read when they change and
 undone when they disappear, with the help of a cache of their contents.

 One call of `read` is a series of the micro-steps below; the scanner's answers are
 part of the step that asks for them.
 */
module PosixReader {
  import opened Wrappers
  import opened Tokenizer

  type Path = nat
  type Metadata = nat

  datatype QueuedAction = Read(path: Path, metadata: Metadata) | Update(path: Path, metadata: Metadata) | Delete(path: Path)

  datatype Object = Object(contents: seq<Byte>, metadata: Metadata)

  datatype EventType = Inserting | Deleting

  datatype Possibility = Possible | Forbidden

  datatype ReadResult =
    | Data(event: EventType, path: Path, token: Token, totalEntriesRead: nat)
    | NewSource(metadata: Metadata)
    | FinishedSource(possibility: Possibility)

  datatype Config = Config(readMethod: ReadMethod, polling: bool, onlyMetadata: bool, persisted: bool)
  {
    predicate DeletionsEnabled() {
      persisted || polling
    }
  }

  datatype State = State(
    cfg: Config,
    event: EventType,
    pending: seq<Token>,
    current: Option<QueuedAction>,
    queue: seq<QueuedAction>,
    cache: map<Path, Object>,
    totalEntriesRead: nat,
    hadQueueRefresh: bool,
    results: seq<ReadResult>,
    restored: map<Path, Object>)    // the cache the reader started from

  datatype Step =
    | NextToken                                      // the tokenizer has another entry
    | Finish                                         // the current action is over
    | Begin(contents: Option<seq<Byte>>)             // the next queued action starts; `contents` is what the scanner reads
    | Refresh(actions: seq<QueuedAction>, hasPending: bool)  // the queue is empty and the scanner is asked

  /** What the scanner may propose: reads of uncached objects, updates and deletions of cached ones, each path once. */
  ghost predicate ScannerContract(deletions: bool, cache: map<Path, Object>, actions: seq<QueuedAction>) {
    && (forall i :: 0 <= i < |actions| ==>
          if actions[i].Read? then actions[i].path !in cache else deletions && actions[i].path in cache)
    && (forall i, j :: 0 <= i < j < |actions| ==> actions[i].path != actions[j].path)
  }

  /** When each micro-step is taken. */
  ghost predicate Enabled(r: State, s: Step) {
    match s
    case NextToken => r.pending != []
    case Finish => r.pending == [] && r.current.Some?
    case Begin(_) => r.pending == [] && r.current.None? && r.queue != []
    case Refresh(actions, hasPending) =>
      && r.pending == [] && r.current.None? && r.queue == []
      && (r.cfg.polling || !r.hadQueueRefresh || hasPending)
      && ScannerContract(r.cfg.DeletionsEnabled(), r.cache, actions)
  }

  /** Continuing to read the current object. */
  function OnToken(r: State): State
    requires r.pending != [] && r.current.Some?
  {
    var n := r.totalEntriesRead + 1;
    r.(pending := r.pending[1..], totalEntriesRead := n,
       results := r.results + [Data(r.event, r.current.value.path, r.pending[0], n)])
  }

  /** Finalizing the current action; an update is followed by a read of the same object. */
  function OnFinish(r: State): State
    requires r.current.Some?
  {
    var r1 := r.(current := None);
    match r.current.value
    case Delete(_) => r1.(results := r.results + [FinishedSource(Possible)])
    case Update(p, m) => r1.(queue := [Read(p, m)] + r.queue, results := r.results + [FinishedSource(Forbidden)])
    case Read(p, _) =>
      r1.(cache := if !r.cfg.persisted && !r.cfg.DeletionsEnabled() then r.cache - {p} else r.cache,
          results := r.results + [FinishedSource(Possible)])
  }

  /** Starting the action at the head of the queue. */
  function OnBegin(r: State, contents: Option<seq<Byte>>): State
    requires r.queue != []
    requires !r.queue[0].Read? ==> r.queue[0].path in r.cache
  {
    var a := r.queue[0];
    var r1 := r.(queue := r.queue[1..]);
    match a
    case Read(p, m) =>
      if !r.cfg.onlyMetadata && contents.None? then r1
      else
        var body := if r.cfg.onlyMetadata then [] else contents.value;
        var cached := if r.cfg.DeletionsEnabled() then body else [];
        r1.(cache := r.cache[p := Object(cached, m)], pending := Tokens(r.cfg.readMethod, body), event := Inserting,
            current := Some(a), results := r.results + [NewSource(m)])
    case _ =>
      var undone := r.cache[a.path];
      r1.(cache := r.cache - {a.path}, pending := Tokens(r.cfg.readMethod, undone.contents), event := Deleting,
          current := Some(a), results := r.results + [NewSource(undone.metadata)])
  }

  function OnRefresh(r: State, actions: seq<QueuedAction>): State {
    r.(hadQueueRefresh := true, queue := r.queue + actions)
  }

  // ----- the invariant

  ghost predicate QueueOk(r: State) {
    && (forall i :: 0 <= i < |r.queue| ==>
          if r.queue[i].Read? then r.queue[i].path !in r.cache else r.queue[i].path in r.cache)
    && (forall i, j :: 0 <= i < j < |r.queue| ==> r.queue[i].path != r.queue[j].path)
    && (r.current.Some? ==> forall i :: 0 <= i < |r.queue| ==> r.queue[i].path != r.current.value.path)
  }

  ghost predicate IsSuffix(s: seq<Token>, t: seq<Token>) {
    |s| <= |t| && s == t[|t| - |s|..]
  }

  ghost predicate ActionOk(r: State) {
    && (r.current.None? ==> r.pending == [])
    && (r.current.Some? && r.current.value.Read? ==>
          && r.event == Inserting && r.current.value.path in r.cache
          && (r.cfg.DeletionsEnabled() ==>
                IsSuffix(r.pending, Tokens(r.cfg.readMethod, r.cache[r.current.value.path].contents))))
    && (r.current.Some? && !r.current.value.Read? ==> r.event == Deleting && r.current.value.path !in r.cache)
  }

  /** Emitted insertions minus deletions of entry `t` of object `p`. */
  function Net(results: seq<ReadResult>, p: Path, t: Token): int {
    if results == [] then 0
    else
      var e := results[|results| - 1];
      var rest := Net(results[..|results| - 1], p, t);
      if e.Data? && e.path == p && e.token == t then (if e.event == Inserting then rest + 1 else rest - 1) else rest
  }

  function InObjects(m: ReadMethod, objects: map<Path, Object>, p: Path, t: Token): nat {
    if p in objects then CountToken(Tokens(m, objects[p].contents), t) else 0
  }

  function InCache(r: State, p: Path, t: Token): nat {
    InObjects(r.cfg.readMethod, r.cache, p, t)
  }

  /** Entry `t` of object `p` as the engine holds it: what was restored, plus insertions, minus deletions. */
  function Held(r: State, p: Path, t: Token): int {
    InObjects(r.cfg.readMethod, r.restored, p, t) + Net(r.results, p, t)
  }

  /** What is still to be emitted for the object of the current action. */
  function Owed(r: State, p: Path, t: Token): int {
    if r.current.None? || r.current.value.path != p then 0
    else if r.current.value.Read? then CountToken(r.pending, t)
    else 0 - CountToken(r.pending, t)
  }

  predicate Balance(r: State, p: Path, t: Token) {
    Held(r, p, t) + Owed(r, p, t) == InCache(r, p, t)
  }

  /** Held rows and owed rows together always make up the cached objects. */
  ghost predicate Balanced(r: State) {
    forall p: Path, t: Token :: Balance(r, p, t)
  }

  ghost predicate Inv(r: State) {
    QueueOk(r) && ActionOk(r) && (r.cfg.DeletionsEnabled() ==> Balanced(r))
  }

  /** The steps at which the reader would panic: an entry of no object, or an object to undo without a cached copy. */
  predicate Panics(r: State, s: Step) {
    match s
    case NextToken => r.current.None?
    case Begin(_) => r.queue != [] && !r.queue[0].Read? && r.queue[0].path !in r.cache
    case _ => false
  }

  ghost function Do(r: State, s: Step): State
    requires Enabled(r, s) && !Panics(r, s)
  {
    match s
    case NextToken => OnToken(r)
    case Finish => OnFinish(r)
    case Begin(contents) => OnBegin(r, contents)
    case Refresh(actions, _) => OnRefresh(r, actions)
  }

  lemma NetSnoc(results: seq<ReadResult>, e: ReadResult, p: Path, t: Token)
    ensures Net(results + [e], p, t) ==
            Net(results, p, t) + if e.Data? && e.path == p && e.token == t then (if e.event == Inserting then 1 else -1) else 0
  {
    assert (results + [e])[..|results|] == results;
  }

  lemma TokenInv(r: State)
    requires Inv(r) && r.pending != []
    ensures Inv(OnToken(r))
  {
    var r' := OnToken(r);
    assert r.pending == [r.pending[0]] + r'.pending;
    if r.cfg.DeletionsEnabled() {
      forall p: Path, t: Token ensures Balance(r', p, t) {
        assert Balance(r, p, t);
        NetSnoc(r.results, r'.results[|r.results|], p, t);
      }
    }
  }

  predicate Finishing(r: State, r': State, e: ReadResult) {
    r'.cfg == r.cfg && r'.restored == r.restored && r'.cache == r.cache && r'.current.None? && r'.results == r.results + [e]
  }

  lemma FinishFields(r: State) returns (e: ReadResult)
    requires r.current.Some? && r.cfg.DeletionsEnabled()
    ensures e.FinishedSource? && Finishing(r, OnFinish(r), e)
  {
    e := OnFinish(r).results[|r.results|];
  }

  lemma BalanceKept(r: State, r': State, p: Path, t: Token)
    requires r'.cfg == r.cfg && r'.restored == r.restored && r'.cache == r.cache
    requires Net(r'.results, p, t) == Net(r.results, p, t) && Owed(r', p, t) == Owed(r, p, t)
    requires Balance(r, p, t)
    ensures Balance(r', p, t)
  {
  }

  lemma FinishBalance(r: State, r': State, e: ReadResult, p: Path, t: Token)
    requires r.pending == [] && e.FinishedSource? && Finishing(r, r', e) && Balance(r, p, t)
    ensures Balance(r', p, t)
  {
    NetSnoc(r.results, e, p, t);
    assert CountToken(r.pending, t) == 0;
    BalanceKept(r, r', p, t);
  }

  lemma FinishInv(r: State)
    requires Inv(r) && r.pending == [] && r.current.Some?
    ensures Inv(OnFinish(r))
  {
    if r.cfg.DeletionsEnabled() {
      var e := FinishFields(r);
      var r' := OnFinish(r);
      forall p: Path, t: Token ensures Balance(r', p, t) {
        assert Balance(r, p, t);
        FinishBalance(r, r', e, p, t);
      }
    }
  }

  lemma BeginReadInv(r: State, contents: Option<seq<Byte>>)
    requires Inv(r) && Enabled(r, Begin(contents)) && r.queue[0].Read?
    ensures QueueOk(OnBegin(r, contents)) && ActionOk(OnBegin(r, contents))
  {
    var r' := OnBegin(r, contents);
    assert forall i :: 0 <= i < |r'.queue| ==> r'.queue[i] == r.queue[i + 1];
  }

  lemma BeginUndoInv(r: State)
    requires Inv(r) && Enabled(r, Begin(None)) && !r.queue[0].Read?
    ensures QueueOk(OnBegin(r, None)) && ActionOk(OnBegin(r, None))
  {
    var r' := OnBegin(r, None);
    assert forall i :: 0 <= i < |r'.queue| ==> r'.queue[i] == r.queue[i + 1];
  }

  /** A started action owes exactly the difference it makes to the cache. */
  lemma StartedOwes(r: State, contents: Option<seq<Byte>>, t: Token)
    requires QueueOk(r) && Enabled(r, Begin(contents)) && r.cfg.DeletionsEnabled()
    requires r.queue[0].Read? ==> r.cfg.onlyMetadata || contents.Some?
    ensures var p := r.queue[0].path;
            Owed(OnBegin(r, contents), p, t) == InCache(OnBegin(r, contents), p, t) - InCache(r, p, t)
  {
    if r.queue[0].Read? {
      assert r.queue[0].path !in r.cache;
    } else {
      assert r.queue[0].path in r.cache;
    }
  }

  lemma BeginBalance(r: State, contents: Option<seq<Byte>>, p: Path, t: Token)
    requires QueueOk(r) && Enabled(r, Begin(contents)) && r.cfg.DeletionsEnabled() && Balance(r, p, t)
    ensures Balance(OnBegin(r, contents), p, t)
  {
    var r' := OnBegin(r, contents);
    if r.queue[0].Read? && !r.cfg.onlyMetadata && contents.None? {
    } else {
      NetSnoc(r.results, r'.results[|r.results|], p, t);
      assert Held(r', p, t) == Held(r, p, t);
      if p == r.queue[0].path {
        StartedOwes(r, contents, t);
      } else {
        assert InCache(r', p, t) == InCache(r, p, t);
      }
    }
  }

  lemma BeginInv(r: State, contents: Option<seq<Byte>>)
    requires Inv(r) && Enabled(r, Begin(contents))
    ensures !Panics(r, Begin(contents)) && Inv(OnBegin(r, contents))
  {
    if r.queue[0].Read? {
      BeginReadInv(r, contents);
    } else {
      BeginUndoInv(r);
      assert OnBegin(r, contents) == OnBegin(r, None);
    }
    if r.cfg.DeletionsEnabled() {
      forall p: Path, t: Token ensures Balance(OnBegin(r, contents), p, t) {
        assert Balance(r, p, t);
        BeginBalance(r, contents, p, t);
      }
    }
  }

  lemma RefreshInv(r: State, actions: seq<QueuedAction>, hasPending: bool)
    requires Inv(r) && Enabled(r, Refresh(actions, hasPending))
    ensures Inv(OnRefresh(r, actions))
  {
    var r' := OnRefresh(r, actions);
    assert r'.queue == actions;
    if r.cfg.DeletionsEnabled() {
      forall p: Path, t: Token ensures Balance(r', p, t) {
        assert Balance(r, p, t);
        BalanceKept(r, r', p, t);
      }
    }
  }

  lemma StepInv(r: State, s: Step)
    requires Inv(r) && Enabled(r, s)
    ensures !Panics(r, s) && Inv(Do(r, s)) && Do(r, s).cfg == r.cfg
  {
    match s
    case NextToken => TokenInv(r);
    case Finish => FinishInv(r);
    case Begin(contents) => BeginInv(r, contents);
    case Refresh(actions, hasPending) => RefreshInv(r, actions, hasPending);
  }

  // ----- runs

  ghost predicate CanDo(r: State, s: Step) {
    Enabled(r, s) && !Panics(r, s)
  }

  ghost predicate LegalRun(r: State, ss: seq<Step>)
    decreases |ss|, 0
  {
    ss == [] || (LegalRun(r, ss[..|ss| - 1]) && CanDo(Exec(r, ss[..|ss| - 1]), ss[|ss| - 1]))
  }

  ghost function Exec(r: State, ss: seq<Step>): State
    requires LegalRun(r, ss)
    decreases |ss|, 1
  {
    if ss == [] then r else Do(Exec(r, ss[..|ss| - 1]), ss[|ss| - 1])
  }

  /** A reader that has just been built or positioned: nothing was emitted and the restored rows are the cached objects'. */
  ghost predicate Init(r: State) {
    r.pending == [] && r.current.None? && r.results == [] && r.restored == r.cache && QueueOk(r)
  }

  lemma InitInv(r: State)
    requires Init(r)
    ensures Inv(r)
  {
    forall p: Path, t: Token ensures Balance(r, p, t) {}
  }

  lemma {:induction false} ReachableInv(r: State, ss: seq<Step>)
    requires Inv(r) && LegalRun(r, ss)
    ensures Inv(Exec(r, ss)) && Exec(r, ss).cfg == r.cfg
    decreases |ss|
  {
    if ss == [] {
    } else {
      ReachableInv(r, ss[..|ss| - 1]);
      StepInv(Exec(r, ss[..|ss| - 1]), ss[|ss| - 1]);
    }
  }

  lemma Extend(r: State, ss: seq<Step>, s: Step)
    requires LegalRun(r, ss) && CanDo(Exec(r, ss), s)
    ensures LegalRun(r, ss + [s]) && Exec(r, ss + [s]) == Do(Exec(r, ss), s)
  {
    assert (ss + [s])[..|ss|] == ss;
  }

  /** The copy of an object to undo is always cached: whatever the reader may do next, it does without a panic. */
  lemma NeverPanics(r: State, ss: seq<Step>, s: Step)
    requires Init(r) && LegalRun(r, ss) && Enabled(Exec(r, ss), s)
    ensures !Panics(Exec(r, ss), s) && LegalRun(r, ss + [s])
  {
    InitInv(r);
    ReachableInv(r, ss);
    StepInv(Exec(r, ss), s);
    Extend(r, ss, s);
  }

  /** Whenever no action is in progress, what the engine holds is exactly the entries of the cached objects. */
  lemma ReaderAgreesWithCache(r: State, ss: seq<Step>, p: Path, t: Token)
    requires Init(r) && LegalRun(r, ss) && (r.cfg.persisted || r.cfg.polling) && Exec(r, ss).current.None?
    ensures Held(Exec(r, ss), p, t) == InCache(Exec(r, ss), p, t)
  {
    InitInv(r);
    ReachableInv(r, ss);
    assert Balance(Exec(r, ss), p, t);
  }

  lemma CachedOnce(x: State, p: Path, t: Token)
    ensures InCache(x, p, t) <= 1
  {
    if p in x.cache { TokensAreDistinct(x.cfg.readMethod, x.cache[p].contents, t); }
  }

  lemma SuffixCounts(s: seq<Token>, all: seq<Token>, t: Token)
    requires IsSuffix(s, all)
    ensures CountToken(s, t) <= CountToken(all, t)
  {
    assert all == all[..|all| - |s|] + s;
  }

  /** An insertion still owed is of a cached entry, and while retractions are owed nothing of the object is cached. */
  lemma OwedFitsCache(x: State, p: Path, t: Token)
    requires ActionOk(x) && x.cfg.DeletionsEnabled()
    ensures Owed(x, p, t) <= InCache(x, p, t)
    ensures x.current.Some? && x.current.value.path == p && !x.current.value.Read? ==>
              InCache(x, p, t) == 0 && Owed(x, p, t) == 0 - CountToken(x.pending, t)
    ensures !(x.current.Some? && x.current.value.path == p && !x.current.value.Read?) ==> Owed(x, p, t) >= 0
  {
    if x.current.Some? && x.current.value.Read? && x.current.value.path == p {
      SuffixCounts(x.pending, Tokens(x.cfg.readMethod, x.cache[p].contents), t);
    }
  }

  lemma HeldInRange(x: State, p: Path, t: Token)
    requires Inv(x) && x.cfg.DeletionsEnabled() && Increasing(x.pending)
    ensures 0 <= Held(x, p, t) <= 1
    ensures x.event == Deleting && x.pending != [] && x.pending[0] == t && x.current.value.path == p ==> Held(x, p, t) == 1
  {
    assert Balance(x, p, t);
    CachedOnce(x, p, t);
    DistinctPositions(x.pending, t);
    OwedFitsCache(x, p, t);
  }

  lemma StepPending(r: State, s: Step)
    requires CanDo(r, s) && Increasing(r.pending)
    ensures Increasing(Do(r, s).pending)
  {
    if s.Begin? {
      var a := r.queue[0];
      if !a.Read? {
        TokensIncrease(r.cfg.readMethod, r.cache[a.path].contents);
      } else {
        TokensIncrease(r.cfg.readMethod, if r.cfg.onlyMetadata || s.contents.None? then [] else s.contents.value);
      }
    }
  }

  /** What is pending is in the order of its positions. */
  lemma {:induction false} PendingIncreases(r: State, ss: seq<Step>)
    requires Init(r) && LegalRun(r, ss)
    ensures Increasing(Exec(r, ss).pending)
    decreases |ss|
  {
    if ss == [] {
    } else {
      PendingIncreases(r, ss[..|ss| - 1]);
      StepPending(Exec(r, ss[..|ss| - 1]), ss[|ss| - 1]);
    }
  }

  /** At every moment an entry is held at most once, and one about to be retracted is held: each retraction cancels one row. */
  lemma RetractionsCancelOneRow(r: State, ss: seq<Step>, p: Path, t: Token)
    requires Init(r) && LegalRun(r, ss) && (r.cfg.persisted || r.cfg.polling)
    ensures 0 <= Held(Exec(r, ss), p, t) <= 1
    ensures var x := Exec(r, ss);
            x.event == Deleting && x.pending != [] && x.pending[0] == t && x.current.value.path == p ==> Held(x, p, t) == 1
  {
    InitInv(r);
    ReachableInv(r, ss);
    PendingIncreases(r, ss);
    HeldInRange(Exec(r, ss), p, t);
  }

  /** The entries that rows of object `p` can come from. */
  function Listed(x: State, p: Path): seq<Token> {
    if p in x.cache then Tokens(x.cfg.readMethod, x.cache[p].contents) else x.pending
  }

  lemma HeldIsListed(x: State, p: Path, t: Token)
    requires Inv(x) && x.cfg.DeletionsEnabled() && Held(x, p, t) > 0
    ensures t in Listed(x, p)
  {
    assert Balance(x, p, t);
    assert t in multiset(Listed(x, p));
  }

  lemma PositionsDiffer(ts: seq<Token>, t: Token, u: Token)
    requires Increasing(ts) && t in ts && u in ts && t != u
    ensures t.position != u.position
  {
    var i, j :| 0 <= i < |ts| && 0 <= j < |ts| && ts[i] == t && ts[j] == u;
  }

  /** Rows of one object held together always have different positions, so their keys differ. */
  lemma HeldPositionsDiffer(r: State, ss: seq<Step>, p: Path, t: Token, u: Token)
    requires Init(r) && LegalRun(r, ss) && (r.cfg.persisted || r.cfg.polling)
    requires t != u && Held(Exec(r, ss), p, t) > 0 && Held(Exec(r, ss), p, u) > 0
    ensures t.position != u.position
  {
    InitInv(r);
    ReachableInv(r, ss);
    PendingIncreases(r, ss);
    var x := Exec(r, ss);
    HeldIsListed(x, p, t);
    HeldIsListed(x, p, u);
    if p in x.cache { TokensIncrease(x.cfg.readMethod, x.cache[p].contents); }
    PositionsDiffer(Listed(x, p), t, u);
  }

  // ----- an update of an object

  function Datas(event: EventType, p: Path, ts: seq<Token>, total: nat): seq<ReadResult> {
    if ts == [] then [] else [Data(event, p, ts[0], total + 1)] + Datas(event, p, ts[1..], total + 1)
  }

  lemma {:induction false} DatasSnoc(event: EventType, p: Path, ts: seq<Token>, total: nat)
    requires ts != []
    ensures Datas(event, p, ts, total) ==
            Datas(event, p, ts[..|ts| - 1], total) + [Data(event, p, ts[|ts| - 1], total + |ts|)]
    decreases |ts|
  {
    var n := |ts| - 1;
    if n > 0 {
      DatasSnoc(event, p, ts[1..], total + 1);
      assert ts[1..][..n - 1] == ts[..n][1..];
    }
  }

  /** What the reader returns while it replaces one version of an object by another. */
  function UpdateResults(p: Path, before: seq<Token>, after: seq<Token>, oldMeta: Metadata, newMeta: Metadata, total: nat): seq<ReadResult> {
    [NewSource(oldMeta)] + Datas(Deleting, p, before, total) + [FinishedSource(Forbidden)] +
    [NewSource(newMeta)] + Datas(Inserting, p, after, total + |before|) + [FinishedSource(Possible)]
  }

  /** The current object read to its end. */
  function Drained(r: State): State
    requires r.current.Some?
  {
    r.(pending := [], totalEntriesRead := r.totalEntriesRead + |r.pending|,
       results := r.results + Datas(r.event, r.current.value.path, r.pending, r.totalEntriesRead))
  }

  lemma DrainOne(r: State)
    requires r.current.Some? && r.pending != []
    ensures Drained(OnToken(r)) == Drained(r)
  {
    var p := r.current.value.path;
    var d := Data(r.event, p, r.pending[0], r.totalEntriesRead + 1);
    var rest := Datas(r.event, p, r.pending[1..], r.totalEntriesRead + 1);
    assert r.results + [d] + rest == r.results + ([d] + rest);
  }

  lemma {:induction false} DrainRun(r: State, ss: seq<Step>) returns (ss': seq<Step>)
    requires LegalRun(r, ss) && Exec(r, ss).current.Some?
    ensures LegalRun(r, ss') && Exec(r, ss') == Drained(Exec(r, ss))
    decreases |Exec(r, ss).pending|
  {
    var x := Exec(r, ss);
    if x.pending == [] {
      assert x.results + [] == x.results;
      ss' := ss;
    } else {
      Extend(r, ss, NextToken);
      ss' := DrainRun(r, ss + [NextToken]);
      DrainOne(x);
    }
  }

  /** Retracting the old version: the first three stages of an update. */
  lemma UndoEffect(r: State)
    requires Inv(r) && r.pending == [] && r.current.None? && r.queue != [] && r.queue[0].Update? && r.cfg.DeletionsEnabled()
    ensures var p, m := r.queue[0].path, r.queue[0].metadata;
            var before := Tokens(r.cfg.readMethod, r.cache[p].contents);
            OnFinish(Drained(OnBegin(r, None))) ==
              r.(cache := r.cache - {p}, event := Deleting, queue := [Read(p, m)] + r.queue[1..],
                 totalEntriesRead := r.totalEntriesRead + |before|,
                 results := r.results + [NewSource(r.cache[p].metadata)] + Datas(Deleting, p, before, r.totalEntriesRead)
                            + [FinishedSource(Forbidden)])
  {
  }

  /** Reading the new version: the last three stages. */
  lemma RedoEffect(r: State, contents: seq<Byte>)
    requires r.pending == [] && r.current.None? && r.queue != [] && r.queue[0].Read?
    requires r.cfg.DeletionsEnabled() && !r.cfg.onlyMetadata
    ensures var p, m := r.queue[0].path, r.queue[0].metadata;
            var x := OnFinish(Drained(OnBegin(r, Some(contents))));
            && x.results == r.results + [NewSource(m)] + Datas(Inserting, p, Tokens(r.cfg.readMethod, contents), r.totalEntriesRead)
                            + [FinishedSource(Possible)]
            && x.cache == r.cache[p := Object(contents, m)] && x.current.None? && x.queue == r.queue[1..]
  {
  }

  lemma SevenParts<T>(a: seq<T>, b: seq<T>, c: seq<T>, d: seq<T>, e: seq<T>, f: seq<T>, g: seq<T>)
    ensures a + b + c + d + e + f + g == a + (b + c + d + e + f + g)
  {
  }

  lemma ResultsAppend(results: seq<ReadResult>, p: Path, before: seq<Token>, after: seq<Token>, oldMeta: Metadata, newMeta: Metadata, total: nat)
    ensures results + [NewSource(oldMeta)] + Datas(Deleting, p, before, total) + [FinishedSource(Forbidden)]
                    + [NewSource(newMeta)] + Datas(Inserting, p, after, total + |before|) + [FinishedSource(Possible)]
            == results + UpdateResults(p, before, after, oldMeta, newMeta, total)
  {
    SevenParts(results, [NewSource(oldMeta)], Datas(Deleting, p, before, total), [FinishedSource(Forbidden)],
               [NewSource(newMeta)], Datas(Inserting, p, after, total + |before|), [FinishedSource(Possible)]);
  }

  /** The six stages of an update, composed. */
  lemma UpdateEffect(r: State, contents: seq<Byte>)
    requires Inv(r) && r.pending == [] && r.current.None? && r.queue != [] && r.queue[0].Update?
    requires r.cfg.DeletionsEnabled() && !r.cfg.onlyMetadata
    ensures var p, m := r.queue[0].path, r.queue[0].metadata;
            var x := OnFinish(Drained(OnBegin(OnFinish(Drained(OnBegin(r, None))), Some(contents))));
            && x.results == r.results + UpdateResults(p, Tokens(r.cfg.readMethod, r.cache[p].contents),
                                                      Tokens(r.cfg.readMethod, contents), r.cache[p].metadata, m, r.totalEntriesRead)
            && x.cache == r.cache[p := Object(contents, m)] && x.current.None? && x.queue == r.queue[1..]
  {
    var p, m := r.queue[0].path, r.queue[0].metadata;
    UndoEffect(r);
    var r2 := OnFinish(Drained(OnBegin(r, None)));
    RedoEffect(r2, contents);
    assert (r.cache - {p})[p := Object(contents, m)] == r.cache[p := Object(contents, m)];
    ResultsAppend(r.results, p, Tokens(r.cfg.readMethod, r.cache[p].contents), Tokens(r.cfg.readMethod, contents),
                  r.cache[p].metadata, m, r.totalEntriesRead);
  }

  /** An update runs to its end: the old version is retracted, the new one inserted, and the cache holds the new one. */
  lemma UpdateRun(r: State, contents: seq<Byte>) returns (ss: seq<Step>)
    requires Inv(r) && r.pending == [] && r.current.None? && r.queue != [] && r.queue[0].Update?
    requires r.cfg.DeletionsEnabled() && !r.cfg.onlyMetadata
    ensures LegalRun(r, ss)
    ensures var p, m := r.queue[0].path, r.queue[0].metadata;
            var x := Exec(r, ss);
            && x.results == r.results + UpdateResults(p, Tokens(r.cfg.readMethod, r.cache[p].contents),
                                                      Tokens(r.cfg.readMethod, contents), r.cache[p].metadata, m, r.totalEntriesRead)
            && x.cache == r.cache[p := Object(contents, m)] && x.current.None? && x.queue == r.queue[1..]
  {
    var p, m := r.queue[0].path, r.queue[0].metadata;
    Extend(r, [], Begin(None));
    var ss1 := DrainRun(r, [] + [Begin(None)]);
    Extend(r, ss1, Finish);
    var ss2 := ss1 + [Finish];
    ReachableInv(r, ss2);
    Extend(r, ss2, Begin(Some(contents)));
    var ss3 := DrainRun(r, ss2 + [Begin(Some(contents))]);
    Extend(r, ss3, Finish);
    ss := ss3 + [Finish];
    UpdateEffect(r, contents);
  }
}
