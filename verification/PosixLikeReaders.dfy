/** The mutable reader: `read`, the loop of `next_scanner_action`, and `seek`. */
module PosixLikeReaders {
  import opened Wrappers
  import opened Tokenizer
  import opened PosixReader
  import opened PosixProgress

  /** One answer of the scanner: its proposed actions and whether it has more of them. */
  datatype Round = Round(actions: seq<QueuedAction>, hasPending: bool)

  /** `Waiting` stands for a reader that keeps polling: the answers given to the call are used up. */
  datatype Outcome = Returned(result: ReadResult) | Finished | Waiting

  /** The offset kept for a POSIX-like source; `stable` is the cache at the recorded version. */
  datatype OffsetValue =
    | PosixLikeOffset(totalEntriesRead: nat, path: Path, stable: Option<map<Path, Object>>)
    | OtherOffset

  /** The action queued by `seek` for the last object read. */
  function Reread(cfg: Config, cache: map<Path, Object>, path: Path, actual: Option<Metadata>): seq<QueuedAction> {
    if path !in cache || !cfg.DeletionsEnabled() then []
    else match actual
         case None => [QueuedAction.Delete(path)]
         case Some(m) => if m != cache[path].metadata then [Update(path, m)] else []
  }

  /** Without its cache a reader is in a good state exactly when nothing queued needs a cached copy. */
  lemma ForgottenCache(r: State)
    requires Init(r)
    ensures var r' := r.(cache := map[], restored := map[]);
            Inv(r') && Init(r') <==> forall a :: a in r.queue ==> a.Read?
  {
    var r' := r.(cache := map[], restored := map[]);
    if forall a :: a in r.queue ==> a.Read? {
      assert QueueOk(r');
      InitInv(r');
    }
    if Init(r') {
      forall a | a in r.queue ensures a.Read? {
        var i :| 0 <= i < |r.queue| && r.queue[i] == a;
        assert r'.queue[i] == a;
      }
    }
  }

  /** Taking one more enabled step keeps the run legal and the state good. */
  lemma Advance(r: State, ss: seq<Step>, s: Step)
    requires Inv(r) && LegalRun(r, ss) && Enabled(Exec(r, ss), s)
    ensures LegalRun(r, ss + [s]) && CanDo(Exec(r, ss), s) && Exec(r, ss + [s]) == Do(Exec(r, ss), s) && Inv(Exec(r, ss + [s]))
  {
    ReachableInv(r, ss);
    StepInv(Exec(r, ss), s);
    Extend(r, ss, s);
    ReachableInv(r, ss + [s]);
  }

  /** What the scanner answers when it is asked for an object. */
  function Lookup(objects: map<Path, seq<Byte>>, p: Path): Option<seq<Byte>> {
    if p in objects then Some(objects[p]) else None
  }

  /** Every action begun was given what the scanner can read. */
  ghost predicate Truthful(r: State, ss: seq<Step>, objects: map<Path, seq<Byte>>)
    requires LegalRun(r, ss)
    decreases |ss|
  {
    ss == [] ||
    (Truthful(r, ss[..|ss| - 1], objects) &&
     (ss[|ss| - 1].Begin? ==> ss[|ss| - 1].contents == Lookup(objects, Exec(r, ss[..|ss| - 1]).queue[0].path)))
  }

  function RoundActions(rounds: seq<Round>): seq<QueuedAction> {
    if rounds == [] then [] else RoundActions(rounds[..|rounds| - 1]) + rounds[|rounds| - 1].actions
  }

  /** A call took the reader from `r` to `x` by the run `ss`, in which it took over the answers of the first `used` rounds. */
  ghost predicate Called(r: State, x: State, ss: seq<Step>, objects: map<Path, seq<Byte>>, rounds: seq<Round>, used: nat) {
    && used <= |rounds| && LegalRun(r, ss) && x == Exec(r, ss)
    && Truthful(r, ss, objects) && Proposed(ss) == RoundActions(rounds[..used])
  }

  lemma CalledStart(r: State, objects: map<Path, seq<Byte>>, rounds: seq<Round>)
    ensures Called(r, r, [], objects, rounds, 0)
  {
  }

  lemma ProposedSnoc(ss: seq<Step>, s: Step)
    ensures Proposed(ss + [s]) == if s.Refresh? then Proposed(ss) + s.actions else Proposed(ss)
  {
    assert (ss + [s])[..|ss|] == ss;
  }

  lemma TruthfulSnoc(r: State, ss: seq<Step>, s: Step, objects: map<Path, seq<Byte>>)
    requires LegalRun(r, ss) && LegalRun(r, ss + [s]) && Truthful(r, ss, objects)
    requires s.Begin? ==> Exec(r, ss).queue != [] && s.contents == Lookup(objects, Exec(r, ss).queue[0].path)
    ensures Truthful(r, ss + [s], objects)
  {
    assert (ss + [s])[..|ss|] == ss;
  }

  lemma CalledQuiet(r: State, x: State, ss: seq<Step>, s: Step, objects: map<Path, seq<Byte>>, rounds: seq<Round>, used: nat)
    requires Inv(r) && Called(r, x, ss, objects, rounds, used) && Enabled(x, s) && !s.Begin? && !s.Refresh?
    ensures CanDo(x, s) && Called(r, Do(x, s), ss + [s], objects, rounds, used) && Inv(Do(x, s))
  {
    Advance(r, ss, s);
    ProposedSnoc(ss, s);
    TruthfulSnoc(r, ss, s, objects);
  }

  lemma CalledBegin(r: State, x: State, ss: seq<Step>, contents: Option<seq<Byte>>,
                    objects: map<Path, seq<Byte>>, rounds: seq<Round>, used: nat)
    requires Inv(r) && Called(r, x, ss, objects, rounds, used) && Enabled(x, Begin(contents))
    requires contents == Lookup(objects, x.queue[0].path)
    ensures CanDo(x, Begin(contents)) && Inv(Do(x, Begin(contents)))
    ensures Called(r, Do(x, Begin(contents)), ss + [Begin(contents)], objects, rounds, used)
  {
    Advance(r, ss, Begin(contents));
    ProposedSnoc(ss, Begin(contents));
    TruthfulSnoc(r, ss, Begin(contents), objects);
  }

  lemma CalledRefresh(r: State, x: State, ss: seq<Step>, objects: map<Path, seq<Byte>>, rounds: seq<Round>, used: nat)
    requires Inv(r) && Called(r, x, ss, objects, rounds, used) && used < |rounds|
    requires Enabled(x, Refresh(rounds[used].actions, rounds[used].hasPending))
    ensures var s := Refresh(rounds[used].actions, rounds[used].hasPending);
            CanDo(x, s) && Inv(Do(x, s)) && Called(r, Do(x, s), ss + [s], objects, rounds, used + 1)
  {
    var s := Refresh(rounds[used].actions, rounds[used].hasPending);
    Advance(r, ss, s);
    ProposedSnoc(ss, s);
    TruthfulSnoc(r, ss, s, objects);
    assert rounds[..used + 1][..used] == rounds[..used];
  }

  class PosixLikeReader {
    const cfg: Config
    const tokenizer: BufReaderTokenizer
    var event: EventType
    var currentAction: Option<QueuedAction>
    var scannerActionsQueue: seq<QueuedAction>
    var cachedObjectStorage: map<Path, Object>
    var totalEntriesRead: nat
    var hadQueueRefresh: bool
    ghost var results: seq<ReadResult>
    ghost var restored: map<Path, Object>

    ghost function View(): State
      reads this, tokenizer
    {
      State(cfg, event, tokenizer.Pending(), currentAction, scannerActionsQueue, cachedObjectStorage,
            totalEntriesRead, hadQueueRefresh, results, restored)
    }

    ghost predicate Valid()
      reads this, tokenizer
    {
      tokenizer.readMethod == cfg.readMethod && Inv(View())
    }

    constructor (cfg: Config)
      ensures Valid() && Init(View()) && View().cfg == cfg && View().cache == map[] && View().queue == []
      ensures fresh(tokenizer)
    {
      this.cfg := cfg;
      tokenizer := new BufReaderTokenizer(cfg.readMethod);
      event, currentAction, scannerActionsQueue, cachedObjectStorage := Inserting, None, [], map[];
      totalEntriesRead, hadQueueRefresh := 0, false;
      results, restored := [], map[];
      new;
      InitInv(View());
    }

    /** `seek`: resume from a persisted offset, re-reading or removing the last object if it changed meanwhile. */
    method Seek(offset: Option<OffsetValue>, actual: Option<Metadata>)
      requires Valid() && Init(View())
      modifies this
      ensures View().pending == old(View()).pending
      ensures offset.Some? ==> Valid() && Init(View())
      ensures offset.None? ==> View() == old(View()).(cache := map[], restored := map[])
      ensures offset.None? ==> (Valid() && Init(View()) <==> forall a :: a in old(scannerActionsQueue) ==> a.Read?)
      ensures offset == Some(OtherOffset) ==> View() == old(View())
      ensures offset.Some? && offset.value.PosixLikeOffset? ==>
                && totalEntriesRead == offset.value.totalEntriesRead
                && View().cache == (if offset.value.stable.Some? then offset.value.stable.value else old(View()).cache)
                && View().queue == Reread(cfg, View().cache, offset.value.path, actual)
      ensures offset.Some? && offset.value.PosixLikeOffset? ==>
                var path := offset.value.path;
                if path !in View().cache || !(cfg.persisted || cfg.polling) then View().queue == []
                else if actual.None? then View().queue == [QueuedAction.Delete(path)]
                else if actual.value != View().cache[path].metadata then View().queue == [Update(path, actual.value)]
                else View().queue == []
    {
      InitInv(View());
      if offset.None? {
        cachedObjectStorage := map[];
        restored := map[];
      } else if offset.value.PosixLikeOffset? {
        var path := offset.value.path;
        if offset.value.stable.Some? { cachedObjectStorage := offset.value.stable.value; }
        restored := cachedObjectStorage;
        currentAction, scannerActionsQueue := None, [];
        if path in cachedObjectStorage {
          if actual.Some? {
            if actual.value != cachedObjectStorage[path].metadata && cfg.DeletionsEnabled() {
              scannerActionsQueue := [Update(path, actual.value)];
            }
          } else if cfg.DeletionsEnabled() {
            scannerActionsQueue := [QueuedAction.Delete(path)];
          }
        }
        totalEntriesRead := offset.value.totalEntriesRead;
      }
      if offset.None? {
        ForgottenCache(old(View()));
      } else {
        InitInv(View());
      }
    }

    /** Emits the entry just taken from the tokenizer. */
    method EmitEntry(ghost r: State, entry: Token) returns (result: ReadResult)
      requires r.pending != [] && r.current.Some? && entry == r.pending[0] && View() == r.(pending := r.pending[1..])
      modifies this
      ensures View() == OnToken(r) && results == r.results + [result]
    {
      totalEntriesRead := totalEntriesRead + 1;
      result := Data(event, currentAction.value.path, entry, totalEntriesRead);
      results := results + [result];
    }

    /** One call of `read`; `objects` is what the scanner can read, `rounds` its successive answers. */
    method Read(objects: map<Path, seq<Byte>>, rounds: seq<Round>) returns (outcome: Outcome, ghost steps: seq<Step>, ghost used: nat)
      requires Valid()
      requires forall k :: 0 <= k < |rounds| ==> ScannerContract(cfg.DeletionsEnabled(), cachedObjectStorage, rounds[k].actions)
      modifies this, tokenizer
      ensures Valid() && Called(old(View()), View(), steps, objects, rounds, used)
      ensures outcome.Returned? ==> results == old(results) + [outcome.result]
      ensures !outcome.Returned? ==> results == old(results)
      ensures !outcome.Returned? ==> View().pending == [] && currentAction.None? && scannerActionsQueue == []
      ensures outcome.Finished? ==> !cfg.polling && hadQueueRefresh && used < |rounds| && !rounds[used].hasPending
      ensures outcome.Waiting? ==> used == |rounds|
    {
      ghost var r := View();
      CalledStart(r, objects, rounds);
      var entry := tokenizer.NextEntry();
      if entry.Some? {
        CalledQuiet(r, r, [], NextToken, objects, rounds, 0);
        var result := EmitEntry(r, entry.value);
        return Returned(result), [] + [NextToken], 0;
      }
      if currentAction.Some? {
        CalledQuiet(r, r, [], Finish, objects, rounds, 0);
        var result := FinishCurrentAction();
        return Returned(result), [] + [Finish], 0;
      }
      outcome, steps, used := NextScannerAction(objects, rounds);
    }

    /** The first half of `next_scanner_action`: finalize the ongoing action. */
    method FinishCurrentAction() returns (result: ReadResult)
      requires currentAction.Some?
      modifies this
      ensures View() == OnFinish(old(View())) && results == old(results) + [result]
    {
      var action := currentAction.value;
      currentAction := None;
      match action {
        case Delete(_) => result := FinishedSource(Possible);
        case Update(path, metadata) =>
          scannerActionsQueue := [QueuedAction.Read(path, metadata)] + scannerActionsQueue;
          result := FinishedSource(Forbidden);
        case Read(path, _) =>
          if !cfg.persisted && !cfg.DeletionsEnabled() { cachedObjectStorage := cachedObjectStorage - {path}; }
          result := FinishedSource(Possible);
      }
      results := results + [result];
    }

    /** The loop of `next_scanner_action`. */
    method NextScannerAction(objects: map<Path, seq<Byte>>, rounds: seq<Round>) returns (outcome: Outcome, ghost steps: seq<Step>, ghost used: nat)
      requires Valid() && View().pending == [] && currentAction.None?
      requires forall k :: 0 <= k < |rounds| ==> ScannerContract(cfg.DeletionsEnabled(), cachedObjectStorage, rounds[k].actions)
      modifies this, tokenizer
      ensures Valid() && Called(old(View()), View(), steps, objects, rounds, used)
      ensures outcome.Returned? ==> results == old(results) + [outcome.result]
      ensures !outcome.Returned? ==> results == old(results)
      ensures !outcome.Returned? ==> View().pending == [] && currentAction.None? && scannerActionsQueue == []
      ensures outcome.Finished? ==> !cfg.polling && hadQueueRefresh && used < |rounds| && !rounds[used].hasPending
      ensures outcome.Waiting? ==> used == |rounds|
    {
      ghost var r := View();
      steps, used := [], 0;
      CalledStart(r, objects, rounds);
      var k := 0;
      while true
        invariant used == k <= |rounds|
        invariant Valid() && Called(r, View(), steps, objects, rounds, used)
        invariant View().pending == [] && currentAction.None? && results == old(results)
        invariant cachedObjectStorage == old(cachedObjectStorage)
        decreases |rounds| - k, |scannerActionsQueue|
      {
        if scannerActionsQueue != [] {
          var action := scannerActionsQueue[0];
          var contents := if action.path in objects then Some(objects[action.path]) else None;
          CalledBegin(r, View(), steps, contents, objects, rounds, used);
          steps := steps + [Begin(contents)];
          var started, result := BeginAction(action, contents);
          if started { return Returned(result), steps, used; }
        } else if k < |rounds| && (cfg.polling || !hadQueueRefresh || rounds[k].hasPending) {
          CalledRefresh(r, View(), steps, objects, rounds, used);
          steps := steps + [Refresh(rounds[k].actions, rounds[k].hasPending)];
          hadQueueRefresh := true;
          scannerActionsQueue := scannerActionsQueue + rounds[k].actions;
          k, used := k + 1, used + 1;
        } else if k < |rounds| {
          return Finished, steps, used;
        } else {
          return Waiting, steps, used;
        }
      }
    }

    /** The body of the loop for one queued action. */
    method BeginAction(action: QueuedAction, contents: Option<seq<Byte>>) returns (started: bool, result: ReadResult)
      requires tokenizer.readMethod == cfg.readMethod
      requires scannerActionsQueue != [] && scannerActionsQueue[0] == action
      requires !action.Read? ==> action.path in cachedObjectStorage
      modifies this, tokenizer
      ensures View() == OnBegin(old(View()), contents)
      ensures started ==> results == old(results) + [result]
      ensures !started ==> View() == old(View()).(queue := old(scannerActionsQueue)[1..])
    {
      scannerActionsQueue := scannerActionsQueue[1..];
      match action {
        case Read(path, metadata) =>
          if !cfg.onlyMetadata && contents.None? { return false, NewSource(metadata); }
          var body := if cfg.onlyMetadata then [] else contents.value;
          var forCaching := if cfg.DeletionsEnabled() then body else [];
          cachedObjectStorage := cachedObjectStorage[path := Object(forCaching, metadata)];
          tokenizer.SetNewReader(body);
          event := Inserting;
          result := NewSource(metadata);
        case _ =>
          var cached := cachedObjectStorage[action.path];
          cachedObjectStorage := cachedObjectStorage - {action.path};
          tokenizer.SetNewReader(cached.contents);
          event := Deleting;
          result := NewSource(cached.metadata);
      }
      currentAction := Some(action);
      results := results + [result];
      started := true;
    }
  }
}
