/** The mutable group: the loops and field updates behind the functions of `SyncGroup` and `TimeBarrier`. */
module ConnectorGroups {
  import opened Wrappers
  import opened Masks
  import opened SyncGroup
  import opened TimeBarrier

  datatype Result<+T> = Ok(value: T) | WorkerSetTooLarge(limit: nat)

  /** One source of the group.  It is owned by the group's vector, so its updates are modelled as new values. */
  datatype TrackedSource = TrackedSource(
    nextProposedValue: Option<int>,
    lastReportedValue: Option<int>,
    numberOfReaderWorkers: nat,
    priority: nat,
    idleMask: nat,
    completedMask: nat,
    fullMask: nat)
  {
    ghost predicate Valid() {
      && numberOfReaderWorkers <= 64
      && IsWord(idleMask) && IsWord(completedMask) && IsWord(fullMask)
      && Ids(fullMask) == Workers(numberOfReaderWorkers)
    }

    ghost function View(): Source {
      Source(nextProposedValue, lastReportedValue, priority, numberOfReaderWorkers, Ids(idleMask))
    }

    /** `register_new_reader_worker`, below the limit. */
    function RegisterNewReaderWorker(): (r: TrackedSource)
      requires Valid() && numberOfReaderWorkers < 64
      ensures r.Valid() && r.View() == View().(workers := numberOfReaderWorkers + 1)
    {
      PlusAdds(fullMask, numberOfReaderWorkers);
      this.(fullMask := fullMask + Pow2(numberOfReaderWorkers), numberOfReaderWorkers := numberOfReaderWorkers + 1)
    }

    function MaybeUpdateNextProposedValue(candidate: int): TrackedSource {
      if nextProposedValue.None? || nextProposedValue.value > candidate
      then this.(nextProposedValue := Some(candidate)) else this
    }

    function ReportIdleReaderWorker(w: nat): (r: TrackedSource)
      requires Valid() && w < 64
      ensures r.Valid() && r.View() == View().(idle := View().idle + {w})
    {
      OrAdds(idleMask, w);
      this.(idleMask := Or(idleMask, Pow2(w)))
    }

    function ReportActiveReaderWorker(w: nat): (r: TrackedSource)
      requires Valid() && w < 64
      ensures r.Valid() && r.View() == View().(idle := View().idle - {w})
    {
      AndNotRemoves(idleMask, w);
      this.(idleMask := AndNot(idleMask, Pow2(w)))
    }

    predicate IsIdle()
      requires Valid()
      ensures IsIdle() <==> View().Idle()
    {
      MaskEquality(idleMask, fullMask);
      nextProposedValue.None? && idleMask == fullMask
    }

    predicate ForceAdvancementIsDoneForWorker(w: nat)
      requires w < 64
      ensures ForceAdvancementIsDoneForWorker(w) <==> w in Ids(completedMask)
    {
      Bit(completedMask, w)
    }

    function MarkCompletedForceAdvancement(w: nat): (r: TrackedSource)
      requires Valid() && w < 64
      ensures r.Valid() && r.View() == View() && Ids(r.completedMask) == Ids(completedMask) + {w}
    {
      OrAdds(completedMask, w);
      this.(completedMask := Or(completedMask, Pow2(w)))
    }

    function ClearCompletedForceAdvancements(): (r: TrackedSource)
      requires Valid()
      ensures r.Valid() && r.View() == View() && Ids(r.completedMask) == {}
    {
      ZeroIsEmpty();
      this.(completedMask := 0)
    }

    predicate ForceAdvancementDoneInAllSources()
      requires Valid()
      ensures ForceAdvancementDoneInAllSources() <==> Ids(completedMask) == Workers(numberOfReaderWorkers)
    {
      MaskEquality(completedMask, fullMask);
      completedMask == fullMask
    }
  }

  function NewTrackedSource(priority: nat): (r: TrackedSource)
    ensures r.Valid() && r.View() == Source(None, None, priority, 0, {}) && Ids(r.completedMask) == {}
  {
    ZeroIsEmpty();
    TrackedSource(None, None, 0, priority, 0, 0, 0)
  }

  ghost function Views(ts: seq<TrackedSource>): (ss: seq<Source>)
    ensures |ss| == |ts| && forall i :: 0 <= i < |ts| ==> ss[i] == ts[i].View()
  {
    seq(|ts|, i requires 0 <= i < |ts| => ts[i].View())
  }

  ghost function Counts(ts: seq<TrackedSource>): (n: seq<nat>)
    ensures |n| == |ts| && forall i :: 0 <= i < |ts| ==> n[i] == ts[i].numberOfReaderWorkers
  {
    seq(|ts|, i requires 0 <= i < |ts| => ts[i].numberOfReaderWorkers)
  }

  ghost function DoneSets(ts: seq<TrackedSource>): (done: seq<set<nat>>)
    ensures |done| == |ts| && forall i :: 0 <= i < |ts| ==> done[i] == Ids(ts[i].completedMask)
  {
    seq(|ts|, i requires 0 <= i < |ts| => Ids(ts[i].completedMask))
  }

  ghost predicate AllValid(ts: seq<TrackedSource>) {
    forall i :: 0 <= i < |ts| ==> ts[i].Valid()
  }

  /** `higher_prioritized_source_is_behind_external`. */
  method HigherPrioritizedSourceIsBehind(sources: seq<TrackedSource>, candidate: int, sourcePriority: nat)
    returns (behind: bool)
    requires AllValid(sources)
    ensures behind <==> Behind(Views(sources), candidate, sourcePriority)
  {
    ghost var ss := Views(sources);
    for k := 0 to |sources|
      invariant forall i :: 0 <= i < k ==> !LagsBehind(ss[i], candidate, sourcePriority)
    {
      var other := sources[k];
      if !other.IsIdle() && other.priority > sourcePriority {
        match other.lastReportedValue {
          case None => assert LagsBehind(ss[k], candidate, sourcePriority); return true;
          case Some(value) =>
            if value < candidate { assert LagsBehind(ss[k], candidate, sourcePriority); return true; }
        }
      }
    }
    return false;
  }

  /** The body of the first loop. */
  method ScanOne(source: TrackedSource, d: int, isFirst: bool,
                 least: Option<int>, lrv: Option<int>, top: nat, all: bool)
    returns (isFirst': bool, least': Option<int>, lrv': Option<int>, top': nat, all': bool)
    requires source.Valid()
    ensures var s := source.View();
            && lrv' == Max(lrv, s.lrv)
            && if s.Idle() then (isFirst', least', top', all') == (isFirst, least, top, all)
               else && !isFirst' && least' == (if isFirst then s.Bound(d) else Min(least, s.Bound(d)))
                    && top' == (if top < s.priority then s.priority else top) && all' == (all && s.npv.Some?)
  {
    isFirst', least', top', all' := isFirst, least, top, all;
    lrv' := Max(lrv, source.lastReportedValue);
    if source.IsIdle() { return; }
    if top < source.priority { top' := source.priority; }
    var bound := if source.lastReportedValue.None? then None else Some(source.lastReportedValue.value + d);
    if source.nextProposedValue.None? { all' := false; }
    var sourceThreshold := Max(bound, source.nextProposedValue);
    if isFirst {
      least' := sourceThreshold;
      isFirst' := false;
    } else {
      least' := Min(least, sourceThreshold);
    }
  }

  /** The variables of the first loop after `k` sources. */
  ghost predicate ScannedTo(ss: seq<Source>, k: nat, d: int, isFirst: bool,
                            least: Option<int>, lrv: Option<int>, top: nat, all: bool)
    requires k <= |ss|
  {
    && (isFirst <==> !AnyActive(ss[..k]))
    && least == LeastBound(ss[..k], d) && lrv == MaxLrv(ss[..k])
    && top == MaxActive(ss[..k]) && (all <==> AllProposed(ss[..k]))
  }

  lemma LastProposed(ss: seq<Source>)
    requires ss != []
    ensures AllProposed(ss) <==> AllProposed(ss[..|ss| - 1]) && (ss[|ss| - 1].Idle() || ss[|ss| - 1].npv.Some?)
  {
    var n := |ss| - 1;
    if AllProposed(ss) {
      forall i | 0 <= i < n && !ss[..n][i].Idle() ensures ss[..n][i].npv.Some? { assert !ss[i].Idle(); }
    }
    if AllProposed(ss[..n]) && (ss[n].Idle() || ss[n].npv.Some?) {
      forall i | 0 <= i < |ss| && !ss[i].Idle() ensures ss[i].npv.Some? {
        if i < n { assert !ss[..n][i].Idle(); }
      }
    }
  }

  lemma LastActive(ss: seq<Source>)
    requires ss != []
    ensures AnyActive(ss) <==> AnyActive(ss[..|ss| - 1]) || !ss[|ss| - 1].Idle()
  {
    var n := |ss| - 1;
    if AnyActive(ss[..n]) {
      var i :| 0 <= i < n && !ss[..n][i].Idle();
      assert !ss[i].Idle();
    }
    if AnyActive(ss) && ss[n].Idle() {
      var i :| 0 <= i < |ss| && !ss[i].Idle();
      assert !ss[..n][i].Idle();
    }
  }

  lemma ScanStep(ss: seq<Source>, k: nat, d: int, isFirst: bool,
                 least: Option<int>, lrv: Option<int>, top: nat, all: bool)
    requires k < |ss| && ScannedTo(ss, k, d, isFirst, least, lrv, top, all)
    ensures var s := ss[k];
            if s.Idle() then ScannedTo(ss, k + 1, d, isFirst, least, Max(lrv, s.lrv), top, all)
            else ScannedTo(ss, k + 1, d, false, if isFirst then s.Bound(d) else Min(least, s.Bound(d)), Max(lrv, s.lrv),
                           if top < s.priority then s.priority else top, all && s.npv.Some?)
  {
    var pre, cur := ss[..k], ss[..k + 1];
    assert cur[..k] == pre && cur[k] == ss[k];
    LastActive(cur);
    LastProposed(cur);
  }

  /** The first loop of `update_max_possible_value`. */
  method ScanSources(sources: seq<TrackedSource>, d: int)
    returns (newMinimum: Option<int>, maxLastReported: Option<int>, maxActivePriority: nat, allProposed: bool)
    requires AllValid(sources)
    ensures newMinimum == LeastBound(Views(sources), d) && maxLastReported == MaxLrv(Views(sources))
    ensures maxActivePriority == MaxActive(Views(sources)) && (allProposed <==> AllProposed(Views(sources)))
  {
    ghost var ss := Views(sources);
    var isFirst := true;
    newMinimum, maxLastReported, maxActivePriority, allProposed := None, None, 0, true;
    for k := 0 to |sources|
      invariant ScannedTo(ss, k, d, isFirst, newMinimum, maxLastReported, maxActivePriority, allProposed)
    {
      ScanStep(ss, k, d, isFirst, newMinimum, maxLastReported, maxActivePriority, allProposed);
      isFirst, newMinimum, maxLastReported, maxActivePriority, allProposed :=
        ScanOne(sources[k], d, isFirst, newMinimum, maxLastReported, maxActivePriority, allProposed);
    }
    assert ss[..|sources|] == ss;
  }

  /** The second loop of `update_max_possible_value`. */
  method HasProposedValueInRange(sources: seq<TrackedSource>, threshold: int) returns (inRange: bool)
    requires AllValid(sources)
    ensures inRange <==> InRange(Views(sources), threshold)
  {
    ghost var ss := Views(sources);
    for k := 0 to |sources|
      invariant forall i :: 0 <= i < k ==> !MayPass(ss, ss[i], threshold)
    {
      var source := sources[k];
      if !source.IsIdle() && source.nextProposedValue.Some? && source.nextProposedValue.value <= threshold {
        var behind := HigherPrioritizedSourceIsBehind(sources, source.nextProposedValue.value, source.priority);
        if !behind { assert MayPass(ss, ss[k], threshold); return true; }
      }
    }
    return false;
  }

  lemma LastInClass(ss: seq<Source>, p: nat)
    requires ss != []
    ensures AnyInClass(ss, p) <==> AnyInClass(ss[..|ss| - 1], p) || InClass(ss[|ss| - 1], p)
  {
    var n := |ss| - 1;
    if AnyInClass(ss[..n], p) {
      var i :| 0 <= i < n && InClass(ss[..n][i], p);
      assert InClass(ss[i], p);
    }
    if AnyInClass(ss, p) && !InClass(ss[n], p) {
      var i :| 0 <= i < |ss| && InClass(ss[i], p);
      assert InClass(ss[..n][i], p);
    }
  }

  lemma LeastProposalStep(ss: seq<Source>, k: nat, p: nat)
    requires k < |ss|
    ensures AnyInClass(ss[..k + 1], p) <==> AnyInClass(ss[..k], p) || InClass(ss[k], p)
    ensures LeastProposal(ss[..k + 1], p) ==
            if !InClass(ss[k], p) then LeastProposal(ss[..k], p)
            else if AnyInClass(ss[..k], p) then Min(LeastProposal(ss[..k], p), ss[k].npv)
            else ss[k].npv
  {
    assert ss[..k + 1][..k] == ss[..k];
    LastInClass(ss[..k + 1], p);
  }

  /** The third loop of `update_max_possible_value`. */
  method MinNextProposedValue(sources: seq<TrackedSource>, priority: nat) returns (least: Option<int>)
    requires AllValid(sources)
    ensures least == LeastProposal(Views(sources), priority)
  {
    ghost var ss := Views(sources);
    var isFirst := true;
    least := None;
    for k := 0 to |sources|
      invariant isFirst <==> !AnyInClass(ss[..k], priority)
      invariant least == LeastProposal(ss[..k], priority)
    {
      var source := sources[k];
      LeastProposalStep(ss, k, priority);
      if source.priority != priority || source.IsIdle() { continue; }
      if isFirst {
        least := source.nextProposedValue;
        isFirst := false;
      } else {
        least := Min(least, source.nextProposedValue);
      }
    }
    assert ss[..|sources|] == ss;
  }

  /** The two lists after the requests `done` were looked at. */
  ghost predicate WokenSoFar(ss: seq<Source>, done: seq<Waiter>, t: int, kept: seq<Waiter>, woken: seq<Waiter>) {
    && kept == Keep(ss, done, t)
    && multiset(kept) + multiset(woken) == multiset(done)
    && forall w :: w in woken ==> Released(ss, w, t)
  }

  lemma WakeStep(ss: seq<Source>, ws: seq<Waiter>, k: nat, t: int, kept: seq<Waiter>, woken: seq<Waiter>)
    requires k < |ws| && WokenSoFar(ss, ws[..k], t, kept, woken)
    ensures if Released(ss, ws[k], t) then WokenSoFar(ss, ws[..k + 1], t, kept, woken + [ws[k]])
            else WokenSoFar(ss, ws[..k + 1], t, kept + [ws[k]], woken)
  {
    assert ws[..k + 1][..k] == ws[..k];
    assert ws[..k + 1] == ws[..k] + [ws[k]];
  }

  /** `wake_waiting_sources`: the requests that stay queued and the ones notified. */
  method WakeWaitingSources(waiting: seq<Waiter>, threshold: int, sources: seq<TrackedSource>)
    returns (kept: seq<Waiter>, woken: seq<Waiter>)
    requires AllValid(sources)
    ensures kept == Keep(Views(sources), waiting, threshold)
    ensures multiset(kept) + multiset(woken) == multiset(waiting)
    ensures forall w :: w in woken ==> Released(Views(sources), w, threshold)
  {
    ghost var ss := Views(sources);
    kept, woken := [], [];
    for k := 0 to |waiting|
      invariant WokenSoFar(ss, waiting[..k], threshold, kept, woken)
    {
      var ws := waiting[k];
      WakeStep(ss, waiting, k, threshold, kept, woken);
      var behind := HigherPrioritizedSourceIsBehind(sources, ws.value, ws.priority);
      if !behind && ws.value <= threshold {
        woken := woken + [ws];
      } else {
        kept := kept + [ws];
      }
    }
    assert waiting[..|waiting|] == waiting;
  }

  lemma LeastQueuedStep(ws: seq<Waiter>, k: nat, s: nat)
    requires k < |ws|
    ensures LeastQueued(ws[..k + 1], s) ==
            if ws[k].source != s then LeastQueued(ws[..k], s) else LowerProposal(LeastQueued(ws[..k], s), ws[k].value)
  {
    assert ws[..k + 1][..k] == ws[..k];
  }

  /** `set_next_proposed_value_from_waiters`. */
  method LeastWaiting(waiting: seq<Waiter>, sourceId: nat) returns (least: Option<int>)
    ensures least == LeastQueued(waiting, sourceId)
  {
    least := None;
    for k := 0 to |waiting|
      invariant least == LeastQueued(waiting[..k], sourceId)
    {
      LeastQueuedStep(waiting, k, sourceId);
      if waiting[k].source == sourceId {
        if least.None? || least.value > waiting[k].value { least := Some(waiting[k].value); }
      }
    }
    assert waiting[..|waiting|] == waiting;
  }

  /** The threshold part of `update_max_possible_value`. */
  method ComputeThreshold(sources: seq<TrackedSource>, d: int) returns (threshold: Option<int>, maxActivePriority: nat)
    requires AllValid(sources)
    ensures threshold == Fresh(Views(sources), d) && maxActivePriority == MaxActive(Views(sources))
  {
    var newMinimum, maxLastReported, top, allProposed := ScanSources(sources, d);
    ghost var ss := Views(sources);
    maxActivePriority := top;
    if newMinimum.None? { return None, top; }
    var newThreshold := newMinimum.value;
    if maxLastReported.Some? && maxLastReported.value > newThreshold { newThreshold := maxLastReported.value; }
    assert Raw(ss, d) == Some(newThreshold);
    var inRange := HasProposedValueInRange(sources, newThreshold);
    if allProposed && !inRange {
      var least := MinNextProposedValue(sources, maxActivePriority);
      assert Fresh(ss, d) == Max(Some(newThreshold), least);
      if least.Some? && least.value > newThreshold { newThreshold := least.value; }
    }
    threshold := Some(newThreshold);
  }

  lemma MaxActiveStep(ss: seq<Source>, k: nat)
    requires k < |ss|
    ensures MaxActive(ss[..k + 1]) ==
            if !ss[k].Idle() && ss[k].priority > MaxActive(ss[..k]) then ss[k].priority else MaxActive(ss[..k])
  {
    assert ss[..k + 1][..k] == ss[..k];
  }

  /** The loop that recomputes `max_active_priority`. */
  method TopActivePriority(sources: seq<TrackedSource>) returns (top: nat)
    requires AllValid(sources)
    ensures top == MaxActive(Views(sources))
  {
    ghost var ss := Views(sources);
    top := 0;
    for k := 0 to |sources|
      invariant top == MaxActive(ss[..k])
    {
      MaxActiveStep(ss, k);
      if !sources[k].IsIdle() && sources[k].priority > top { top := sources[k].priority; }
    }
    assert ss[..|sources|] == ss;
  }

  /** One more reader worker for source `id`, which is added first when it is the next spare one. */
  method AddWorker(sources: seq<TrackedSource>, id: nat, priority: nat) returns (r: seq<TrackedSource>, worker: nat)
    requires AllValid(sources) && id <= |sources| && (id < |sources| ==> sources[id].numberOfReaderWorkers < 64)
    ensures AllValid(r) && |r| > id && r[id].numberOfReaderWorkers == worker + 1
    ensures var ss := if id == |sources| then Views(sources) + [Source(None, None, priority, 0, {})] else Views(sources);
            Views(r) == ss[id := ss[id].(workers := worker + 1)] && ss[id].workers == worker
  {
    r := sources;
    if id == |sources| {
      r := r + [NewTrackedSource(priority)];
      assert Views(r) == Views(sources) + [Source(None, None, priority, 0, {})];
    }
    worker := r[id].numberOfReaderWorkers;
    ghost var ss := Views(r);
    r := r[id := r[id].RegisterNewReaderWorker()];
    assert Views(r) == ss[id := ss[id].(workers := worker + 1)];
  }

  method AnyActiveSource(sources: seq<TrackedSource>) returns (any: bool)
    requires AllValid(sources)
    ensures any <==> AnyActive(Views(sources))
  {
    ghost var ss := Views(sources);
    for k := 0 to |sources|
      invariant forall i :: 0 <= i < k ==> ss[i].Idle()
    {
      if !sources[k].IsIdle() { assert !ss[k].Idle(); return true; }
    }
    return false;
  }

  method ClearAll(sources: seq<TrackedSource>) returns (cleared: seq<TrackedSource>)
    requires AllValid(sources)
    ensures AllValid(cleared) && Views(cleared) == Views(sources) && Counts(cleared) == Counts(sources)
    ensures DoneSets(cleared) == NobodyDone(|sources|)
  {
    cleared := [];
    for k := 0 to |sources|
      invariant |cleared| == k && AllValid(cleared)
      invariant forall i :: 0 <= i < k ==> cleared[i].View() == sources[i].View() && Ids(cleared[i].completedMask) == {}
    {
      cleared := cleared + [sources[k].ClearCompletedForceAdvancements()];
    }
    forall i | 0 <= i < |sources| ensures Counts(cleared)[i] == Counts(sources)[i] {
      assert cleared[i].View() == sources[i].View();
    }
  }

  method MarkOne(sources: seq<TrackedSource>, sourceId: nat, worker: nat) returns (marked: seq<TrackedSource>)
    requires AllValid(sources) && sourceId < |sources| && worker < 64
    ensures AllValid(marked) && Views(marked) == Views(sources) && Counts(marked) == Counts(sources)
    ensures DoneSets(marked) == DoneSets(sources)[sourceId := DoneSets(sources)[sourceId] + {worker}]
  {
    marked := sources[sourceId := sources[sourceId].MarkCompletedForceAdvancement(worker)];
  }

  method AllAdvanced(sources: seq<TrackedSource>) returns (all: bool)
    requires AllValid(sources)
    ensures all <==> AllDone(Counts(sources), DoneSets(sources))
  {
    for k := 0 to |sources|
      invariant forall i :: 0 <= i < k ==> DoneSets(sources)[i] == Workers(Counts(sources)[i])
    {
      if !sources[k].ForceAdvancementDoneInAllSources() { return false; }
    }
    return true;
  }

  class ConnectorGroup {
    const maxDifference: int
    var maxPossibleValue: Option<int>
    var waitingSources: seq<Waiter>
    var groupSourceIds: map<nat, nat>
    var sources: seq<TrackedSource>
    var forcedTimeAdvancement: Option<nat>
    var maxActivePriority: nat

    ghost predicate Valid()
      reads this
    {
      && AllValid(sources)
      && (forall id :: id in groupSourceIds ==> groupSourceIds[id] < |sources|)
    }

    ghost function State(): Group
      reads this
    {
      Group(maxDifference, maxPossibleValue, waitingSources, Views(sources), maxActivePriority)
    }

    ghost function WorkerCounts(): (n: seq<nat>)
      reads this
      ensures |n| == |sources|
    {
      Counts(sources)
    }

    ghost function TimeState(): (b: Barrier)
      reads this
      ensures |b.done| == |sources|
    {
      Barrier(forcedTimeAdvancement, DoneSets(sources))
    }

    constructor (maxDifference: int)
      ensures Valid() && State() == Group(maxDifference, None, [], [], 0) && groupSourceIds == map[]
      ensures TimeState() == Barrier(None, [])
    {
      this.maxDifference := maxDifference;
      maxPossibleValue, waitingSources, groupSourceIds, sources := None, [], map[], [];
      forcedTimeAdvancement, maxActivePriority := None, 0;
    }

    /** `register_new_source`: adds a worker to the source with this id, and the source itself when the id is new. */
    method RegisterNewSource(sourceId: nat, priority: nat) returns (r: Result<(nat, nat)>)
      requires Valid()
      modifies this
      ensures Valid() && forcedTimeAdvancement == old(forcedTimeAdvancement)
      ensures r.WorkerSetTooLarge? <==>
              sourceId in old(groupSourceIds) && old(sources[groupSourceIds[sourceId]].numberOfReaderWorkers) == 64
      ensures r.WorkerSetTooLarge? ==> r.limit == 64 && State() == old(State()) && groupSourceIds == old(groupSourceIds)
      ensures r.Ok? ==> r.value.0 == (if sourceId in old(groupSourceIds) then old(groupSourceIds)[sourceId] else old(|sources|))
      ensures r.Ok? ==> State() == Registered(old(State()), r.value.0, priority)
      ensures r.Ok? ==> groupSourceIds == old(groupSourceIds)[sourceId := r.value.0]
      ensures r.Ok? ==> r.value.1 + 1 == State().sources[r.value.0].workers
    {
      var nextSpareId := |sources|;
      var id := if sourceId in groupSourceIds then groupSourceIds[sourceId] else nextSpareId;
      if sourceId in groupSourceIds && sources[id].numberOfReaderWorkers == 64 { return WorkerSetTooLarge(64); }
      groupSourceIds := groupSourceIds[sourceId := id];
      var worker;
      sources, worker := AddWorker(sources, id, priority);
      maxActivePriority := if maxActivePriority < priority then priority else maxActivePriority;
      return Ok((id, worker));
    }

    /** `update_max_possible_value`; `woken` are the requests notified. */
    method UpdateMaxPossibleValue() returns (woken: seq<Waiter>)
      requires Valid()
      modifies this`maxPossibleValue, this`waitingSources, this`maxActivePriority
      ensures State() == Update(old(State()))
      ensures multiset(waitingSources) + multiset(woken) == multiset(old(waitingSources))
    {
      woken := [];
      var newThreshold;
      newThreshold, maxActivePriority := ComputeThreshold(sources, maxDifference);
      if newThreshold.None? { return; }
      maxPossibleValue := newThreshold;
      waitingSources, woken := WakeWaitingSources(waitingSources, newThreshold.value, sources);
    }

    /** The value fits under the stored threshold and does not break the hierarchy. */
    method FitsNow(candidate: int, priority: nat) returns (fits: bool)
      requires Valid()
      ensures fits <==> Passes(State(), candidate, priority)
    {
      if maxPossibleValue.None? || maxPossibleValue.value < candidate { return false; }
      if priority == maxActivePriority { return true; }
      var behind := HigherPrioritizedSourceIsBehind(sources, candidate, priority);
      return !behind;
    }

    /** The first half of `can_entry_be_sent`: the source becomes active and proposes the value. */
    method RegisterProposal(sourceId: nat, worker: nat, candidate: int)
      requires Valid() && ValidWorker(State(), sourceId, worker)
      modifies this`sources, this`maxActivePriority
      ensures Valid() && State() == Proposing(old(State()), sourceId, worker, candidate)
      ensures TimeState() == old(TimeState()) && WorkerCounts() == old(WorkerCounts())
    {
      var priority := sources[sourceId].priority;
      var source := sources[sourceId].ReportActiveReaderWorker(worker);
      if maxActivePriority < priority { maxActivePriority := priority; }
      sources := sources[sourceId := source.MaybeUpdateNextProposedValue(candidate)];
      assert Views(sources) == Proposing(old(State()), sourceId, worker, candidate).sources;
    }

    /** `can_entry_be_sent`. */
    method CanEntryBeSent(sourceId: nat, worker: nat, candidate: int) returns (approved: bool)
      requires Valid() && ValidWorker(State(), sourceId, worker)
      modifies this
      ensures Valid() && (State(), approved) == Propose(old(State()), sourceId, worker, candidate)
      ensures TimeState() == old(TimeState()) && WorkerCounts() == old(WorkerCounts()) && groupSourceIds == old(groupSourceIds)
    {
      var wasActive := !sources[sourceId].IsIdle();
      var priority := sources[sourceId].priority;
      RegisterProposal(sourceId, worker, candidate);
      if wasActive {
        approved := FitsNow(candidate, priority);
        if approved { return; }
      }
      var _ := UpdateMaxPossibleValue();
      approved := FitsNow(candidate, priority);
      if approved { return; }
      waitingSources := waitingSources + [Waiter(candidate, sourceId, priority)];
    }

    /** `report_entry_sent`. */
    method ReportEntrySent(a: Approval)
      requires Valid() && ValidApproval(State(), a)
      modifies this`sources
      ensures Valid() && State() == ReportOne(old(State()), a)
      ensures TimeState() == old(TimeState()) && WorkerCounts() == old(WorkerCounts())
    {
      if a.source.Some? {
        var s := a.source.value;
        var source := sources[s];
        if source.lastReportedValue.None? || source.lastReportedValue.value < a.value {
          source := source.(lastReportedValue := Some(a.value));
        }
        var least := LeastWaiting(waitingSources, s);
        sources := sources[s := source.(nextProposedValue := least)];
        assert Views(sources) == ReportOne(old(State()), a).sources;
      }
    }

    /** `report_entries_sent`: all reports, then one recalculation. */
    method ReportEntriesSent(approvals: seq<Approval>)
      requires Valid() && ValidApprovals(State(), approvals)
      modifies this
      ensures Valid() && State() == Report(old(State()), approvals)
      ensures TimeState() == old(TimeState()) && WorkerCounts() == old(WorkerCounts()) && groupSourceIds == old(groupSourceIds)
    {
      for k := 0 to |approvals|
        invariant Valid() && State() == ReportAll(old(State()), approvals[..k])
        invariant TimeState() == old(TimeState()) && WorkerCounts() == old(WorkerCounts())
        invariant groupSourceIds == old(groupSourceIds)
      {
        assert approvals[..k + 1][..k] == approvals[..k] && approvals[..k + 1][k] == approvals[k];
        ReportEntrySent(approvals[k]);
      }
      assert approvals[..|approvals|] == approvals;
      var _ := UpdateMaxPossibleValue();
    }

    method MarkIdle(sourceId: nat, worker: nat) returns (wasActive: bool)
      requires Valid() && ValidWorker(State(), sourceId, worker)
      modifies this`sources
      ensures Valid() && TimeState() == old(TimeState()) && WorkerCounts() == old(WorkerCounts())
      ensures var ss := old(State()).sources;
              && State() == old(State()).(sources := ss[sourceId := ss[sourceId].(idle := ss[sourceId].idle + {worker})])
              && (wasActive <==> worker !in ss[sourceId].idle)
    {
      wasActive := !Bit(sources[sourceId].idleMask, worker);
      ghost var ss := Views(sources);
      sources := sources[sourceId := sources[sourceId].ReportIdleReaderWorker(worker)];
      assert Views(sources) == ss[sourceId := ss[sourceId].(idle := ss[sourceId].idle + {worker})];
    }

    /** `report_source_is_idle`. */
    method ReportSourceIsIdle(sourceId: nat, worker: nat) returns (wasActive: bool)
      requires Valid() && ValidWorker(State(), sourceId, worker)
      modifies this
      ensures Valid() && State() == GoIdle(old(State()), sourceId, worker)
      ensures wasActive <==> worker !in old(State()).sources[sourceId].idle
      ensures TimeState() == old(TimeState()) && WorkerCounts() == old(WorkerCounts()) && groupSourceIds == old(groupSourceIds)
    {
      wasActive := MarkIdle(sourceId, worker);
      var anyActive := AnyActiveSource(sources);
      if sources[sourceId].IsIdle() && anyActive { var _ := UpdateMaxPossibleValue(); }
      maxActivePriority := TopActivePriority(sources);
    }

    /** `forced_time_advancement_for_source`. */
    method ForcedTimeAdvancementForSource(sourceId: nat, worker: nat) returns (t: Option<nat>)
      requires Valid() && ValidWorker(State(), sourceId, worker)
      ensures t == ForcedFor(TimeState(), sourceId, worker)
    {
      if forcedTimeAdvancement.None? || sources[sourceId].ForceAdvancementIsDoneForWorker(worker) { return None; }
      return forcedTimeAdvancement;
    }

    /** `report_time_advancement`. */
    method ReportTimeAdvancement(timestamp: nat, sourceId: nat, worker: nat)
      requires Valid() && ValidWorker(State(), sourceId, worker)
      modifies this`sources, this`forcedTimeAdvancement
      ensures Valid() && State() == old(State()) && WorkerCounts() == old(WorkerCounts())
      ensures TimeState() == ReportTime(old(WorkerCounts()), old(TimeState()), TimeReport(sourceId, worker, timestamp))
    {
      if forcedTimeAdvancement != Some(timestamp) {
        sources := ClearAll(sources);
        forcedTimeAdvancement := Some(timestamp);
      }
      sources := MarkOne(sources, sourceId, worker);
      var allAdvanced := AllAdvanced(sources);
      if allAdvanced { forcedTimeAdvancement := None; }
    }
  }
}
