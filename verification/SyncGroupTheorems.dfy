/** The guarantees of a synchronization group, for every run. */
module SyncGroupTheorems {
  import opened Wrappers
  import opened SyncGroup
  import opened SyncGroupThreshold
  import opened SyncGroupRuns

  // ----- reachable states

  ghost predicate Backed(x: Sys, s: nat, v: int)
    requires s < |x.g.sources|
  {
    Request(x, s, v) in x.g.waiting || Request(x, s, v) in x.woken || Approval(Some(s), v) in x.inflight
  }

  /** An outstanding proposal is always backed by a queued, a woken or an approved request. */
  ghost predicate Covered(x: Sys) {
    forall s :: 0 <= s < |x.g.sources| && x.g.sources[s].npv.Some? ==> Backed(x, s, x.g.sources[s].npv.value)
  }

  ghost predicate SysInv(x: Sys) {
    Inv(x.g) && Covered(x) && |x.last| == |x.g.sources|
  }

  ghost predicate SameShape(g: Group, g': Group) {
    && g'.d == g.d && |g'.sources| == |g.sources|
    && (forall i :: 0 <= i < |g.sources| ==>
          g'.sources[i].priority == g.sources[i].priority && g'.sources[i].workers == g.sources[i].workers)
  }

  lemma KeptOrWoken(g: Group, g': Group, w: Waiter)
    requires w in g.waiting
    ensures w in g'.waiting || w in Woken(g, g')
  {
  }

  /** Coverage survives any step that keeps or wakes every queued request and accounts for each changed proposal. */
  lemma StillBacked(x: Sys, x': Sys, i: nat, v: int)
    requires |x'.g.sources| == |x.g.sources| && i < |x.g.sources|
    requires x'.g.sources[i].priority == x.g.sources[i].priority
    requires x.woken + Woken(x.g, x'.g) <= x'.woken
    requires Approval(Some(i), v) in x.inflight ==> Approval(Some(i), v) in x'.inflight
    requires Backed(x, i, v)
    ensures Backed(x', i, v)
  {
    var w := Request(x, i, v);
    if w in x.g.waiting { KeptOrWoken(x.g, x'.g, w); }
  }

  /** What a proposal does to the sources and to its own request. */
  lemma ProposeEffect(g: Group, s: nat, w: nat, v: int)
    requires ValidWorker(g, s, w)
    ensures var (g', ok) := SyncGroup.Propose(g, s, w, v);
            && SameShape(g, g')
            && (forall i :: 0 <= i < |g.sources| && i != s ==> g'.sources[i] == g.sources[i])
            && g'.sources[s].npv == LowerProposal(g.sources[s].npv, v)
            && (!ok ==> Waiter(v, s, g.sources[s].priority) in g'.waiting)
  {
  }

  lemma ProposedCovered(x: Sys, s: nat, w: nat, v: int)
    requires ValidWorker(x.g, s, w) && s < |x.last|
    requires forall i :: 0 <= i < |x.g.sources| && x.g.sources[i].npv.Some? ==>
               Backed(x, i, x.g.sources[i].npv.value) || (i == s && x.g.sources[i].npv.value >= v)
    ensures Covered(Proposed(x, s, w, v))
  {
    var x' := Proposed(x, s, w, v);
    ProposeEffect(x.g, s, w, v);
    forall i | 0 <= i < |x'.g.sources| && x'.g.sources[i].npv.Some?
      ensures Backed(x', i, x'.g.sources[i].npv.value)
    {
      var u := x'.g.sources[i].npv.value;
      if i != s || u != v { StillBacked(x, x', i, u); }
    }
  }

  lemma RetryCovered(x: Sys, s: nat, w: nat, v: int)
    requires Covered(x) && Legal(x, Retry(s, w, v))
    ensures Covered(Step(x, Retry(s, w, v)))
  {
    var y := x.(woken := x.woken - multiset{Request(x, s, v)});
    forall i | 0 <= i < |y.g.sources| && y.g.sources[i].npv.Some?
      ensures Backed(y, i, y.g.sources[i].npv.value) || (i == s && y.g.sources[i].npv.value >= v)
    {
      assert Backed(x, i, x.g.sources[i].npv.value);
    }
    ProposedCovered(y, s, w, v);
  }

  lemma GoIdleEffect(g: Group, s: nat, w: nat)
    requires ValidWorker(g, s, w)
    ensures var g' := GoIdle(g, s, w);
            SameShape(g, g') && forall i :: 0 <= i < |g.sources| ==> g'.sources[i].npv == g.sources[i].npv
  {
  }

  lemma IdleCovered(x: Sys, s: nat, w: nat)
    requires Covered(x) && Legal(x, Event.Idle(s, w))
    ensures Covered(Step(x, Event.Idle(s, w))) && SameShape(x.g, Step(x, Event.Idle(s, w)).g)
  {
    var x' := Step(x, Event.Idle(s, w));
    GoIdleEffect(x.g, s, w);
    forall i | 0 <= i < |x'.g.sources| && x'.g.sources[i].npv.Some?
      ensures Backed(x', i, x'.g.sources[i].npv.value)
    {
      StillBacked(x, x', i, x'.g.sources[i].npv.value);
    }
  }

  lemma ApproveTimeCovered(x: Sys)
    requires Covered(x)
    ensures Covered(Step(x, ApproveTime))
  {
    var x' := Step(x, ApproveTime);
    forall i | 0 <= i < |x.g.sources| && x.g.sources[i].npv.Some? ensures Backed(x', i, x.g.sources[i].npv.value) {
      assert Backed(x, i, x.g.sources[i].npv.value);
    }
  }

  /** Reports touch the proposals of the reported sources only, and reset those to their queued minimum. */
  lemma {:induction false} ReportAllProposals(g: Group, approvals: seq<Approval>)
    requires ValidApprovals(g, approvals)
    ensures var g1 := ReportAll(g, approvals);
            && SameShape(g, g1) && g1.waiting == g.waiting
            && forall i :: 0 <= i < |g.sources| ==>
                 || (g1.sources[i].npv == g.sources[i].npv && forall a :: a in approvals ==> a.source != Some(i))
                 || g1.sources[i].npv == LeastQueued(g.waiting, i)
    decreases |approvals|
  {
    if approvals == [] {
    } else {
      var n := |approvals| - 1;
      ReportAllProposals(g, approvals[..n]);
      assert approvals == approvals[..n] + [approvals[n]];
    }
  }

  /** The least queued value of a source is backed by the request that queued it. */
  lemma QueuedBacked(x: Sys, x': Sys, i: nat, u: int)
    requires WellFormed(x.g) && SameShape(x.g, x'.g) && i < |x.g.sources| && LeastQueued(x.g.waiting, i) == Some(u)
    requires x'.woken == x.woken + Woken(x.g, x'.g)
    ensures Backed(x', i, u)
  {
    LeastQueuedIs(x.g.waiting, i);
    var w :| w in x.g.waiting && w.source == i && w.value == u;
    KeptOrWoken(x.g, x'.g, w);
    assert w == Request(x', i, u);
  }

  lemma ReportCovered(x: Sys, approvals: seq<Approval>)
    requires WellFormed(x.g) && Covered(x) && Legal(x, Event.Report(approvals))
    ensures Covered(Step(x, Event.Report(approvals))) && SameShape(x.g, Step(x, Event.Report(approvals)).g)
  {
    ReportAllProposals(x.g, approvals);
    var x' := Step(x, Event.Report(approvals));
    assert x'.g.sources == ReportAll(x.g, approvals).sources;
    forall i | 0 <= i < |x.g.sources| && x'.g.sources[i].npv.Some?
      ensures Backed(x', i, x'.g.sources[i].npv.value)
    {
      var u := x'.g.sources[i].npv.value;
      if x'.g.sources[i].npv == LeastQueued(x.g.waiting, i) {
        QueuedBacked(x, x', i, u);
      } else {
        assert Approval(Some(i), u) !in multiset(approvals);
        StillBacked(x, x', i, u);
      }
    }
  }

  lemma StepInv(x: Sys, e: Event)
    requires SysInv(x) && Legal(x, e)
    ensures SysInv(Step(x, e)) && SameShape(x.g, Step(x, e).g)
  {
    match e
    case Propose(s, w, v) =>
      ProposeInv(x.g, s, w, v);
      ProposeEffect(x.g, s, w, v);
      ProposedCovered(x, s, w, v);
    case Retry(s, w, v) =>
      ProposeInv(x.g, s, w, v);
      ProposeEffect(x.g, s, w, v);
      RetryCovered(x, s, w, v);
    case ApproveTime => ApproveTimeCovered(x);
    case Report(approvals) =>
      ReportInv(x.g, approvals);
      ReportCovered(x, approvals);
    case Idle(s, w) =>
      GoIdleInv(x.g, s, w);
      IdleCovered(x, s, w);
  }

  /** Everything in `Inv` holds in every reachable state. */
  lemma {:induction false} ReachableInv(x: Sys, es: seq<Event>)
    requires Init(x) && LegalRun(x, es)
    ensures SysInv(Exec(x, es)) && SameShape(x.g, Exec(x, es).g)
    decreases |es|
  {
    if es == [] {
    } else {
      ReachableInv(x, es[..|es| - 1]);
      StepInv(Exec(x, es[..|es| - 1]), es[|es| - 1]);
    }
  }

  // ----- deadlock freedom

  /** Source `i` can still move: it only waits for new input, or one of its requests is to be retried or reported. */
  ghost predicate CanMove(x: Sys, i: nat)
    requires i < |x.g.sources|
  {
    && !x.g.sources[i].Idle()
    && match x.g.sources[i].npv
       case None => forall w :: w in x.g.waiting ==> w.source != i
       case Some(v) => Request(x, i, v) in x.woken || Approval(Some(i), v) in x.inflight
  }

  /** No reachable state has a waiting reader and nobody able to move. */
  lemma NoDeadlock(x: Sys, es: seq<Event>)
    requires Init(x) && LegalRun(x, es) && Exec(x, es).g.waiting != []
    ensures exists i :: 0 <= i < |Exec(x, es).g.sources| && CanMove(Exec(x, es), i)
  {
    ReachableInv(x, es);
    var y := Exec(x, es);
    var i :| 0 <= i < |y.g.sources| && Unblocked(y.g, i);
    if y.g.sources[i].npv.Some? {
      var v := y.g.sources[i].npv.value;
      assert Backed(y, i, v);
      assert Request(y, i, v) !in y.g.waiting;
    }
    assert CanMove(y, i);
  }

  // ----- wake-ups

  /** A request is queued only while its value is above the threshold or a higher-priority source lags. */
  lemma QueuedForAReason(x: Sys, es: seq<Event>, w: Waiter)
    requires Init(x) && LegalRun(x, es)
    requires w in Exec(x, es).g.waiting && Exec(x, es).g.mpv.Some?
    ensures w.value > Exec(x, es).g.mpv.value || Behind(Exec(x, es).g.sources, w.value, w.priority)
    ensures w.source < |Exec(x, es).g.sources|
    ensures var s := Exec(x, es).g.sources[w.source];
            s.npv.Some? && s.npv.value <= w.value && !s.Idle()
  {
    ReachableInv(x, es);
    var y := Exec(x, es);
    assert !Released(y.g.sources, w, y.g.mpv.value);
  }

  /** What leaves the queue is within the new threshold and respects the hierarchy. */
  ghost predicate Freed(g': Group, w: Waiter) {
    && g'.mpv.Some? && Released(g'.sources, w, g'.mpv.value)
    && w.source < |g'.sources| && w.priority == g'.sources[w.source].priority
    && !g'.sources[w.source].Idle()
  }

  lemma FreedTakesHotPath(g: Group, w: Waiter, worker: nat)
    requires Freed(g, w) && ValidWorker(g, w.source, worker)
    ensures HotPath(g, w.source, worker, w.value)
  {
    var g1 := Proposing(g, w.source, worker, w.value);
    SameActivity(g.sources, g1.sources, w.value, w.priority);
  }

  lemma {:induction false} KeepCounts(ss: seq<Source>, ws: seq<Waiter>, t: int, w: Waiter)
    requires !Released(ss, w, t)
    ensures multiset(Keep(ss, ws, t))[w] == multiset(ws)[w]
  {
    if ws == [] {
    } else {
      KeepCounts(ss, ws[..|ws| - 1], t, w);
      assert ws == ws[..|ws| - 1] + [ws[|ws| - 1]];
    }
  }

  lemma WokenByUpdate(g: Group, w: Waiter, more: seq<Waiter>)
    requires Pre(g) && w in multiset(g.waiting) - multiset(Update(g).waiting + more)
    ensures Freed(Update(g), w)
  {
    assert w in g.waiting;
    var t := Fresh(g.sources, g.d);
    if t.Some? && !Released(g.sources, w, t.value) { KeepCounts(g.sources, g.waiting, t.value, w); }
  }

  lemma WokenByProposal(g: Group, s: nat, k: nat, v: int, w: Waiter)
    requires Inv(g) && ValidWorker(g, s, k) && w in Woken(g, SyncGroup.Propose(g, s, k, v).0)
    ensures Freed(SyncGroup.Propose(g, s, k, v).0, w)
  {
    ProposingPre(g, s, k, v);
    var g1 := Proposing(g, s, k, v);
    var p := g.sources[s].priority;
    if HotPath(g, s, k, v) {
    } else if Passes(Update(g1), v, p) {
      assert Update(g1).waiting == Update(g1).waiting + [];
      WokenByUpdate(g1, w, []);
    } else {
      WokenByUpdate(g1, w, [Waiter(v, s, p)]);
    }
  }

  lemma WokenIsFreed(y: Sys, e: Event, w: Waiter)
    requires SysInv(y) && Legal(y, e) && w in Woken(y.g, Step(y, e).g)
    ensures Freed(Step(y, e).g, w)
  {
    match e
    case Propose(s, k, v) => WokenByProposal(y.g, s, k, v, w);
    case Retry(s, k, v) => WokenByProposal(y.g, s, k, v, w);
    case ApproveTime =>
    case Report(approvals) =>
      ReportAllPre(y.g, approvals);
      var g1 := ReportAll(y.g, approvals);
      assert Update(g1).waiting == Update(g1).waiting + [];
      WokenByUpdate(g1, w, []);
    case Idle(s, k) =>
      IdlingPre(y.g, s, k);
      var g1 := Idling(y.g, s, k);
      assert Update(g1).waiting == Update(g1).waiting + [];
      WokenByUpdate(g1, w, []);
  }

  /** A request woken by a step is approved when retried next, by the shortcut. */
  lemma WokenRetryApproved(x: Sys, es: seq<Event>, e: Event, w: Waiter, worker: nat)
    requires Init(x) && LegalRun(x, es) && Legal(Exec(x, es), e)
    requires w in Woken(Exec(x, es).g, Step(Exec(x, es), e).g)
    requires ValidWorker(Step(Exec(x, es), e).g, w.source, worker)
    ensures HotPath(Step(Exec(x, es), e).g, w.source, worker, w.value)
    ensures SyncGroup.Propose(Step(Exec(x, es), e).g, w.source, worker, w.value).1
  {
    ReachableInv(x, es);
    var y := Exec(x, es);
    StepInv(y, e);
    WokenIsFreed(y, e, w);
    FreedTakesHotPath(Step(y, e).g, w, worker);
  }

  // ----- priorities

  lemma ApprovedInOrder(g: Group, s: nat, w: nat, v: int, i: nat)
    requires Inv(g) && ValidWorker(g, s, w) && SyncGroup.Propose(g, s, w, v).1 && i < |g.sources|
    ensures var g' := SyncGroup.Propose(g, s, w, v).0;
            && Leq(Some(v), g'.mpv) && |g'.sources| == |g.sources|
            && (!g'.sources[i].Idle() && g'.sources[i].priority > g'.sources[s].priority ==> Leq(Some(v), g'.sources[i].lrv))
  {
    var g' := SyncGroup.Propose(g, s, w, v).0;
    ProposeInv(g, s, w, v);
    ProposingPre(g, s, w, v);
    ShortcutIsScan(g', v, s);
    assert !LagsBehind(g'.sources[i], v, g'.sources[s].priority);
  }

  /** Every approval stays within the threshold and finds all higher-priority active sources at or past the value. */
  lemma ApprovalRespectsHierarchy(x: Sys, es: seq<Event>, s: nat, w: nat, v: int, i: nat)
    requires Init(x) && LegalRun(x, es) && ValidWorker(Exec(x, es).g, s, w)
    requires SyncGroup.Propose(Exec(x, es).g, s, w, v).1
    requires i < |Exec(x, es).g.sources|
    ensures var g' := SyncGroup.Propose(Exec(x, es).g, s, w, v).0;
            && Leq(Some(v), g'.mpv)
            && (!g'.sources[i].Idle() && g'.sources[i].priority > g'.sources[s].priority ==> Leq(Some(v), g'.sources[i].lrv))
  {
    ReachableInv(x, es);
    ApprovedInOrder(Exec(x, es).g, s, w, v, i);
  }

  lemma ProposeMakesExact(g: Group, s: nat, w: nat, v: int)
    requires Inv(g) && ValidWorker(g, s, w)
    ensures ExactCache(SyncGroup.Propose(g, s, w, v).0)
  {
    ProposingPre(g, s, w, v);
    assert ExactCache(Update(Proposing(g, s, w, v)));
  }

  /** Every step of the group recalculates the cached priority or finds it exact. */
  lemma StepMakesExact(x: Sys, e: Event)
    requires SysInv(x) && Legal(x, e) && !e.ApproveTime?
    ensures ExactCache(Step(x, e).g)
  {
    match e
    case Propose(s, w, v) => ProposeMakesExact(x.g, s, w, v);
    case Retry(s, w, v) => ProposeMakesExact(x.g, s, w, v);
    case Report(approvals) => assert ExactCache(Update(ReportAll(x.g, approvals)));
    case Idle(s, w) => assert ExactCache(GoIdle(x.g, s, w));
  }

  /** The group itself was asked something; time advancements are approved without it. */
  ghost predicate Asked(es: seq<Event>) {
    exists k :: 0 <= k < |es| && !es[k].ApproveTime?
  }

  lemma AskedSnoc(es: seq<Event>)
    requires es != []
    ensures Asked(es) <==> Asked(es[..|es| - 1]) || !es[|es| - 1].ApproveTime?
  {
    var n := |es| - 1;
    if Asked(es) && es[n].ApproveTime? {
      var k :| 0 <= k < |es| && !es[k].ApproveTime?;
      assert !es[..n][k].ApproveTime?;
    }
    if Asked(es[..n]) {
      var k :| 0 <= k < n && !es[..n][k].ApproveTime?;
      assert !es[k].ApproveTime?;
    }
  }

  /** The cached priority is exact from the first step of the group on, whatever registration left behind. */
  lemma {:induction false} CacheBecomesExact(x: Sys, es: seq<Event>)
    requires Init(x) && LegalRun(x, es)
    ensures ExactCache(Exec(x, es).g) <==> ExactCache(x.g) || Asked(es)
    decreases |es|
  {
    if es == [] {
    } else {
      var n := |es| - 1;
      var y := Exec(x, es[..n]);
      CacheBecomesExact(x, es[..n]);
      AskedSnoc(es);
      if es[n].ApproveTime? {
        assert Step(y, es[n]).g == y.g;
      } else {
        ReachableInv(x, es[..n]);
        StepMakesExact(y, es[n]);
      }
    }
  }

  /** The cached priority is never below that of an active source, is that of one of them once the group took a step,
      and a completed recalculation covers every reported value. */
  lemma CacheAndThresholdExact(x: Sys, es: seq<Event>)
    requires Init(x) && LegalRun(x, es)
    ensures var g := Exec(x, es).g;
            && (forall i :: 0 <= i < |g.sources| && !g.sources[i].Idle() ==> g.sources[i].priority <= g.maxPriority)
            && (Asked(es) ==>
                  g.maxPriority == 0 || exists i :: 0 <= i < |g.sources| && !g.sources[i].Idle() && g.sources[i].priority == g.maxPriority)
            && (Fresh(g.sources, g.d).Some? ==>
                  forall i :: 0 <= i < |g.sources| ==> Leq(g.sources[i].lrv, Update(g).mpv))
  {
    ReachableInv(x, es);
    CacheBecomesExact(x, es);
    var g := Exec(x, es).g;
    MaxActiveIs(g.sources);
    if Fresh(g.sources, g.d).Some? {
      forall i | 0 <= i < |g.sources| ensures Leq(g.sources[i].lrv, Update(g).mpv) {
        FreshAboveReported(g.sources, g.d, i);
      }
    }
  }

  // ----- the hot path

  /** Every proposal is at or above the proposal its source already has outstanding. */
  ghost predicate Monotone(x: Sys, e: Event)
    requires Legal(x, e)
  {
    e.Propose? || e.Retry? ==> Leq(x.g.sources[e.s].npv, Some(e.v))
  }

  ghost predicate MonotoneRun(x: Sys, es: seq<Event>)
    requires LegalRun(x, es)
    decreases |es|
  {
    es == [] || (MonotoneRun(x, es[..|es| - 1]) && Monotone(Exec(x, es[..|es| - 1]), es[|es| - 1]))
  }

  /** The stored threshold is never looser than a recalculation would be. */
  ghost predicate Conservative(g: Group) {
    g.mpv.Some? && AnyActive(g.sources) ==> Leq(g.mpv, Fresh(g.sources, g.d))
  }

  lemma UpdateConservative(g: Group)
    requires Conservative(g) || Fresh(g.sources, g.d).Some? || g.mpv.None? || !AnyActive(g.sources)
    ensures Conservative(Update(g))
  {
  }

  /** `ss1` differs from `ss` at most in which workers of a source are idle. */
  ghost predicate SameButMasks(ss: seq<Source>, ss1: seq<Source>) {
    && |ss| == |ss1|
    && forall i :: 0 <= i < |ss| ==>
         && ss1[i].npv == ss[i].npv && ss1[i].lrv == ss[i].lrv && ss1[i].priority == ss[i].priority
         && ss1[i].Idle() == ss[i].Idle()
  }

  lemma SameInRange(ss: seq<Source>, ss1: seq<Source>, t: int)
    requires SameButMasks(ss, ss1)
    ensures InRange(ss, t) == InRange(ss1, t) && AllProposed(ss) == AllProposed(ss1)
  {
    forall i | 0 <= i < |ss| ensures MayPass(ss, ss[i], t) == MayPass(ss1, ss1[i], t) {
      if ss[i].npv.Some? { SameActivity(ss, ss1, ss[i].npv.value, ss[i].priority); }
    }
  }

  lemma {:induction false} SameMaxActive(ss: seq<Source>, ss1: seq<Source>)
    requires SameButMasks(ss, ss1)
    ensures MaxActive(ss) == MaxActive(ss1)
  {
    if ss == [] {
    } else {
      SameMaxActive(ss[..|ss| - 1], ss1[..|ss| - 1]);
    }
  }

  lemma LeastBoundBelow(ss: seq<Source>, ss1: seq<Source>, d: int)
    requires SameButMasks(ss, ss1)
    ensures Leq(LeastBound(ss, d), LeastBound(ss1, d))
  {
    var m, m1 := LeastBound(ss, d), LeastBound(ss1, d);
    LeastBoundIs(ss, d);
    LeastBoundIs(ss1, d);
    if AnyActive(ss1) {
      var j :| 0 <= j < |ss| && !ss1[j].Idle() && ss1[j].Bound(d) == m1;
      assert Leq(m, ss[j].Bound(d));
    } else {
      assert !AnyActive(ss) by {
        forall i | 0 <= i < |ss| ensures ss[i].Idle() { assert ss1[i].Idle(); }
      }
    }
  }

  lemma SameLeastBound(ss: seq<Source>, ss1: seq<Source>, d: int)
    requires SameButMasks(ss, ss1)
    ensures LeastBound(ss, d) == LeastBound(ss1, d)
  {
    LeastBoundBelow(ss, ss1, d);
    LeastBoundBelow(ss1, ss, d);
  }

  lemma SameLeastProposal(ss: seq<Source>, ss1: seq<Source>, p: nat)
    requires SameButMasks(ss, ss1)
    ensures LeastProposal(ss, p) == LeastProposal(ss1, p)
  {
    LeastProposalIs(ss, p);
    LeastProposalIs(ss1, p);
    forall i | 0 <= i < |ss| ensures InClass(ss[i], p) == InClass(ss1[i], p) {}
    if AnyInClass(ss, p) {
      var i :| 0 <= i < |ss| && InClass(ss[i], p) && ss[i].npv == LeastProposal(ss, p);
      assert InClass(ss1[i], p);
      var j :| 0 <= j < |ss| && InClass(ss1[j], p) && ss1[j].npv == LeastProposal(ss1, p);
      assert InClass(ss[j], p);
    } else {
      assert !AnyInClass(ss1, p);
    }
  }

  /** Which of its workers are idle does not change the threshold while the source stays active. */
  lemma MaskDoesNotMatter(ss: seq<Source>, ss1: seq<Source>, d: int)
    requires SameButMasks(ss, ss1)
    ensures Fresh(ss, d) == Fresh(ss1, d) && MaxActive(ss) == MaxActive(ss1)
  {
    SameMaxActive(ss, ss1);
    SameLeastBound(ss, ss1, d);
    SameLeastProposal(ss, ss1, MaxActive(ss));
    SameLrvSameMax(ss, ss1);
    if Raw(ss, d).Some? { SameInRange(ss, ss1, Raw(ss, d).value); }
  }

  lemma ProposingConservative(g: Group, s: nat, w: nat, v: int)
    requires Inv(g) && Conservative(g) && ValidWorker(g, s, w)
    requires !g.sources[s].Idle() && Leq(g.sources[s].npv, Some(v))
    ensures Conservative(Proposing(g, s, w, v))
  {
    var g1 := Proposing(g, s, w, v);
    if g.sources[s].npv.None? {
      FirstProposalRaisesFresh(g.sources, g1.sources, g.d, s);
    } else {
      MaskDoesNotMatter(g.sources, g1.sources, g.d);
    }
    assert AnyActive(g.sources);
  }

  lemma ProposeConservative(g: Group, s: nat, w: nat, v: int)
    requires Inv(g) && Conservative(g) && ValidWorker(g, s, w) && Leq(g.sources[s].npv, Some(v))
    ensures Conservative(SyncGroup.Propose(g, s, w, v).0)
  {
    var g1 := Proposing(g, s, w, v);
    if HotPath(g, s, w, v) {
      ProposingConservative(g, s, w, v);
    } else {
      ProposingPre(g, s, w, v);
      FreshDefined(g1.sources, g.d);
      UpdateConservative(g1);
    }
  }

  lemma StepConservative(x: Sys, e: Event)
    requires SysInv(x) && Legal(x, e) && Conservative(x.g) && Monotone(x, e)
    ensures Conservative(Step(x, e).g)
  {
    match e
    case Propose(s, w, v) => ProposeConservative(x.g, s, w, v);
    case Retry(s, w, v) => ProposeConservative(x.g, s, w, v);
    case ApproveTime =>
    case Report(approvals) =>
      ReportAllPre(x.g, approvals);
      FreshDefined(ReportAll(x.g, approvals).sources, x.g.d);
      UpdateConservative(ReportAll(x.g, approvals));
    case Idle(s, w) =>
      var g1 := Idling(x.g, s, w);
      IdlingPre(x.g, s, w);
      FreshDefined(g1.sources, x.g.d);
      if !g1.sources[s].Idle() {
        assert !x.g.sources[s].Idle();
        MaskDoesNotMatter(x.g.sources, g1.sources, x.g.d);
        assert AnyActive(x.g.sources);
      }
  }

  lemma {:induction false} MonotoneRunsAreConservative(x: Sys, es: seq<Event>)
    requires Init(x) && LegalRun(x, es) && MonotoneRun(x, es)
    ensures Conservative(Exec(x, es).g)
    decreases |es|
  {
    if es == [] {
    } else {
      var n := |es| - 1;
      ReachableInv(x, es[..n]);
      MonotoneRunsAreConservative(x, es[..n]);
      StepConservative(Exec(x, es[..n]), es[n]);
    }
  }

  /** With monotone proposals, whatever the shortcut approves a full recalculation would approve too. */
  lemma HotPathRefinesSlowPath(x: Sys, es: seq<Event>, s: nat, w: nat, v: int)
    requires Init(x) && LegalRun(x, es) && MonotoneRun(x, es)
    requires ValidWorker(Exec(x, es).g, s, w) && Leq(Exec(x, es).g.sources[s].npv, Some(v))
    requires HotPath(Exec(x, es).g, s, w, v)
    ensures var g1 := Proposing(Exec(x, es).g, s, w, v);
            Leq(g1.mpv, Update(g1).mpv) && Passes(Update(g1), v, g1.sources[s].priority)
  {
    ReachableInv(x, es);
    MonotoneRunsAreConservative(x, es);
    var g := Exec(x, es).g;
    ProposingPre(g, s, w, v);
    ProposingConservative(g, s, w, v);
    ShortcutIsScan(Proposing(g, s, w, v), v, s);
  }
}
