/**
 Whole runs of a synchronization group.

 Every public method of the group runs under one lock, so a run is a sequence of
 atomic steps.  Around the group the model keeps what the readers and pollers
 hold: requests that were woken and not retried yet, approvals that were not
 reported yet, and, for stating theorems only, the history of approvals and each
 source's last proposal.
 */
module SyncGroupRuns {
  import opened Wrappers
  import opened SyncGroup
  import opened SyncGroupThreshold

  datatype Sys = Sys(
    g: Group,
    woken: multiset<Waiter>,
    inflight: multiset<Approval>,
    approved: seq<Approval>,
    last: seq<Option<int>>)

  datatype Event =
    | Propose(s: nat, w: nat, v: int)
    | Retry(s: nat, w: nat, v: int)
    | ApproveTime                       // a time advancement is approved without asking the group
    | Report(approvals: seq<Approval>)
    | Idle(s: nat, w: nat)

  // ----- the transition system

  ghost predicate Init(x: Sys) {
    && x.g.mpv.None? && x.g.waiting == []
    && x.woken == multiset{} && x.inflight == multiset{} && x.approved == []
    && |x.last| == |x.g.sources|
    && (forall i :: 0 <= i < |x.g.sources| ==>
          && x.g.sources[i].npv.None? && x.g.sources[i].lrv.None? && x.last[i].None?
          && x.g.sources[i].workers > 0 && x.g.sources[i].idle == {})
    && MaxActive(x.g.sources) <= x.g.maxPriority
  }

  function Request(x: Sys, s: nat, v: int): Waiter
    requires s < |x.g.sources|
  {
    Waiter(v, s, x.g.sources[s].priority)
  }

  /** Readers retry only requests that were woken; pollers report only approvals that were issued. */
  predicate Legal(x: Sys, e: Event) {
    match e
    case Propose(s, w, v) => ValidWorker(x.g, s, w) && s < |x.last|
    case Retry(s, w, v) => ValidWorker(x.g, s, w) && s < |x.last| && Request(x, s, v) in x.woken
    case ApproveTime => true
    case Report(approvals) => ValidApprovals(x.g, approvals) && multiset(approvals) <= x.inflight
    case Idle(s, w) => ValidWorker(x.g, s, w)
  }

  /** The requests that left the queue between two states of the group. */
  function Woken(g: Group, g': Group): multiset<Waiter> {
    multiset(g.waiting) - multiset(g'.waiting)
  }

  ghost function Proposed(x: Sys, s: nat, w: nat, v: int): Sys
    requires ValidWorker(x.g, s, w) && s < |x.last|
  {
    var (g', ok) := SyncGroup.Propose(x.g, s, w, v);
    var a := Approval(Some(s), v);
    Sys(g', x.woken + Woken(x.g, g'),
        if ok then x.inflight + multiset{a} else x.inflight,
        if ok then x.approved + [a] else x.approved,
        x.last[s := Some(v)])
  }

  ghost function Step(x: Sys, e: Event): Sys
    requires Legal(x, e)
  {
    match e
    case Propose(s, w, v) => Proposed(x, s, w, v)
    case Retry(s, w, v) => Proposed(x.(woken := x.woken - multiset{Request(x, s, v)}), s, w, v)
    case ApproveTime => x.(inflight := x.inflight + multiset{TIME_APPROVAL})
    case Report(approvals) =>
      var g' := SyncGroup.Report(x.g, approvals);
      x.(g := g', woken := x.woken + Woken(x.g, g'), inflight := x.inflight - multiset(approvals))
    case Idle(s, w) =>
      var g' := GoIdle(x.g, s, w);
      x.(g := g', woken := x.woken + Woken(x.g, g'))
  }

  ghost predicate LegalRun(x: Sys, es: seq<Event>)
    decreases |es|, 0
  {
    es == [] || (LegalRun(x, es[..|es| - 1]) && Legal(Exec(x, es[..|es| - 1]), es[|es| - 1]))
  }

  ghost function Exec(x: Sys, es: seq<Event>): Sys
    requires LegalRun(x, es)
    decreases |es|, 1
  {
    if es == [] then x else Step(Exec(x, es[..|es| - 1]), es[|es| - 1])
  }

  // ----- the invariant of every reachable state

  ghost predicate WellFormed(g: Group) {
    && (forall i :: 0 <= i < |g.sources| ==>
          g.sources[i].workers > 0 && g.sources[i].idle <= Workers(g.sources[i].workers))
    && (forall w :: w in g.waiting ==> w.source < |g.sources| && w.priority == g.sources[w.source].priority)
  }

  /** The cached priority is exact. */
  ghost predicate ExactCache(g: Group) {
    g.maxPriority == MaxActive(g.sources)
  }

  /** The cached priority is never too low, and it is exact once there is a threshold. */
  ghost predicate CacheSound(g: Group) {
    MaxActive(g.sources) <= g.maxPriority && (g.mpv.Some? ==> ExactCache(g))
  }

  /** A queued request keeps its source's proposal at or below it; hence its source is active. */
  ghost predicate QueueProposed(g: Group) {
    forall w :: w in g.waiting && w.source < |g.sources| ==>
      g.sources[w.source].npv.Some? && g.sources[w.source].npv.value <= w.value
  }

  /** Once there is a threshold, every active source has been heard from. */
  ghost predicate Heard(g: Group) {
    g.mpv.Some? ==>
      forall i :: 0 <= i < |g.sources| && !g.sources[i].Idle() ==>
        g.sources[i].npv.Some? || g.sources[i].lrv.Some?
  }

  /** No lost wake-up: a request is queued only for a reason that still holds. */
  ghost predicate NoLostWakeup(g: Group) {
    g.mpv.Some? ==> forall w :: w in g.waiting ==> !Released(g.sources, w, g.mpv.value)
  }

  ghost predicate Queued(g: Group, s: nat, v: int) {
    exists w :: w in g.waiting && w.source == s && w.value == v
  }

  ghost predicate Unblocked(g: Group, i: nat)
    requires i < |g.sources|
  {
    !g.sources[i].Idle() && (g.sources[i].npv.None? || !Queued(g, i, g.sources[i].npv.value))
  }

  /** Someone can move whenever someone waits. */
  ghost predicate SomeoneUnblocked(g: Group) {
    g.waiting != [] ==> exists i :: 0 <= i < |g.sources| && Unblocked(g, i)
  }

  ghost predicate Inv(g: Group) {
    && WellFormed(g) && CacheSound(g) && QueueProposed(g)
    && Heard(g) && NoLostWakeup(g) && SomeoneUnblocked(g)
  }

  // ----- recalculation establishes the invariant

  /** What every step establishes before it recalculates. */
  ghost predicate Pre(g: Group) {
    WellFormed(g) && QueueProposed(g) && Heard(g)
  }

  lemma QueueActive(g: Group, w: Waiter)
    requires WellFormed(g) && QueueProposed(g) && w in g.waiting
    ensures !g.sources[w.source].Idle()
  {
  }

  lemma PassingIsUnblocked(g: Group, i: nat)
    requires WellFormed(g) && Fresh(g.sources, g.d).Some?
    requires i < |g.sources| && MayPass(g.sources, g.sources[i], Fresh(g.sources, g.d).value)
    ensures Unblocked(Update(g), i)
  {
    KeepIs(g.sources, g.waiting, Fresh(g.sources, g.d).value);
  }

  lemma UpdateUnblocks(g: Group)
    requires Pre(g)
    ensures SomeoneUnblocked(Update(g))
    ensures Fresh(g.sources, g.d).Some? && AllProposed(g.sources) ==> InRange(g.sources, Fresh(g.sources, g.d).value)
  {
    var g' := Update(g);
    var ss := g.sources;
    if !AllProposed(ss) {
      var i :| 0 <= i < |ss| && !ss[i].Idle() && ss[i].npv.None?;
      assert Unblocked(g', i);
    } else if Fresh(ss, g.d).Some? {
      FreshFreesSomeone(ss, g.d);
      var t := Fresh(ss, g.d).value;
      var i :| 0 <= i < |ss| && MayPass(ss, ss[i], t);
      PassingIsUnblocked(g, i);
    } else if g'.waiting != [] {
      QueueActive(g, g.waiting[0]);
      FreshDefined(ss, g.d);
      assert false;
    }
  }

  lemma UpdateInv(g: Group)
    requires Pre(g) && (g.mpv.Some? && !AnyActive(g.sources) ==> g.waiting == [])
    ensures Inv(Update(g))
    ensures g.mpv.Some? && AnyActive(g.sources) ==> Fresh(g.sources, g.d).Some?
  {
    UpdateUnblocks(g);
    FreshDefined(g.sources, g.d);
    if Fresh(g.sources, g.d).Some? { KeepIs(g.sources, g.waiting, Fresh(g.sources, g.d).value); }
  }

  // ----- each step keeps the invariant

  /** Making one source active can raise the maximal active priority to that source's own, and no further. */
  lemma ActivatedMax(ss: seq<Source>, ss1: seq<Source>, s: nat)
    requires s < |ss| == |ss1| && !ss1[s].Idle() && ss1[s].priority == ss[s].priority
    requires forall i :: 0 <= i < |ss| && i != s ==> ss1[i] == ss[i]
    ensures MaxActive(ss1) == if MaxActive(ss) < ss[s].priority then ss[s].priority else MaxActive(ss)
  {
    var p, p1 := MaxActive(ss), MaxActive(ss1);
    MaxActiveIs(ss);
    MaxActiveIs(ss1);
    assert ss1[s].priority <= p1;
    if p > 0 {
      var i :| 0 <= i < |ss| && !ss[i].Idle() && ss[i].priority == p;
      assert !ss1[i].Idle();
    }
    if p1 > 0 {
      var i :| 0 <= i < |ss1| && !ss1[i].Idle() && ss1[i].priority == p1;
    }
  }

  lemma ProposingPre(g: Group, s: nat, w: nat, v: int)
    requires Inv(g) && ValidWorker(g, s, w)
    ensures Pre(Proposing(g, s, w, v)) && AnyActive(Proposing(g, s, w, v).sources)
    ensures CacheSound(Proposing(g, s, w, v))
  {
    var g1 := Proposing(g, s, w, v);
    assert !g1.sources[s].Idle();
    forall i | 0 <= i < |g.sources| && i != s ensures g1.sources[i] == g.sources[i] {}
    ActivatedMax(g.sources, g1.sources, s);
  }

  /** The cached comparison decides exactly what the full scan decides. */
  lemma ShortcutIsScan(g: Group, v: int, s: nat)
    requires CacheSound(g) && s < |g.sources| && !g.sources[s].Idle()
    ensures Respects(g, v, g.sources[s].priority) <==> !Behind(g.sources, v, g.sources[s].priority)
  {
    MaxActiveIs(g.sources);
  }

  lemma SameActivity(ss: seq<Source>, ss1: seq<Source>, v: int, p: nat)
    requires |ss| == |ss1|
    requires forall i :: 0 <= i < |ss| ==>
               ss1[i].Idle() == ss[i].Idle() && ss1[i].lrv == ss[i].lrv && ss1[i].priority == ss[i].priority
    ensures Behind(ss1, v, p) <==> Behind(ss, v, p)
  {
    forall i | 0 <= i < |ss| ensures LagsBehind(ss1[i], v, p) == LagsBehind(ss[i], v, p) {}
  }

  lemma HotPathInv(g: Group, s: nat, w: nat, v: int)
    requires Inv(g) && ValidWorker(g, s, w) && HotPath(g, s, w, v)
    ensures Inv(Proposing(g, s, w, v))
  {
    var g1 := Proposing(g, s, w, v);
    ProposingPre(g, s, w, v);
    forall q | q in g.waiting ensures !Released(g1.sources, q, g1.mpv.value) {
      SameActivity(g.sources, g1.sources, q.value, q.priority);
    }
    if g.waiting != [] {
      var i :| 0 <= i < |g.sources| && Unblocked(g, i);
      if i == s && g1.sources[s].npv == Some(v) {
        ShortcutIsScan(g1, v, s);
        assert !Queued(g1, s, v);
      }
      assert Unblocked(g1, i);
    }
  }

  function Enqueued(g: Group, s: nat, v: int): Group
    requires s < |g.sources|
  {
    g.(waiting := g.waiting + [Waiter(v, s, g.sources[s].priority)])
  }

  lemma EnqueueKeepsUnblocked(g: Group, s: nat, v: int, i: nat)
    requires s < |g.sources| && i < |g.sources| && Unblocked(g, i)
    requires i == s ==> g.sources[s].npv != Some(v)
    ensures SomeoneUnblocked(Enqueued(g, s, v))
  {
    assert Unblocked(Enqueued(g, s, v), i);
  }

  /** A refused request can be queued: someone else is free to move. */
  lemma EnqueueUnblocked(g: Group, s: nat, v: int)
    requires Pre(g) && s < |g.sources| && g.sources[s].npv.Some?
    requires !Passes(Update(g), v, g.sources[s].priority)
    ensures SomeoneUnblocked(Enqueued(Update(g), s, v))
  {
    var ss := g.sources;
    if !AllProposed(ss) {
      var i :| 0 <= i < |ss| && !ss[i].Idle() && ss[i].npv.None?;
      EnqueueKeepsUnblocked(Update(g), s, v, i);
    } else {
      FreshDefined(ss, g.d);
      FreshFreesSomeone(ss, g.d);
      var i :| 0 <= i < |ss| && MayPass(ss, ss[i], Fresh(ss, g.d).value);
      PassingIsUnblocked(g, i);
      EnqueueKeepsUnblocked(Update(g), s, v, i);
    }
  }

  lemma EnqueueInv(g: Group, s: nat, v: int)
    requires Inv(g) && s < |g.sources| && g.sources[s].npv.Some? && g.sources[s].npv.value <= v
    requires !Passes(g, v, g.sources[s].priority) && SomeoneUnblocked(Enqueued(g, s, v))
    ensures Inv(Enqueued(g, s, v))
  {
    ShortcutIsScan(g, v, s);
  }

  lemma ProposeInv(g: Group, s: nat, w: nat, v: int)
    requires Inv(g) && ValidWorker(g, s, w)
    ensures Inv(SyncGroup.Propose(g, s, w, v).0)
  {
    if HotPath(g, s, w, v) {
      HotPathInv(g, s, w, v);
    } else {
      var g1 := Proposing(g, s, w, v);
      ProposingPre(g, s, w, v);
      UpdateInv(g1);
      if !Passes(Update(g1), v, g.sources[s].priority) {
        EnqueueUnblocked(g1, s, v);
        EnqueueInv(Update(g1), s, v);
      }
    }
  }

  lemma ReportOnePre(g: Group, a: Approval)
    requires Pre(g) && ValidApproval(g, a)
    ensures Pre(ReportOne(g, a))
  {
    if a.source.Some? {
      var s := a.source.value;
      var g1 := ReportOne(g, a);
      LeastQueuedIs(g.waiting, s);
      assert g1.sources[s].lrv.Some?;
      forall i | 0 <= i < |g.sources| && i != s ensures g1.sources[i] == g.sources[i] {}
    }
  }

  lemma {:induction false} ReportAllPre(g: Group, approvals: seq<Approval>)
    requires Inv(g) && ValidApprovals(g, approvals)
    ensures var g1 := ReportAll(g, approvals);
            Pre(g1) && g1.waiting == g.waiting && g1.mpv == g.mpv && g1.d == g.d
    decreases |approvals|
  {
    if approvals == [] {
    } else {
      var n := |approvals| - 1;
      ReportAllPre(g, approvals[..n]);
      ReportOnePre(ReportAll(g, approvals[..n]), approvals[n]);
    }
  }

  lemma ReportInv(g: Group, approvals: seq<Approval>)
    requires Inv(g) && ValidApprovals(g, approvals)
    ensures Inv(SyncGroup.Report(g, approvals))
  {
    ReportAllPre(g, approvals);
    var g1 := ReportAll(g, approvals);
    if g1.waiting != [] { QueueActive(g1, g1.waiting[0]); }
    UpdateInv(g1);
  }

  function Idling(g: Group, s: nat, w: nat): Group
    requires ValidWorker(g, s, w)
  {
    g.(sources := g.sources[s := g.sources[s].(idle := g.sources[s].idle + {w})])
  }

  lemma IdlingPre(g: Group, s: nat, w: nat)
    requires Inv(g) && ValidWorker(g, s, w)
    ensures Pre(Idling(g, s, w))
    ensures !AnyActive(Idling(g, s, w).sources) ==> g.waiting == []
  {
    var g1 := Idling(g, s, w);
    forall i | 0 <= i < |g.sources| && i != s ensures g1.sources[i] == g.sources[i] {}
    assert g1.sources[s].Idle() || !g.sources[s].Idle();
    if g1.waiting != [] { QueueActive(g1, g1.waiting[0]); }
  }

  lemma IdlingUnblocked(g: Group, s: nat, w: nat)
    requires Inv(g) && ValidWorker(g, s, w) && !Idling(g, s, w).sources[s].Idle()
    ensures SomeoneUnblocked(GoIdle(g, s, w)) && NoLostWakeup(GoIdle(g, s, w))
  {
    var g1 := GoIdle(g, s, w);
    assert !g.sources[s].Idle();
    forall q | q in g.waiting && g.mpv.Some? ensures !Released(g1.sources, q, g1.mpv.value) {
      SameActivity(g.sources, g1.sources, q.value, q.priority);
    }
    if g.waiting != [] {
      var i :| 0 <= i < |g.sources| && Unblocked(g, i);
      assert Unblocked(g1, i);
    }
  }

  lemma GoIdleInv(g: Group, s: nat, w: nat)
    requires Inv(g) && ValidWorker(g, s, w)
    ensures Inv(GoIdle(g, s, w))
  {
    var g1 := Idling(g, s, w);
    IdlingPre(g, s, w);
    if !g1.sources[s].Idle() {
      IdlingUnblocked(g, s, w);
    } else if AnyActive(g1.sources) {
      UpdateInv(g1);
      assert GoIdle(g, s, w) == Update(g1);
    }
  }
}
