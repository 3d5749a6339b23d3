/** How far apart the approved values of a group can be. */
module SyncGroupSkew {
  import opened Wrappers
  import opened SyncGroup
  import opened SyncGroupThreshold
  import opened SyncGroupRuns
  import opened SyncGroupTheorems

  ghost predicate EqualPriorities(g: Group) {
    forall i, j :: 0 <= i < |g.sources| && 0 <= j < |g.sources| ==> g.sources[i].priority == g.sources[j].priority
  }

  /** No worker goes idle and each source proposes non-decreasing values. */
  ghost predicate Steady(x: Sys, e: Event)
    requires Legal(x, e)
  {
    !e.Idle? && (e.Propose? || e.Retry? ==> Leq(x.last[e.s], Some(e.v)))
  }

  ghost predicate SteadyRun(x: Sys, es: seq<Event>)
    requires LegalRun(x, es)
    decreases |es|
  {
    es == [] || (SteadyRun(x, es[..|es| - 1]) && Steady(Exec(x, es[..|es| - 1]), es[|es| - 1]))
  }

  /** Every source has already proposed something within the window of `v`. */
  ghost predicate Near(last: seq<Option<int>>, d: int, v: int) {
    forall t :: 0 <= t < |last| ==> Leq(Some(v - d), last[t])
  }

  ghost predicate SourcesNear(g: Group, last: seq<Option<int>>) {
    && |last| == |g.sources|
    && (forall i :: 0 <= i < |last| ==>
          && g.sources[i].workers > 0 && g.sources[i].idle == {}
          && Leq(g.sources[i].npv, last[i]) && Leq(g.sources[i].lrv, last[i])
          && (g.sources[i].lrv.Some? ==> Near(last, g.d, g.sources[i].lrv.value)))
    && (forall w :: w in g.waiting ==> w.source < |last| && Leq(Some(w.value), last[w.source]))
  }

  ghost predicate ThresholdNear(g: Group, last: seq<Option<int>>) {
    g.mpv.Some? ==> Near(last, g.d, g.mpv.value)
  }

  ghost predicate ApprovalNear(last: seq<Option<int>>, d: int, a: Approval) {
    && a.source.Some? && a.source.value < |last|
    && Leq(Some(a.value), last[a.source.value]) && Near(last, d, a.value)
  }

  ghost predicate Spread(approved: seq<Approval>, d: int) {
    forall i, j :: 0 <= i < j < |approved| ==> approved[j].value >= approved[i].value - d
  }

  ghost predicate GroupNear(g: Group, last: seq<Option<int>>) {
    g.d >= 0 && EqualPriorities(g) && SourcesNear(g, last) && ThresholdNear(g, last)
  }

  ghost predicate AllNear(approved: seq<Approval>, last: seq<Option<int>>, d: int) {
    forall a :: a in approved ==> ApprovalNear(last, d, a)
  }

  ghost predicate Known(inflight: multiset<Approval>, approved: seq<Approval>) {
    forall a :: a in inflight && a.source.Some? ==> a in approved
  }

  ghost predicate SkewInv(x: Sys) {
    && GroupNear(x.g, x.last)
    && AllNear(x.approved, x.last, x.g.d) && Known(x.inflight, x.approved) && Spread(x.approved, x.g.d)
  }

  lemma FreshNear(g: Group, last: seq<Option<int>>)
    requires g.d >= 0 && EqualPriorities(g) && SourcesNear(g, last) && Fresh(g.sources, g.d).Some?
    ensures Near(last, g.d, Fresh(g.sources, g.d).value)
  {
    var ss := g.sources;
    EqualPrioritiesNeverForce(ss, g.d);
    LeastBoundIs(ss, g.d);
    MaxLrvIs(ss);
    var m := LeastBound(ss, g.d).value;
    if MaxLrv(ss).Some? {
      var r :| 0 <= r < |ss| && ss[r].lrv == MaxLrv(ss);
      assert Near(last, g.d, ss[r].lrv.value);
    }
    forall t | 0 <= t < |last| ensures Leq(Some(m - g.d), last[t]) {
      assert 0 in Workers(ss[t].workers);
      assert !ss[t].Idle();
      assert Leq(Some(m), ss[t].Bound(g.d));
    }
  }

  lemma UpdateNear(g: Group, last: seq<Option<int>>)
    requires g.d >= 0 && EqualPriorities(g) && SourcesNear(g, last) && ThresholdNear(g, last)
    ensures SourcesNear(Update(g), last) && ThresholdNear(Update(g), last)
  {
    if Fresh(g.sources, g.d).Some? {
      FreshNear(g, last);
      KeepIs(g.sources, g.waiting, Fresh(g.sources, g.d).value);
    }
  }

  /** Proposals only move forward, so what was near stays near. */
  lemma NearForward(last: seq<Option<int>>, s: nat, p: int, d: int, v: int)
    requires s < |last| && Leq(last[s], Some(p)) && Near(last, d, v)
    ensures Near(last[s := Some(p)], d, v)
  {
    var last1 := last[s := Some(p)];
    forall t | 0 <= t < |last1| ensures Leq(Some(v - d), last1[t]) {
      assert Leq(Some(v - d), last[t]);
    }
  }

  lemma ProposingNear(g: Group, last: seq<Option<int>>, s: nat, w: nat, v: int)
    requires ValidWorker(g, s, w) && EqualPriorities(g)
    requires SourcesNear(g, last) && ThresholdNear(g, last) && Leq(last[s], Some(v))
    ensures var g1 := Proposing(g, s, w, v);
            EqualPriorities(g1) && SourcesNear(g1, last[s := Some(v)]) && ThresholdNear(g1, last[s := Some(v)])
  {
    var g1 := Proposing(g, s, w, v);
    var last1 := last[s := Some(v)];
    forall i | 0 <= i < |last| && g.sources[i].lrv.Some? ensures Near(last1, g.d, g.sources[i].lrv.value) {
      NearForward(last, s, v, g.d, g.sources[i].lrv.value);
    }
    if g.mpv.Some? { NearForward(last, s, v, g.d, g.mpv.value); }
    forall i | 0 <= i < |last| && i != s ensures g1.sources[i] == g.sources[i] {}
  }

  lemma ProposeNear(g: Group, last: seq<Option<int>>, s: nat, w: nat, v: int)
    requires ValidWorker(g, s, w) && g.d >= 0 && EqualPriorities(g)
    requires SourcesNear(g, last) && ThresholdNear(g, last) && Leq(last[s], Some(v))
    ensures var (g', ok) := SyncGroup.Propose(g, s, w, v);
            var last1 := last[s := Some(v)];
            && SourcesNear(g', last1) && ThresholdNear(g', last1)
            && (ok ==> Near(last1, g.d, v))
  {
    var g1 := Proposing(g, s, w, v);
    var last1 := last[s := Some(v)];
    ProposingNear(g, last, s, w, v);
    UpdateNear(g1, last1);
    var (g', ok) := SyncGroup.Propose(g, s, w, v);
    if ok {
      assert Near(last1, g.d, g'.mpv.value);
      forall t | 0 <= t < |last1| ensures Leq(Some(v - g.d), last1[t]) {
        assert Leq(Some(g'.mpv.value - g.d), last1[t]);
      }
    }
  }

  lemma ProposedGroupNear(g: Group, last: seq<Option<int>>, s: nat, w: nat, v: int)
    requires GroupNear(g, last) && ValidWorker(g, s, w) && s < |last| && Leq(last[s], Some(v))
    ensures var (g', ok) := SyncGroup.Propose(g, s, w, v);
            g'.d == g.d && GroupNear(g', last[s := Some(v)]) && (ok ==> Near(last[s := Some(v)], g.d, v))
  {
    ProposeEffect(g, s, w, v);
    ProposeNear(g, last, s, w, v);
  }

  lemma ApprovedOneMore(inflight: multiset<Approval>, approved: seq<Approval>, last: seq<Option<int>>, d: int, a: Approval)
    requires AllNear(approved, last, d) && Known(inflight, approved) && Spread(approved, d)
    requires ApprovalNear(last, d, a)
    requires forall i :: 0 <= i < |approved| ==> a.value >= approved[i].value - d
    ensures AllNear(approved + [a], last, d) && Known(inflight + multiset{a}, approved + [a]) && Spread(approved + [a], d)
  {
    forall b | b in inflight + multiset{a} && b.source.Some? ensures b in approved + [a] {
      if b in inflight && b.source.Some? { assert b in approved; }
    }
  }

  /** What was approved stays near, and `v` may follow all of it. */
  lemma ApprovedForward(approved: seq<Approval>, last: seq<Option<int>>, d: int, s: nat, v: int)
    requires s < |last| && Leq(last[s], Some(v))
    requires AllNear(approved, last, d)
    ensures AllNear(approved, last[s := Some(v)], d)
    ensures forall i :: 0 <= i < |approved| ==> v >= approved[i].value - d
  {
    forall a | a in approved ensures ApprovalNear(last[s := Some(v)], d, a) {
      NearForward(last, s, v, d, a.value);
    }
    forall i | 0 <= i < |approved| ensures v >= approved[i].value - d {
      assert ApprovalNear(last, d, approved[i]);
      assert Leq(Some(approved[i].value - d), last[s]);
    }
  }

  lemma ProposedSkew(x: Sys, s: nat, w: nat, v: int)
    requires SkewInv(x) && ValidWorker(x.g, s, w) && s < |x.last| && Leq(x.last[s], Some(v))
    ensures SkewInv(Proposed(x, s, w, v))
  {
    ProposedGroupNear(x.g, x.last, s, w, v);
    ApprovedForward(x.approved, x.last, x.g.d, s, v);
    var (g', ok) := SyncGroup.Propose(x.g, s, w, v);
    if ok { ApprovedOneMore(x.inflight, x.approved, x.last[s := Some(v)], x.g.d, Approval(Some(s), v)); }
  }

  lemma ReportOneNear(g: Group, last: seq<Option<int>>, a: Approval)
    requires ValidApproval(g, a) && EqualPriorities(g) && SourcesNear(g, last) && (a.source.Some? ==> ApprovalNear(last, g.d, a))
    ensures SourcesNear(ReportOne(g, a), last) && EqualPriorities(ReportOne(g, a))
  {
    if a.source.Some? {
      var s := a.source.value;
      var g1 := ReportOne(g, a);
      LeastQueuedIs(g.waiting, s);
      forall i | 0 <= i < |last| && i != s ensures g1.sources[i] == g.sources[i] {}
    }
  }

  lemma {:induction false} ReportAllNear(g: Group, last: seq<Option<int>>, approvals: seq<Approval>)
    requires ValidApprovals(g, approvals) && EqualPriorities(g) && SourcesNear(g, last)
    requires forall k :: 0 <= k < |approvals| && approvals[k].source.Some? ==> ApprovalNear(last, g.d, approvals[k])
    ensures var g1 := ReportAll(g, approvals);
            && SourcesNear(g1, last) && EqualPriorities(g1)
            && g1.d == g.d && g1.mpv == g.mpv && g1.waiting == g.waiting
    decreases |approvals|
  {
    if approvals == [] {
    } else {
      var n := |approvals| - 1;
      ReportAllNear(g, last, approvals[..n]);
      ReportOneNear(ReportAll(g, approvals[..n]), last, approvals[n]);
    }
  }

  lemma ReportNear(g: Group, last: seq<Option<int>>, approvals: seq<Approval>)
    requires GroupNear(g, last) && ValidApprovals(g, approvals)
    requires forall k :: 0 <= k < |approvals| && approvals[k].source.Some? ==> ApprovalNear(last, g.d, approvals[k])
    ensures SyncGroup.Report(g, approvals).d == g.d && GroupNear(SyncGroup.Report(g, approvals), last)
  {
    ReportAllNear(g, last, approvals);
    UpdateNear(ReportAll(g, approvals), last);
  }

  lemma ReportSkew(x: Sys, approvals: seq<Approval>)
    requires SkewInv(x) && Legal(x, Event.Report(approvals))
    ensures SkewInv(Step(x, Event.Report(approvals)))
  {
    forall k | 0 <= k < |approvals| && approvals[k].source.Some? ensures ApprovalNear(x.last, x.g.d, approvals[k]) {
      assert approvals[k] in multiset(approvals);
    }
    ReportNear(x.g, x.last, approvals);
  }

  lemma RetrySkew(x: Sys, s: nat, w: nat, v: int)
    requires SkewInv(x) && Legal(x, Retry(s, w, v)) && Leq(x.last[s], Some(v))
    ensures SkewInv(Step(x, Retry(s, w, v)))
  {
    ProposedSkew(x.(woken := x.woken - multiset{Request(x, s, v)}), s, w, v);
  }

  lemma StepSkew(x: Sys, e: Event)
    requires SkewInv(x) && Legal(x, e) && Steady(x, e)
    ensures SkewInv(Step(x, e))
  {
    match e
    case Propose(s, w, v) => ProposedSkew(x, s, w, v);
    case Retry(s, w, v) => RetrySkew(x, s, w, v);
    case ApproveTime =>
    case Report(approvals) => ReportSkew(x, approvals);
  }

  lemma {:induction false} SteadyRunsKeepSkew(x: Sys, es: seq<Event>)
    requires Init(x) && LegalRun(x, es) && SteadyRun(x, es) && x.g.d >= 0 && EqualPriorities(x.g)
    ensures SkewInv(Exec(x, es))
    decreases |es|
  {
    if es == [] {
    } else {
      SteadyRunsKeepSkew(x, es[..|es| - 1]);
      StepSkew(Exec(x, es[..|es| - 1]), es[|es| - 1]);
    }
  }

  /** Once a value is approved, no source is ever granted one that lies more than the window below it. */
  lemma BoundedSkew(x: Sys, es: seq<Event>, i: nat, j: nat)
    requires Init(x) && LegalRun(x, es) && SteadyRun(x, es) && x.g.d >= 0 && EqualPriorities(x.g)
    requires i < j < |Exec(x, es).approved|
    ensures Exec(x, es).approved[j].value >= Exec(x, es).approved[i].value - x.g.d
  {
    SteadyRunsKeepSkew(x, es);
    ReachableInv(x, es);
  }
}
