/** Which values a group lets through, in terms of what its sources proposed and reported. */
module SyncGroupApproval {
  import opened Wrappers
  import opened SyncGroup
  import opened SyncGroupThreshold
  import opened SyncGroupRuns
  import opened SyncGroupTheorems

  // ----- the threshold, value by value

  /** The source itself does not hold `v` back: it reported something within the window of `v` or proposed `v` or more. */
  predicate Within(s: Source, d: int, v: int) {
    (s.lrv.Some? && v <= s.lrv.value + d) || (s.npv.Some? && v <= s.npv.value)
  }

  /** No active source holds `v` back, or `v` does not go beyond what was already reported. */
  ghost predicate Admits(ss: seq<Source>, d: int, v: int) {
    || (forall i :: 0 <= i < |ss| && !ss[i].Idle() ==> Within(ss[i], d, v))
    || (exists i :: 0 <= i < |ss| && ss[i].lrv.Some? && v <= ss[i].lrv.value)
  }

  /** An active source of higher priority has reported nothing or less than `v`. */
  ghost predicate Overtakes(ss: seq<Source>, v: int, p: nat) {
    exists i :: 0 <= i < |ss| && !ss[i].Idle() && ss[i].priority > p && (ss[i].lrv.None? || ss[i].lrv.value < v)
  }

  /** Every active source has proposed something, and none of it may pass. */
  ghost predicate Stuck(ss: seq<Source>, d: int) {
    forall i :: 0 <= i < |ss| && !ss[i].Idle() ==>
      ss[i].npv.Some? && (!Admits(ss, d, ss[i].npv.value) || Overtakes(ss, ss[i].npv.value, ss[i].priority))
  }

  ghost predicate Top(ss: seq<Source>, i: nat)
    requires i < |ss|
  {
    !ss[i].Idle() && forall j :: 0 <= j < |ss| && !ss[j].Idle() ==> ss[j].priority <= ss[i].priority
  }

  /** No active source of the highest priority has proposed less than `v`. */
  ghost predicate BelowTop(ss: seq<Source>, v: int) {
    forall i :: 0 <= i < |ss| && Top(ss, i) ==> ss[i].npv.Some? && v <= ss[i].npv.value
  }

  ghost predicate AllHeard(ss: seq<Source>) {
    AnyActive(ss) && forall i :: 0 <= i < |ss| && !ss[i].Idle() ==> ss[i].npv.Some? || ss[i].lrv.Some?
  }

  lemma OvertakesIsBehind(ss: seq<Source>, v: int, p: nat)
    ensures Overtakes(ss, v, p) <==> Behind(ss, v, p)
  {
    if Overtakes(ss, v, p) {
      var i :| 0 <= i < |ss| && !ss[i].Idle() && ss[i].priority > p && (ss[i].lrv.None? || ss[i].lrv.value < v);
      assert LagsBehind(ss[i], v, p);
    }
    if Behind(ss, v, p) {
      var i :| 0 <= i < |ss| && LagsBehind(ss[i], v, p);
    }
  }

  lemma BoundIsWithin(s: Source, d: int, v: int)
    ensures Leq(Some(v), s.Bound(d)) <==> Within(s, d, v)
  {
  }

  lemma LeastBoundAdmits(ss: seq<Source>, d: int, v: int)
    requires AnyActive(ss)
    ensures Leq(Some(v), LeastBound(ss, d)) <==> forall i :: 0 <= i < |ss| && !ss[i].Idle() ==> Within(ss[i], d, v)
  {
    var m := LeastBound(ss, d);
    LeastBoundIs(ss, d);
    if Leq(Some(v), m) {
      forall i | 0 <= i < |ss| && !ss[i].Idle() ensures Within(ss[i], d, v) {
        assert Leq(m, ss[i].Bound(d));
        BoundIsWithin(ss[i], d, v);
      }
    }
    if forall i :: 0 <= i < |ss| && !ss[i].Idle() ==> Within(ss[i], d, v) {
      var k :| 0 <= k < |ss| && !ss[k].Idle() && ss[k].Bound(d) == m;
      BoundIsWithin(ss[k], d, v);
    }
  }

  lemma MaxLrvAdmits(ss: seq<Source>, v: int)
    ensures Leq(Some(v), MaxLrv(ss)) <==> exists i :: 0 <= i < |ss| && ss[i].lrv.Some? && v <= ss[i].lrv.value
  {
    MaxLrvIs(ss);
    if Leq(Some(v), MaxLrv(ss)) {
      var i :| 0 <= i < |ss| && ss[i].lrv == MaxLrv(ss);
      assert ss[i].lrv.Some? && v <= ss[i].lrv.value;
    }
    if exists i :: 0 <= i < |ss| && ss[i].lrv.Some? && v <= ss[i].lrv.value {
      var i :| 0 <= i < |ss| && ss[i].lrv.Some? && v <= ss[i].lrv.value;
      assert Leq(ss[i].lrv, MaxLrv(ss));
    }
  }

  lemma RawAdmits(ss: seq<Source>, d: int, v: int)
    requires AllHeard(ss)
    ensures Raw(ss, d).Some? && (v <= Raw(ss, d).value <==> Admits(ss, d, v))
  {
    FreshDefined(ss, d);
    LeastBoundAdmits(ss, d, v);
    MaxLrvAdmits(ss, v);
  }

  lemma StuckIsForced(ss: seq<Source>, d: int)
    requires AllHeard(ss)
    ensures Raw(ss, d).Some? && (Stuck(ss, d) <==> AllProposed(ss) && !InRange(ss, Raw(ss, d).value))
  {
    RawAdmits(ss, d, 0);
    var t := Raw(ss, d).value;
    forall i | 0 <= i < |ss| && !ss[i].Idle() && ss[i].npv.Some?
      ensures MayPass(ss, ss[i], t) <==> Admits(ss, d, ss[i].npv.value) && !Overtakes(ss, ss[i].npv.value, ss[i].priority)
    {
      RawAdmits(ss, d, ss[i].npv.value);
      OvertakesIsBehind(ss, ss[i].npv.value, ss[i].priority);
    }
  }

  lemma TopIsMaxActive(ss: seq<Source>, i: nat)
    requires AnyActive(ss) && i < |ss|
    ensures Top(ss, i) <==> InClass(ss[i], MaxActive(ss))
  {
    MaxActiveIs(ss);
    var a :| 0 <= a < |ss| && !ss[a].Idle();
    assert ss[a].priority <= MaxActive(ss);
    if Top(ss, i) && MaxActive(ss) > 0 {
      var k :| 0 <= k < |ss| && !ss[k].Idle() && ss[k].priority == MaxActive(ss);
      assert ss[k].priority <= ss[i].priority;
    }
  }

  lemma SomeoneOnTop(ss: seq<Source>)
    requires AnyActive(ss)
    ensures AnyInClass(ss, MaxActive(ss))
  {
    MaxActiveIs(ss);
    var a :| 0 <= a < |ss| && !ss[a].Idle();
    assert ss[a].priority <= MaxActive(ss);
    var k :| 0 <= k < |ss| && !ss[k].Idle() && ss[k].priority == MaxActive(ss);
    assert InClass(ss[k], MaxActive(ss));
  }

  lemma LeastProposalIsTop(ss: seq<Source>, v: int)
    requires AnyActive(ss) && AllProposed(ss)
    ensures Leq(Some(v), LeastProposal(ss, MaxActive(ss))) <==> BelowTop(ss, v)
  {
    var p := MaxActive(ss);
    var m := LeastProposal(ss, p);
    LeastProposalIs(ss, p);
    SomeoneOnTop(ss);
    forall i | 0 <= i < |ss| ensures Top(ss, i) <==> InClass(ss[i], p) { TopIsMaxActive(ss, i); }
    if Leq(Some(v), m) {
      forall i | 0 <= i < |ss| && Top(ss, i) ensures ss[i].npv.Some? && v <= ss[i].npv.value {
        assert Leq(m, ss[i].npv);
      }
    }
    if BelowTop(ss, v) {
      var i :| 0 <= i < |ss| && InClass(ss[i], p) && ss[i].npv == m;
      assert Top(ss, i);
    }
  }

  /** Exactly the values that a recalculation lets through: those that nobody holds back, and when everybody is stuck
      also those up to the least proposal of the highest priority. */
  lemma ThresholdIs(ss: seq<Source>, d: int, v: int)
    ensures Fresh(ss, d).Some? <==> AllHeard(ss)
    ensures AllHeard(ss) ==> (v <= Fresh(ss, d).value <==> Admits(ss, d, v) || (Stuck(ss, d) && BelowTop(ss, v)))
  {
    FreshDefined(ss, d);
    if AllHeard(ss) {
      RawAdmits(ss, d, v);
      StuckIsForced(ss, d);
      if Stuck(ss, d) { LeastProposalIsTop(ss, v); }
    }
  }

  // ----- approvals

  ghost predicate LetThrough(ss: seq<Source>, d: int, v: int, p: nat) {
    AllHeard(ss) && !Overtakes(ss, v, p) && (Admits(ss, d, v) || (Stuck(ss, d) && BelowTop(ss, v)))
  }

  /** After a recalculation a value passes if and only if it is let through. */
  lemma PassesIff(g: Group, s: nat, v: int)
    requires Pre(g) && AnyActive(g.sources) && s < |g.sources| && !g.sources[s].Idle()
    ensures Passes(Update(g), v, g.sources[s].priority) <==> LetThrough(g.sources, g.d, v, g.sources[s].priority)
  {
    ThresholdIs(g.sources, g.d, v);
    OvertakesIsBehind(g.sources, v, g.sources[s].priority);
    UpdateInv(g);
    ShortcutIsScan(Update(g), v, s);
  }

  /** In every run: what is let through is approved. */
  lemma LetThroughIsApproved(x: Sys, es: seq<Event>, s: nat, w: nat, v: int)
    requires Init(x) && LegalRun(x, es) && ValidWorker(Exec(x, es).g, s, w)
    requires var g1 := Proposing(Exec(x, es).g, s, w, v);
             LetThrough(g1.sources, g1.d, v, g1.sources[s].priority)
    ensures SyncGroup.Propose(Exec(x, es).g, s, w, v).1
  {
    ReachableInv(x, es);
    var g := Exec(x, es).g;
    ProposingPre(g, s, w, v);
    assert !Proposing(g, s, w, v).sources[s].Idle();
    PassesIff(Proposing(g, s, w, v), s, v);
  }

  /** With proposals that do not go below the outstanding one, nothing else is approved. */
  lemma ApprovedIff(x: Sys, es: seq<Event>, s: nat, w: nat, v: int)
    requires Init(x) && LegalRun(x, es) && MonotoneRun(x, es) && ValidWorker(Exec(x, es).g, s, w)
    requires Leq(Exec(x, es).g.sources[s].npv, Some(v))
    ensures var g1 := Proposing(Exec(x, es).g, s, w, v);
            SyncGroup.Propose(Exec(x, es).g, s, w, v).1 <==> LetThrough(g1.sources, g1.d, v, g1.sources[s].priority)
  {
    ReachableInv(x, es);
    var g := Exec(x, es).g;
    ProposingPre(g, s, w, v);
    assert !Proposing(g, s, w, v).sources[s].Idle();
    PassesIff(Proposing(g, s, w, v), s, v);
    if HotPath(g, s, w, v) { HotPathRefinesSlowPath(x, es, s, w, v); }
  }

  /** All priorities are equal, and `v` is within the window of what source `s` and every active source reported. */
  ghost predicate InWindow(g: Group, s: nat, v: int) {
    && (forall i, j :: 0 <= i < |g.sources| && 0 <= j < |g.sources| ==> g.sources[i].priority == g.sources[j].priority)
    && (forall i :: 0 <= i < |g.sources| && (i == s || !g.sources[i].Idle()) ==>
          g.sources[i].lrv.Some? && v <= g.sources[i].lrv.value + g.d)
  }

  lemma WithinIsLetThrough(g: Group, s: nat, w: nat, v: int)
    requires ValidWorker(g, s, w) && InWindow(g, s, v)
    ensures var g1 := Proposing(g, s, w, v);
            LetThrough(g1.sources, g1.d, v, g1.sources[s].priority)
  {
    var g1 := Proposing(g, s, w, v);
    forall i | 0 <= i < |g.sources| && i != s ensures g1.sources[i] == g.sources[i] {}
    assert !g1.sources[s].Idle();
    assert AnyActive(g1.sources);
    assert forall i :: 0 <= i < |g1.sources| && !g1.sources[i].Idle() ==> Within(g1.sources[i], g.d, v);
  }

  /** With equal priorities a value within the window of what every active source reported is approved. */
  lemma WithinWindowIsApproved(x: Sys, es: seq<Event>, s: nat, w: nat, v: int)
    requires Init(x) && LegalRun(x, es) && ValidWorker(Exec(x, es).g, s, w)
    requires InWindow(Exec(x, es).g, s, v)
    ensures SyncGroup.Propose(Exec(x, es).g, s, w, v).1
  {
    WithinIsLetThrough(Exec(x, es).g, s, w, v);
    LetThroughIsApproved(x, es, s, w, v);
  }

  // ----- what was reported

  /** All reports of a run, in order. */
  function Reports(es: seq<Event>): seq<Approval> {
    if es == [] then []
    else if es[|es| - 1].Report? then Reports(es[..|es| - 1]) + es[|es| - 1].approvals
    else Reports(es[..|es| - 1])
  }

  /** `m` is the greatest value reported for source `s`, on top of `before`; unset when there is none. */
  ghost predicate Greatest(m: Option<int>, before: Option<int>, reports: seq<Approval>, s: nat) {
    && Leq(before, m)
    && (forall k :: 0 <= k < |reports| && reports[k].source == Some(s) ==> Leq(Some(reports[k].value), m))
    && (m == before || exists k :: 0 <= k < |reports| && reports[k].source == Some(s) && Some(reports[k].value) == m)
  }

  lemma GreatestSnoc(m: Option<int>, before: Option<int>, reports: seq<Approval>, a: Approval, s: nat)
    requires Greatest(m, before, reports, s)
    ensures Greatest(if a.source == Some(s) then Max(m, Some(a.value)) else m, before, reports + [a], s)
  {
    var m' := if a.source == Some(s) then Max(m, Some(a.value)) else m;
    forall k | 0 <= k < |reports + [a]| && (reports + [a])[k].source == Some(s) ensures Leq(Some((reports + [a])[k].value), m') {
      if k < |reports| { assert Leq(Some(reports[k].value), m); }
    }
    if m' != before {
      if m' == m {
        var k :| 0 <= k < |reports| && reports[k].source == Some(s) && Some(reports[k].value) == m;
        assert (reports + [a])[k] == reports[k];
      } else {
        assert (reports + [a])[|reports|] == a;
      }
    }
  }

  lemma GreatestJoin(m: Option<int>, m': Option<int>, before: Option<int>, a: seq<Approval>, b: seq<Approval>, s: nat)
    requires Greatest(m, before, a, s) && Greatest(m', m, b, s)
    ensures Greatest(m', before, a + b, s)
  {
    forall k | 0 <= k < |a + b| && (a + b)[k].source == Some(s) ensures Leq(Some((a + b)[k].value), m') {
      if k < |a| {
        assert Leq(Some(a[k].value), m);
      } else {
        assert Leq(Some(b[k - |a|].value), m');
      }
    }
    if m' != before {
      if m' == m {
        var k :| 0 <= k < |a| && a[k].source == Some(s) && Some(a[k].value) == m;
        assert (a + b)[k] == a[k];
      } else {
        var k :| 0 <= k < |b| && b[k].source == Some(s) && Some(b[k].value) == m';
        assert (a + b)[|a| + k] == b[k];
      }
    }
  }

  /** Reports raise the reported value of their sources to the greatest one, and recalculating does not touch it. */
  lemma {:induction false} ReportKeepsGreatest(g: Group, approvals: seq<Approval>, s: nat)
    requires ValidApprovals(g, approvals) && s < |g.sources|
    ensures |SyncGroup.Report(g, approvals).sources| == |g.sources|
    ensures Greatest(SyncGroup.Report(g, approvals).sources[s].lrv, g.sources[s].lrv, approvals, s)
    decreases |approvals|
  {
    if approvals == [] {
    } else {
      var n := |approvals| - 1;
      ReportKeepsGreatest(g, approvals[..n], s);
      GreatestSnoc(ReportAll(g, approvals[..n]).sources[s].lrv, g.sources[s].lrv, approvals[..n], approvals[n], s);
      assert approvals == approvals[..n] + [approvals[n]];
    }
  }

  /** Going idle marks the one worker and leaves what was proposed and reported alone. */
  lemma GoIdleSets(g: Group, t: nat, w: nat, s: nat)
    requires ValidWorker(g, t, w) && s < |g.sources|
    ensures var g' := GoIdle(g, t, w);
            && |g'.sources| == |g.sources|
            && g'.sources[s] == if s == t then g.sources[s].(idle := g.sources[s].idle + {w}) else g.sources[s]
  {
  }

  lemma ProposeKeepsLrv(g: Group, t: nat, w: nat, v: int, s: nat)
    requires ValidWorker(g, t, w) && s < |g.sources|
    ensures |SyncGroup.Propose(g, t, w, v).0.sources| == |g.sources|
    ensures SyncGroup.Propose(g, t, w, v).0.sources[s].lrv == g.sources[s].lrv
  {
  }

  lemma StepLrv(x: Sys, e: Event, s: nat)
    requires Legal(x, e) && s < |x.g.sources|
    ensures |Step(x, e).g.sources| == |x.g.sources|
    ensures Greatest(Step(x, e).g.sources[s].lrv, x.g.sources[s].lrv, if e.Report? then e.approvals else [], s)
  {
    match e
    case Propose(t, w, v) => ProposeKeepsLrv(x.g, t, w, v, s);
    case Retry(t, w, v) => ProposeKeepsLrv(x.g, t, w, v, s);
    case ApproveTime =>
    case Report(approvals) => ReportKeepsGreatest(x.g, approvals, s);
    case Idle(t, w) => GoIdleSets(x.g, t, w, s);
  }

  /** In every run the reported value of a source is the greatest one reported for it, and unset if and only if there is none. */
  lemma {:induction false} ReportedIsGreatest(x: Sys, es: seq<Event>, s: nat)
    requires Init(x) && LegalRun(x, es) && s < |x.g.sources|
    ensures |Exec(x, es).g.sources| == |x.g.sources|
    ensures Greatest(Exec(x, es).g.sources[s].lrv, None, Reports(es), s)
    decreases |es|
  {
    if es == [] {
    } else {
      var n := |es| - 1;
      ReportedIsGreatest(x, es[..n], s);
      var y := Exec(x, es[..n]);
      StepLrv(y, es[n], s);
      var more := if es[n].Report? then es[n].approvals else [];
      GreatestJoin(y.g.sources[s].lrv, Exec(x, es).g.sources[s].lrv, None, Reports(es[..n]), more, s);
      assert Reports(es) == Reports(es[..n]) + more;
    }
  }

  // ----- who is idle

  /** The last thing worker `w` of source `s` did was to report that it is idle. */
  predicate WentIdle(es: seq<Event>, s: nat, w: nat) {
    if es == [] then false
    else
      var e := es[|es| - 1];
      if (e.Propose? || e.Retry?) && e.s == s && e.w == w then false
      else if e.Idle? && e.s == s && e.w == w then true
      else WentIdle(es[..|es| - 1], s, w)
  }

  lemma ProposeIdle(g: Group, t: nat, k: nat, v: int, s: nat)
    requires ValidWorker(g, t, k) && s < |g.sources|
    ensures var g' := SyncGroup.Propose(g, t, k, v).0;
            && |g'.sources| == |g.sources| && g'.sources[s].workers == g.sources[s].workers
            && g'.sources[s].idle == if s == t then g.sources[s].idle - {k} else g.sources[s].idle
  {
  }

  lemma {:induction false} ReportIdle(g: Group, approvals: seq<Approval>, s: nat)
    requires ValidApprovals(g, approvals) && s < |g.sources|
    ensures var g' := SyncGroup.Report(g, approvals);
            && |g'.sources| == |g.sources| && g'.sources[s].workers == g.sources[s].workers
            && g'.sources[s].idle == g.sources[s].idle
    decreases |approvals|
  {
    if approvals == [] {
    } else {
      ReportIdle(g, approvals[..|approvals| - 1], s);
    }
  }

  lemma StepIdle(x: Sys, e: Event, s: nat, w: nat)
    requires Legal(x, e) && s < |x.g.sources|
    ensures |Step(x, e).g.sources| == |x.g.sources| && Step(x, e).g.sources[s].workers == x.g.sources[s].workers
    ensures w in Step(x, e).g.sources[s].idle <==>
            if (e.Propose? || e.Retry?) && e.s == s && e.w == w then false
            else if e.Idle? && e.s == s && e.w == w then true
            else w in x.g.sources[s].idle
  {
    match e
    case Propose(t, k, v) => ProposeIdle(x.g, t, k, v, s);
    case Retry(t, k, v) => ProposeIdle(x.g, t, k, v, s);
    case ApproveTime =>
    case Report(approvals) => ReportIdle(x.g, approvals, s);
    case Idle(t, k) => GoIdleSets(x.g, t, k, s);
  }

  lemma {:induction false} IdleWorkers(x: Sys, es: seq<Event>, s: nat, w: nat)
    requires Init(x) && LegalRun(x, es) && s < |x.g.sources|
    ensures |Exec(x, es).g.sources| == |x.g.sources| && Exec(x, es).g.sources[s].workers == x.g.sources[s].workers
    ensures w in Exec(x, es).g.sources[s].idle <==> WentIdle(es, s, w)
    decreases |es|
  {
    if es == [] {
    } else {
      IdleWorkers(x, es[..|es| - 1], s, w);
      StepIdle(Exec(x, es[..|es| - 1]), es[|es| - 1], s, w);
    }
  }

  lemma AllWorkersIdle(src: Source)
    requires src.idle <= Workers(src.workers)
    ensures src.Idle() <==> src.npv.None? && forall w: nat :: w < src.workers ==> w in src.idle
  {
    if forall w: nat :: w < src.workers ==> w in src.idle {
      assert src.idle == Workers(src.workers);
    }
  }

  /** The first `n` workers of source `s` all went idle. */
  ghost predicate AllWentIdle(es: seq<Event>, s: nat, n: nat) {
    forall w: nat :: w < n ==> WentIdle(es, s, w)
  }

  lemma IdleWithinWorkers(x: Sys, es: seq<Event>, s: nat)
    requires Init(x) && LegalRun(x, es) && s < |x.g.sources|
    ensures |Exec(x, es).g.sources| == |x.g.sources| && Exec(x, es).g.sources[s].workers == x.g.sources[s].workers
    ensures Exec(x, es).g.sources[s].idle <= Workers(x.g.sources[s].workers)
  {
    ReachableInv(x, es);
  }

  /** A source is idle if and only if it has nothing proposed and each of its workers went idle and proposed nothing since. */
  lemma IdleIff(x: Sys, es: seq<Event>, s: nat)
    requires Init(x) && LegalRun(x, es) && s < |x.g.sources|
    ensures |Exec(x, es).g.sources| == |x.g.sources|
    ensures var src := Exec(x, es).g.sources[s];
            src.Idle() <==> src.npv.None? && AllWentIdle(es, s, x.g.sources[s].workers)
  {
    IdleWithinWorkers(x, es, s);
    var src := Exec(x, es).g.sources[s];
    AllWorkersIdle(src);
    if src.Idle() {
      forall w: nat | w < src.workers ensures WentIdle(es, s, w) {
        IdleWorkers(x, es, s, w);
        assert w in src.idle;
      }
    }
    if src.npv.None? && AllWentIdle(es, s, src.workers) {
      forall w: nat | w < src.workers ensures w in src.idle { IdleWorkers(x, es, s, w); }
    }
  }
}
