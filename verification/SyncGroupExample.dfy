/** Why the hot path needs monotone proposals: a run of two workers of one source defeats it. */
module SyncGroupExample {
  import opened Wrappers
  import opened SyncGroup
  import opened SyncGroupThreshold
  import opened SyncGroupRuns

  lemma Extend(x: Sys, es: seq<Event>, e: Event)
    requires LegalRun(x, es) && Legal(Exec(x, es), e)
    ensures LegalRun(x, es + [e]) && Exec(x, es + [e]) == Step(Exec(x, es), e)
  {
    assert (es + [e])[..|es|] == es;
  }

  function Two(a: Option<int>, b: Option<int>): seq<Source> {
    [Source(a, None, 0, 2, {}), Source(b, None, 0, 1, {})]
  }

  function Start(): Sys {
    Sys(Group(1, None, [], Two(None, None), 0), multiset{}, multiset{}, [], [None, None])
  }

  lemma TwoActive(a: Option<int>, b: Option<int>)
    ensures !Two(a, b)[0].Idle() && !Two(a, b)[1].Idle() && MaxActive(Two(a, b)) == 0
    ensures forall v :: !Behind(Two(a, b), v, 0)
  {
    assert 0 in Workers(2) && 0 in Workers(1);
    MaxActiveIs(Two(a, b));
  }

  lemma TwoFresh(a: Option<int>, b: Option<int>)
    ensures Fresh(Two(a, b), 1) == Min(a, b)
  {
    var ss := Two(a, b);
    TwoActive(a, b);
    assert ss[0].Bound(1) == a && ss[1].Bound(1) == b;
    MaxLrvIs(ss);
    LeastBoundIs(ss, 1);
    assert AnyActive(ss);
    assert Raw(ss, 1) == Min(a, b);
    EqualPrioritiesNeverForce(ss, 1);
  }

  ghost predicate At(x: Sys, a: Option<int>, b: Option<int>, mpv: Option<int>) {
    x.g.sources == Two(a, b) && x.g.d == 1 && x.g.mpv == mpv && x.g.maxPriority == 0 && |x.last| == 2
  }

  lemma OneProposal(x: Sys, a: Option<int>, b: Option<int>, mpv: Option<int>, s: nat, w: nat, v: int)
    requires At(x, a, b, mpv) && s < 2 && w < 2 - s
    ensures var a', b' := if s == 0 then LowerProposal(a, v) else a, if s == 1 then LowerProposal(b, v) else b;
            At(Step(x, Propose(s, w, v)), a', b',
               if Leq(Some(v), mpv) then mpv else if Min(a', b').Some? then Min(a', b') else mpv)
  {
    var a', b' := if s == 0 then LowerProposal(a, v) else a, if s == 1 then LowerProposal(b, v) else b;
    TwoActive(a, b);
    TwoActive(a', b');
    TwoFresh(a', b');
    var none: set<nat> := {};
    assert none - {w} == none;
    assert Proposing(x.g, s, w, v).sources == Two(a', b');
  }

  lemma Refused(x: Sys)
    requires At(x, Some(3), Some(10), Some(10))
    ensures HotPath(x.g, 1, 0, 9) && !Passes(Update(Proposing(x.g, 1, 0, 9)), 9, 0)
  {
    TwoActive(Some(3), Some(10));
    TwoActive(Some(3), Some(9));
    TwoFresh(Some(3), Some(9));
    var none: set<nat> := {};
    assert none - {0} == none;
    assert Proposing(x.g, 1, 0, 9).sources == Two(Some(3), Some(9));
  }

  /** After the run `es`, the shortcut approves `v` for source 1 and a recalculation would refuse it. */
  ghost predicate ShortcutOnly(x: Sys, es: seq<Event>, v: int) {
    && LegalRun(x, es) && ValidWorker(Exec(x, es).g, 1, 0)
    && HotPath(Exec(x, es).g, 1, 0, v)
    && !Passes(Update(Proposing(Exec(x, es).g, 1, 0, v)), v, Exec(x, es).g.sources[1].priority)
  }

  /** Appends one proposal to a run. */
  lemma RunTo(x: Sys, es: seq<Event>, a: Option<int>, b: Option<int>, mpv: Option<int>, s: nat, w: nat, v: int)
    returns (es': seq<Event>)
    requires LegalRun(x, es) && At(Exec(x, es), a, b, mpv) && s < 2 && w < 2 - s
    ensures var a', b' := if s == 0 then LowerProposal(a, v) else a, if s == 1 then LowerProposal(b, v) else b;
            && LegalRun(x, es')
            && At(Exec(x, es'), a', b',
                  if Leq(Some(v), mpv) then mpv else if Min(a', b').Some? then Min(a', b') else mpv)
  {
    es' := es + [Propose(s, w, v)];
    OneProposal(Exec(x, es), a, b, mpv, s, w, v);
    Extend(x, es, Propose(s, w, v));
  }

  lemma StartIsInit()
    ensures Init(Start()) && LegalRun(Start(), []) && At(Exec(Start(), []), None, None, None)
  {
    TwoActive(None, None);
  }

  /** Two workers of source 0 propose 10 and then 3; source 1 is then let through at 9 by the shortcut alone. */
  lemma HotPathIsBestEffort()
    ensures exists x: Sys, es: seq<Event>, v: int :: Init(x) && ShortcutOnly(x, es, v)
  {
    StartIsInit();
    var es1 := RunTo(Start(), [], None, None, None, 0, 0, 10);
    var es2 := RunTo(Start(), es1, Some(10), None, None, 1, 0, 10);
    var es3 := RunTo(Start(), es2, Some(10), Some(10), Some(10), 0, 1, 3);
    Refused(Exec(Start(), es3));
    assert ShortcutOnly(Start(), es3, 9);
  }
}
