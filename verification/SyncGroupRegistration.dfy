/** Registration: every sequence of registrations leads to an initial state of the runs. */
module SyncGroupRegistration {
  import opened Wrappers
  import opened SyncGroup
  import opened SyncGroupThreshold
  import opened SyncGroupRuns

  /** Nothing was proposed or reported yet. */
  ghost predicate Untouched(g: Group) {
    && g.mpv.None? && g.waiting == []
    && forall i :: 0 <= i < |g.sources| ==>
         && g.sources[i].npv.None? && g.sources[i].lrv.None?
         && g.sources[i].workers > 0 && g.sources[i].idle == {}
  }

  datatype Registration = Registration(id: nat, priority: nat)

  /** Source ids are handed out in order, so each is that of a known source or the next spare one. */
  predicate ValidRegistrations(d: int, rs: seq<Registration>)
    decreases |rs|, 0
  {
    rs == [] ||
    (ValidRegistrations(d, rs[..|rs| - 1]) && rs[|rs| - 1].id <= |AllRegistered(d, rs[..|rs| - 1]).sources|)
  }

  /** The group after all registrations. */
  function AllRegistered(d: int, rs: seq<Registration>): Group
    requires ValidRegistrations(d, rs)
    decreases |rs|, 1
  {
    if rs == [] then Group(d, None, [], [], 0)
    else Registered(AllRegistered(d, rs[..|rs| - 1]), rs[|rs| - 1].id, rs[|rs| - 1].priority)
  }

  lemma {:induction false} PrefixValid(d: int, rs: seq<Registration>, j: nat)
    requires ValidRegistrations(d, rs) && j <= |rs|
    ensures ValidRegistrations(d, rs[..j])
  {
    if j == |rs| {
      assert rs[..j] == rs;
    } else {
      PrefixValid(d, rs[..|rs| - 1], j);
      assert rs[..|rs| - 1][..j] == rs[..j];
    }
  }

  /** Registration `j` introduces a source. */
  predicate Introduces(d: int, rs: seq<Registration>, j: nat) {
    j < |rs| && ValidRegistrations(d, rs[..j]) && rs[j].id == |AllRegistered(d, rs[..j]).sources|
  }

  ghost predicate HasPriority(ss: seq<Source>, p: nat) {
    exists i :: 0 <= i < |ss| && ss[i].priority == p
  }

  ghost predicate IntroducedWith(d: int, rs: seq<Registration>, p: nat) {
    exists j :: 0 <= j < |rs| && Introduces(d, rs, j) && rs[j].priority == p
  }

  /** The cached priority is the maximum over all registrations, the priorities of the sources are those of their first ones. */
  ghost predicate PrioritiesOf(d: int, rs: seq<Registration>, g: Group) {
    && (forall k :: 0 <= k < |rs| ==> rs[k].priority <= g.maxPriority)
    && (g.maxPriority == 0 || exists k :: 0 <= k < |rs| && rs[k].priority == g.maxPriority)
    && (forall j :: 0 <= j < |rs| && Introduces(d, rs, j) ==> HasPriority(g.sources, rs[j].priority))
    && (forall i :: 0 <= i < |g.sources| ==> IntroducedWith(d, rs, g.sources[i].priority))
  }

  lemma IntroducesEarlier(d: int, rs: seq<Registration>, j: nat)
    requires rs != [] && j < |rs| - 1
    ensures Introduces(d, rs, j) <==> Introduces(d, rs[..|rs| - 1], j)
  {
    assert rs[..|rs| - 1][..j] == rs[..j];
  }

  lemma RegistrationMaximum(rs: seq<Registration>, before: seq<Registration>, p: nat, p': nat)
    requires rs != [] && before == rs[..|rs| - 1]
    requires p' == if p < rs[|rs| - 1].priority then rs[|rs| - 1].priority else p
    requires forall k :: 0 <= k < |before| ==> before[k].priority <= p
    requires p == 0 || exists k :: 0 <= k < |before| && before[k].priority == p
    ensures forall k :: 0 <= k < |rs| ==> rs[k].priority <= p'
    ensures p' == 0 || exists k :: 0 <= k < |rs| && rs[k].priority == p'
  {
    forall k | 0 <= k < |rs| ensures rs[k].priority <= p' {
      if k < |before| { assert before[k].priority <= p; }
    }
    if p' != rs[|rs| - 1].priority && p > 0 {
      var k :| 0 <= k < |before| && before[k].priority == p;
      assert rs[k].priority == p';
    }
  }

  lemma RegistrationPriorities(d: int, rs: seq<Registration>, g: Group)
    requires rs != [] && ValidRegistrations(d, rs) && g == AllRegistered(d, rs[..|rs| - 1]) && PrioritiesOf(d, rs[..|rs| - 1], g)
    ensures PrioritiesOf(d, rs, AllRegistered(d, rs))
  {
    var n := |rs| - 1;
    var g' := AllRegistered(d, rs);
    forall j | 0 <= j < |rs| && Introduces(d, rs, j) ensures HasPriority(g'.sources, rs[j].priority) {
      if j < n {
        IntroducesEarlier(d, rs, j);
        assert HasPriority(g.sources, rs[..n][j].priority);
        var i :| 0 <= i < |g.sources| && g.sources[i].priority == rs[j].priority;
        assert g'.sources[i].priority == g.sources[i].priority;
      } else {
        assert g'.sources[rs[n].id].priority == rs[n].priority;
      }
    }
    forall i | 0 <= i < |g'.sources| ensures IntroducedWith(d, rs, g'.sources[i].priority) {
      if i < |g.sources| {
        assert IntroducedWith(d, rs[..n], g.sources[i].priority);
        var j :| 0 <= j < n && Introduces(d, rs[..n], j) && rs[..n][j].priority == g.sources[i].priority;
        IntroducesEarlier(d, rs, j);
        assert rs[j].priority == g'.sources[i].priority;
      } else {
        assert Introduces(d, rs, n);
      }
    }
    RegistrationMaximum(rs, rs[..n], g.maxPriority, g'.maxPriority);
  }

  lemma {:induction false} AllRegisteredIs(d: int, rs: seq<Registration>)
    requires ValidRegistrations(d, rs)
    ensures Untouched(AllRegistered(d, rs)) && PrioritiesOf(d, rs, AllRegistered(d, rs))
    decreases |rs|
  {
    if rs == [] {
    } else {
      AllRegisteredIs(d, rs[..|rs| - 1]);
      RegistrationPriorities(d, rs, AllRegistered(d, rs[..|rs| - 1]));
    }
  }

  lemma EveryoneActive(g: Group)
    requires Untouched(g)
    ensures forall i :: 0 <= i < |g.sources| ==> !g.sources[i].Idle()
  {
    forall i | 0 <= i < |g.sources| ensures !g.sources[i].Idle() {
      assert 0 in Workers(g.sources[i].workers);
    }
  }

  lemma FirstIntroduces(d: int, rs: seq<Registration>)
    requires ValidRegistrations(d, rs) && rs != []
    ensures Introduces(d, rs, 0)
  {
    PrefixValid(d, rs, 1);
    assert rs[..1][..0] == rs[..0] == [] && rs[..1][0] == rs[0];
  }

  /** Some source was introduced with at least the priority of registration `k`. */
  ghost predicate Matched(d: int, rs: seq<Registration>, k: nat)
    requires k < |rs|
  {
    exists j :: 0 <= j < |rs| && Introduces(d, rs, j) && rs[k].priority <= rs[j].priority
  }

  lemma ExactIsMatched(d: int, rs: seq<Registration>, k: nat)
    requires ValidRegistrations(d, rs) && k < |rs|
    requires PrioritiesOf(d, rs, AllRegistered(d, rs)) && ExactCache(AllRegistered(d, rs))
    ensures Matched(d, rs, k)
  {
    var g := AllRegistered(d, rs);
    MaxActiveIs(g.sources);
    if g.maxPriority == 0 {
      FirstIntroduces(d, rs);
    } else {
      var i :| 0 <= i < |g.sources| && g.sources[i].priority == MaxActive(g.sources);
      assert IntroducedWith(d, rs, g.sources[i].priority);
      var j :| 0 <= j < |rs| && Introduces(d, rs, j) && rs[j].priority == g.sources[i].priority;
    }
  }

  lemma MatchedIsExact(d: int, rs: seq<Registration>, g: Group)
    requires PrioritiesOf(d, rs, g) && Untouched(g) && MaxActive(g.sources) <= g.maxPriority
    requires forall k :: 0 <= k < |rs| ==> Matched(d, rs, k)
    ensures ExactCache(g)
  {
    MaxActiveIs(g.sources);
    EveryoneActive(g);
    if g.maxPriority > 0 {
      var k :| 0 <= k < |rs| && rs[k].priority == g.maxPriority;
      assert Matched(d, rs, k);
      var j :| 0 <= j < |rs| && Introduces(d, rs, j) && rs[k].priority <= rs[j].priority;
      assert HasPriority(g.sources, rs[j].priority);
    }
  }

  lemma CacheNotTooLow(d: int, rs: seq<Registration>, g: Group)
    requires PrioritiesOf(d, rs, g)
    ensures MaxActive(g.sources) <= g.maxPriority
  {
    MaxActiveIs(g.sources);
    if MaxActive(g.sources) > 0 {
      var i :| 0 <= i < |g.sources| && g.sources[i].priority == MaxActive(g.sources);
      assert IntroducedWith(d, rs, g.sources[i].priority);
    }
  }

  /** A registered group before any traffic. */
  ghost function Started(g: Group): Sys {
    Sys(g, multiset{}, multiset{}, [], seq(|g.sources|, _ => None))
  }

  /** Any sequence of registrations leads to an initial state; the cached priority is then exact
      if and only if no source was registered again with a priority above those of all sources. */
  lemma RegistrationReachesInit(d: int, rs: seq<Registration>)
    requires ValidRegistrations(d, rs)
    ensures Init(Started(AllRegistered(d, rs)))
    ensures ExactCache(AllRegistered(d, rs)) <==> forall k :: 0 <= k < |rs| ==> Matched(d, rs, k)
  {
    var g := AllRegistered(d, rs);
    AllRegisteredIs(d, rs);
    CacheNotTooLow(d, rs, g);
    if ExactCache(g) {
      forall k | 0 <= k < |rs| ensures Matched(d, rs, k) { ExactIsMatched(d, rs, k); }
    }
    if forall k :: 0 <= k < |rs| ==> Matched(d, rs, k) { MatchedIsExact(d, rs, g); }
  }

  // ----- the workers of a source

  /** How often a source was registered. */
  function CountOf(rs: seq<Registration>, id: nat): nat {
    if rs == [] then 0 else CountOf(rs[..|rs| - 1], id) + if rs[|rs| - 1].id == id then 1 else 0
  }

  lemma {:induction false} NoneBeyond(d: int, rs: seq<Registration>, id: nat)
    requires ValidRegistrations(d, rs) && id >= |AllRegistered(d, rs).sources|
    ensures CountOf(rs, id) == 0
    decreases |rs|
  {
    if rs == [] {
    } else {
      NoneBeyond(d, rs[..|rs| - 1], id);
    }
  }

  /** A source has as many workers as it was registered times. */
  lemma {:induction false} WorkersCounted(d: int, rs: seq<Registration>, id: nat)
    requires ValidRegistrations(d, rs) && id < |AllRegistered(d, rs).sources|
    ensures AllRegistered(d, rs).sources[id].workers == CountOf(rs, id)
    decreases |rs|
  {
    if rs == [] {
    } else {
      var before := rs[..|rs| - 1];
      if id < |AllRegistered(d, before).sources| {
        WorkersCounted(d, before, id);
      } else {
        NoneBeyond(d, before, id);
      }
    }
  }

  lemma {:induction false} CountGrows(rs: seq<Registration>, k: nat, id: nat)
    requires k <= |rs|
    ensures CountOf(rs[..k], id) <= CountOf(rs, id)
    decreases |rs|
  {
    if k == |rs| {
      assert rs[..k] == rs;
    } else {
      CountGrows(rs[..|rs| - 1], k, id);
      assert rs[..|rs| - 1][..k] == rs[..k];
    }
  }

  /** The id that registration `k` returns to its worker. */
  function WorkerId(d: int, rs: seq<Registration>, k: nat): int
    requires k < |rs| && ValidRegistrations(d, rs[..k + 1]) && rs[k].id < |AllRegistered(d, rs[..k + 1]).sources|
  {
    AllRegistered(d, rs[..k + 1]).sources[rs[k].id].workers - 1
  }

  lemma RegisteredKnown(d: int, rs: seq<Registration>, k: nat)
    requires ValidRegistrations(d, rs) && k < |rs|
    ensures ValidRegistrations(d, rs[..k + 1]) && rs[k].id < |AllRegistered(d, rs[..k + 1]).sources|
    ensures WorkerId(d, rs, k) == CountOf(rs[..k], rs[k].id)
  {
    PrefixValid(d, rs, k + 1);
    assert rs[..k + 1][..k] == rs[..k] && rs[..k + 1][k] == rs[k];
    WorkersCounted(d, rs[..k + 1], rs[k].id);
  }

  /** Workers of one source get different ids, all below the number of its workers. */
  lemma WorkerIdsDiffer(d: int, rs: seq<Registration>, k: nat, l: nat)
    requires ValidRegistrations(d, rs) && k < l < |rs| && rs[k].id == rs[l].id
    ensures ValidRegistrations(d, rs[..k + 1]) && rs[k].id < |AllRegistered(d, rs[..k + 1]).sources|
    ensures ValidRegistrations(d, rs[..l + 1]) && rs[l].id < |AllRegistered(d, rs[..l + 1]).sources|
    ensures 0 <= WorkerId(d, rs, k) < WorkerId(d, rs, l) < CountOf(rs, rs[k].id)
  {
    RegisteredKnown(d, rs, k);
    RegisteredKnown(d, rs, l);
    var id := rs[k].id;
    assert rs[..l][..k + 1] == rs[..k + 1] && rs[..k + 1][..k] == rs[..k] && rs[..l + 1][..l] == rs[..l];
    CountGrows(rs[..l], k + 1, id);
    CountGrows(rs, l + 1, id);
  }
}
