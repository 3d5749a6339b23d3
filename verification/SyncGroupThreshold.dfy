/** What a recalculation guarantees about the threshold it yields. */
module SyncGroupThreshold {
  import opened Wrappers
  import opened SyncGroup

  // ----- the quantities a recalculation is made of, characterised

  lemma {:induction false} MaxLrvIs(ss: seq<Source>)
    ensures forall i :: 0 <= i < |ss| ==> Leq(ss[i].lrv, MaxLrv(ss))
    ensures MaxLrv(ss).Some? ==> exists i :: 0 <= i < |ss| && ss[i].lrv == MaxLrv(ss)
  {
    if ss == [] {
    } else {
      var n := |ss| - 1;
      MaxLrvIs(ss[..n]);
      if MaxLrv(ss).Some? && MaxLrv(ss) != ss[n].lrv {
        var i :| 0 <= i < n && ss[..n][i].lrv == MaxLrv(ss[..n]);
        assert ss[i].lrv == MaxLrv(ss);
      }
      forall i | 0 <= i < |ss| ensures Leq(ss[i].lrv, MaxLrv(ss)) {
        if i < n { assert Leq(ss[..n][i].lrv, MaxLrv(ss[..n])); }
      }
    }
  }

  lemma {:induction false} MaxActiveIs(ss: seq<Source>)
    ensures forall i :: 0 <= i < |ss| && !ss[i].Idle() ==> ss[i].priority <= MaxActive(ss)
    ensures MaxActive(ss) == 0 || exists i :: 0 <= i < |ss| && !ss[i].Idle() && ss[i].priority == MaxActive(ss)
  {
    if ss == [] {
    } else {
      var n := |ss| - 1;
      MaxActiveIs(ss[..n]);
      if MaxActive(ss) == MaxActive(ss[..n]) && MaxActive(ss) > 0 {
        var i :| 0 <= i < n && !ss[..n][i].Idle() && ss[..n][i].priority == MaxActive(ss[..n]);
        assert !ss[i].Idle() && ss[i].priority == MaxActive(ss);
      }
      forall i | 0 <= i < |ss| && !ss[i].Idle() ensures ss[i].priority <= MaxActive(ss) {
        if i < n { assert !ss[..n][i].Idle(); }
      }
    }
  }

  ghost predicate IsLeastBound(ss: seq<Source>, d: int, m: Option<int>) {
    && (forall i :: 0 <= i < |ss| && !ss[i].Idle() ==> Leq(m, ss[i].Bound(d)))
    && if AnyActive(ss) then exists i :: 0 <= i < |ss| && !ss[i].Idle() && ss[i].Bound(d) == m else m == None
  }

  lemma {:induction false} LeastBoundIs(ss: seq<Source>, d: int)
    ensures IsLeastBound(ss, d, LeastBound(ss, d))
  {
    if ss == [] {
    } else {
      var n := |ss| - 1;
      LeastBoundIs(ss[..n], d);
      forall i | 0 <= i < |ss| && !ss[i].Idle() ensures Leq(LeastBound(ss, d), ss[i].Bound(d)) {
        if i < n { assert !ss[..n][i].Idle(); }
      }
      if AnyActive(ss[..n]) {
        var i :| 0 <= i < n && !ss[..n][i].Idle() && ss[..n][i].Bound(d) == LeastBound(ss[..n], d);
        assert !ss[i].Idle() && ss[i].Bound(d) == LeastBound(ss[..n], d);
      } else if ss[n].Idle() {
        assert !AnyActive(ss) by { forall i | 0 <= i < n ensures ss[i].Idle() { assert ss[..n][i].Idle(); } }
      }
    }
  }

  ghost predicate IsLeastProposal(ss: seq<Source>, p: nat, m: Option<int>) {
    && (forall i :: 0 <= i < |ss| && InClass(ss[i], p) ==> Leq(m, ss[i].npv))
    && if AnyInClass(ss, p) then exists i :: 0 <= i < |ss| && InClass(ss[i], p) && ss[i].npv == m else m == None
  }

  lemma {:induction false} LeastProposalIs(ss: seq<Source>, p: nat)
    ensures IsLeastProposal(ss, p, LeastProposal(ss, p))
  {
    if ss == [] {
    } else {
      var n := |ss| - 1;
      LeastProposalIs(ss[..n], p);
      forall i | 0 <= i < |ss| && InClass(ss[i], p) ensures Leq(LeastProposal(ss, p), ss[i].npv) {
        if i < n { assert InClass(ss[..n][i], p); }
      }
      if AnyInClass(ss[..n], p) {
        var i :| 0 <= i < n && InClass(ss[..n][i], p) && ss[..n][i].npv == LeastProposal(ss[..n], p);
        assert InClass(ss[i], p) && ss[i].npv == LeastProposal(ss[..n], p);
      } else if !InClass(ss[n], p) {
        assert !AnyInClass(ss, p) by {
          forall i | 0 <= i < n ensures !InClass(ss[i], p) { assert !InClass(ss[..n][i], p); }
        }
      }
    }
  }

  lemma {:induction false} KeepIs(ss: seq<Source>, ws: seq<Waiter>, t: int)
    ensures forall w :: w in Keep(ss, ws, t) <==> w in ws && !Released(ss, w, t)
  {
    if ws == [] {
    } else {
      KeepIs(ss, ws[..|ws| - 1], t);
      assert ws == ws[..|ws| - 1] + [ws[|ws| - 1]];
    }
  }

  lemma {:induction false} LeastQueuedIs(ws: seq<Waiter>, s: nat)
    ensures var m := LeastQueued(ws, s);
            && (m.None? <==> forall w :: w in ws ==> w.source != s)
            && (m.Some? ==> exists w :: w in ws && w.source == s && w.value == m.value)
            && (m.Some? ==> forall w :: w in ws && w.source == s ==> m.value <= w.value)
  {
    if ws == [] {
    } else {
      LeastQueuedIs(ws[..|ws| - 1], s);
      assert ws == ws[..|ws| - 1] + [ws[|ws| - 1]];
    }
  }

  // ----- the threshold

  /** A recalculation completes exactly when some source is active and each active one has been heard from. */
  lemma FreshDefined(ss: seq<Source>, d: int)
    ensures Fresh(ss, d).Some? <==>
            AnyActive(ss) && forall i :: 0 <= i < |ss| && !ss[i].Idle() ==> ss[i].npv.Some? || ss[i].lrv.Some?
  {
    var m := LeastBound(ss, d);
    LeastBoundIs(ss, d);
    if AnyActive(ss) {
      var k :| 0 <= k < |ss| && !ss[k].Idle() && ss[k].Bound(d) == m;
      if m.Some? {
        forall i | 0 <= i < |ss| && !ss[i].Idle() ensures ss[i].npv.Some? || ss[i].lrv.Some? {
          assert Leq(m, ss[i].Bound(d));
        }
      }
    }
  }

  /** The threshold never contradicts a value already reported, even by an idle source. */
  lemma FreshAboveReported(ss: seq<Source>, d: int, i: nat)
    requires Fresh(ss, d).Some? && i < |ss|
    ensures Leq(ss[i].lrv, Fresh(ss, d))
  {
    MaxLrvIs(ss);
  }

  lemma TopIsNotBehind(ss: seq<Source>, v: int, p: nat)
    requires p >= MaxActive(ss)
    ensures !Behind(ss, v, p)
  {
    MaxActiveIs(ss);
  }

  /** When every active source has a proposal outstanding, the threshold lets one of them pass. */
  lemma FreshFreesSomeone(ss: seq<Source>, d: int)
    requires Fresh(ss, d).Some? && AllProposed(ss)
    ensures InRange(ss, Fresh(ss, d).value)
  {
    var raw := Raw(ss, d).value;
    var t := Fresh(ss, d).value;
    if InRange(ss, raw) {
      var i :| 0 <= i < |ss| && MayPass(ss, ss[i], raw);
      assert MayPass(ss, ss[i], t);
    } else {
      FreshDefined(ss, d);
      var p := MaxActive(ss);
      MaxActiveIs(ss);
      LeastProposalIs(ss, p);
      var a :| 0 <= a < |ss| && !ss[a].Idle();
      assert ss[a].priority <= p;
      var top :| 0 <= top < |ss| && InClass(ss[top], p);
      assert AnyInClass(ss, p);
      var i :| 0 <= i < |ss| && InClass(ss[i], p) && ss[i].npv == LeastProposal(ss, p);
      TopIsNotBehind(ss, ss[i].npv.value, p);
      assert MayPass(ss, ss[i], t);
    }
  }

  /** With equal priorities and a non-negative window the forced raise never fires. */
  lemma EqualPrioritiesNeverForce(ss: seq<Source>, d: int)
    requires d >= 0
    requires forall i, j :: 0 <= i < |ss| && 0 <= j < |ss| ==> ss[i].priority == ss[j].priority
    ensures Fresh(ss, d) == Raw(ss, d)
  {
    var raw := Raw(ss, d);
    if raw.Some? && AllProposed(ss) {
      FreshDefined(ss, d);
      var m := LeastBound(ss, d);
      LeastBoundIs(ss, d);
      var k :| 0 <= k < |ss| && !ss[k].Idle() && ss[k].Bound(d) == m;
      assert ss[k].npv.value <= raw.value;
      assert !Behind(ss, ss[k].npv.value, ss[k].priority);
      assert MayPass(ss, ss[k], raw.value);
    }
  }

  // ----- what a proposal does to the quantities of a recalculation

  /** `ss1` is `ss` where one active source without a proposal got one. */
  ghost predicate FirstProposal(ss: seq<Source>, ss1: seq<Source>, s: nat) {
    && s < |ss| == |ss1|
    && (forall i :: 0 <= i < |ss| && i != s ==> ss1[i] == ss[i])
    && !ss[s].Idle() && ss[s].npv.None? && ss1[s].npv.Some?
    && ss1[s].lrv == ss[s].lrv && ss1[s].priority == ss[s].priority
  }

  lemma {:induction false} SameLrvSameMax(ss: seq<Source>, ss1: seq<Source>)
    requires |ss| == |ss1| && forall i :: 0 <= i < |ss| ==> ss[i].lrv == ss1[i].lrv
    ensures MaxLrv(ss) == MaxLrv(ss1)
  {
    if ss == [] {
    } else {
      SameLrvSameMax(ss[..|ss| - 1], ss1[..|ss| - 1]);
    }
  }

  /** A first proposal never lowers the threshold. */
  lemma FirstProposalRaisesFresh(ss: seq<Source>, ss1: seq<Source>, d: int, s: nat)
    requires FirstProposal(ss, ss1, s)
    ensures Leq(Fresh(ss, d), Fresh(ss1, d))
  {
    var m, m1 := LeastBound(ss, d), LeastBound(ss1, d);
    LeastBoundIs(ss, d);
    LeastBoundIs(ss1, d);
    assert !ss1[s].Idle();
    assert AnyActive(ss1);
    var k :| 0 <= k < |ss1| && !ss1[k].Idle() && ss1[k].Bound(d) == m1;
    assert !ss[k].Idle() && Leq(ss[k].Bound(d), ss1[k].Bound(d));
    assert Leq(m, m1);
    assert MaxLrv(ss) == MaxLrv(ss1) by { SameLrvSameMax(ss, ss1); }
    assert !AllProposed(ss);
  }
}
