/**
 The tracker of rows that were fed to the engine and not yet processed by it.

 Rows are grouped by timestamp; a probe on the output tells which timestamps are
 still in flight.
 */
module Backlog {
  import opened Wrappers

  datatype BacklogEntry = BacklogEntry(timestamp: nat, nEvents: nat)

  /** The output frontier: None when the output is closed, otherwise the least timestamp still possible. */
  type Frontier = Option<nat>

  /** `ProbeHandle::less_equal`. */
  predicate StillPossible(f: Frontier, t: nat) {
    f.Some? && f.value <= t
  }

  // ----- the queue of groups

  function OnEvent(groups: seq<BacklogEntry>, t: nat): seq<BacklogEntry> {
    var n := |groups|;
    if n > 0 && groups[n - 1].timestamp == t
    then groups[n - 1 := BacklogEntry(t, groups[n - 1].nEvents + 1)]
    else groups + [BacklogEntry(t, 1)]
  }

  /** Groups are dropped from the front until one is still possible. */
  function AdvanceWithProbe(groups: seq<BacklogEntry>, f: Frontier): seq<BacklogEntry> {
    if groups == [] || StillPossible(f, groups[0].timestamp) then groups else AdvanceWithProbe(groups[1..], f)
  }

  function LastTimestamp(groups: seq<BacklogEntry>): Option<nat> {
    if groups == [] then None else Some(groups[|groups| - 1].timestamp)
  }

  function Total(groups: seq<BacklogEntry>): nat {
    if groups == [] then 0 else Total(groups[..|groups| - 1]) + groups[|groups| - 1].nEvents
  }

  /** Strictly ordered groups, none of them empty. */
  ghost predicate Ordered(groups: seq<BacklogEntry>) {
    && (forall i, j :: 0 <= i < j < |groups| ==> groups[i].timestamp < groups[j].timestamp)
    && (forall i :: 0 <= i < |groups| ==> groups[i].nEvents > 0)
  }

  // ----- the multiset of in-flight timestamps it stands for

  function InFlight(groups: seq<BacklogEntry>): multiset<nat> {
    if groups == [] then multiset{}
    else
      var g := groups[|groups| - 1];
      InFlight(groups[..|groups| - 1]) + multiset{}[g.timestamp := g.nEvents]
  }

  lemma OnEventOrdered(groups: seq<BacklogEntry>, t: nat)
    requires Ordered(groups) && Leq(LastTimestamp(groups), Some(t))
    ensures Ordered(OnEvent(groups, t)) && LastTimestamp(OnEvent(groups, t)) == Some(t)
  {
  }

  lemma OnEventCounts(groups: seq<BacklogEntry>, t: nat)
    ensures Total(OnEvent(groups, t)) == Total(groups) + 1
  {
    var n := |groups|;
    if n > 0 && groups[n - 1].timestamp == t {
      assert OnEvent(groups, t)[..n - 1] == groups[..n - 1];
    } else {
      assert OnEvent(groups, t)[..n] == groups;
    }
  }

  lemma OnEventAdds(groups: seq<BacklogEntry>, t: nat)
    ensures InFlight(OnEvent(groups, t)) == InFlight(groups) + multiset{t}
  {
    var n := |groups|;
    var none: multiset<nat> := multiset{};
    if n > 0 && groups[n - 1].timestamp == t {
      assert OnEvent(groups, t)[..n - 1] == groups[..n - 1];
      assert none[t := groups[n - 1].nEvents + 1] == none[t := groups[n - 1].nEvents] + multiset{t};
    } else {
      assert OnEvent(groups, t)[..n] == groups;
      assert none[t := 1] == multiset{t};
    }
  }

  lemma {:induction false} FrontGroup(groups: seq<BacklogEntry>)
    requires groups != []
    ensures InFlight(groups) == multiset{}[groups[0].timestamp := groups[0].nEvents] + InFlight(groups[1..])
    ensures Total(groups) == groups[0].nEvents + Total(groups[1..])
  {
    var n := |groups| - 1;
    if n > 0 {
      FrontGroup(groups[..n]);
      assert groups[..n][1..] == groups[1..][..n - 1];
    } else {
      assert groups[..0] == [] && groups[1..] == [];
    }
  }

  lemma {:induction false} CountBelow(groups: seq<BacklogEntry>, t: nat)
    requires forall i :: 0 <= i < |groups| ==> groups[i].timestamp != t
    ensures InFlight(groups)[t] == 0
  {
    if groups == [] {
    } else {
      CountBelow(groups[..|groups| - 1], t);
    }
  }

  lemma {:induction false} AdvanceOrdered(groups: seq<BacklogEntry>, f: Frontier)
    requires Ordered(groups)
    ensures Ordered(AdvanceWithProbe(groups, f))
    decreases |groups|
  {
    if groups != [] && !StillPossible(f, groups[0].timestamp) { AdvanceOrdered(groups[1..], f); }
  }

  /** After advancing, exactly the events at or past the output frontier remain, each as often as before. */
  lemma {:induction false} AdvanceKeepsPending(groups: seq<BacklogEntry>, f: Frontier, t: nat)
    requires Ordered(groups)
    ensures InFlight(AdvanceWithProbe(groups, f))[t] == if StillPossible(f, t) then InFlight(groups)[t] else 0
    decreases |groups|
  {
    if groups == [] {
    } else if StillPossible(f, groups[0].timestamp) {
      if !StillPossible(f, t) { CountBelow(groups, t); }
    } else {
      AdvanceKeepsPending(groups[1..], f, t);
      FrontGroup(groups);
    }
  }

  lemma {:induction false} SingletonSize(t: nat, n: nat)
    ensures |multiset{}[t := n]| == n
  {
    if n > 0 {
      SingletonSize(t, n - 1);
      assert multiset{}[t := n] == multiset{}[t := n - 1] + multiset{t};
    } else {
      var none: multiset<nat> := multiset{};
      assert none[t := 0] == none;
    }
  }

  lemma {:induction false} TotalIsCount(groups: seq<BacklogEntry>)
    ensures Total(groups) == |InFlight(groups)|
  {
    if groups == [] {
    } else {
      TotalIsCount(groups[..|groups| - 1]);
      SingletonSize(groups[|groups| - 1].timestamp, groups[|groups| - 1].nEvents);
    }
  }

  /** Popping a suffix keeps the last group, unless nothing is left. */
  lemma {:induction false} AdvanceKeepsLast(groups: seq<BacklogEntry>, f: Frontier)
    ensures LastTimestamp(AdvanceWithProbe(groups, f)) == LastTimestamp(groups) || AdvanceWithProbe(groups, f) == []
    ensures groups != [] && StillPossible(f, groups[|groups| - 1].timestamp) ==> AdvanceWithProbe(groups, f) != []
    ensures forall g :: g in AdvanceWithProbe(groups, f) ==> g in groups
    decreases |groups|
  {
    if groups != [] && !StillPossible(f, groups[0].timestamp) {
      AdvanceKeepsLast(groups[1..], f);
    }
  }

  class BacklogTracker {
    var backlog: seq<BacklogEntry>
    var totalInFly: nat

    /** The counter is the sum of the group sizes, so it never underflows. */
    ghost predicate Valid()
      reads this
    {
      totalInFly == Total(backlog)
    }

    constructor ()
      ensures Valid() && backlog == []
    {
      backlog, totalInFly := [], 0;
    }

    method OnEventAt(timestamp: nat)
      requires Valid()
      modifies this
      ensures Valid() && backlog == OnEvent(old(backlog), timestamp)
      ensures Ordered(old(backlog)) && Leq(LastTimestamp(old(backlog)), Some(timestamp)) ==>
                Ordered(backlog)
      ensures InFlight(backlog) == InFlight(old(backlog)) + multiset{timestamp}
    {
      ghost var was := backlog;
      totalInFly := totalInFly + 1;
      var n := |backlog|;
      if n > 0 && backlog[n - 1].timestamp == timestamp {
        backlog := backlog[n - 1 := BacklogEntry(timestamp, backlog[n - 1].nEvents + 1)];
      } else {
        backlog := backlog + [BacklogEntry(timestamp, 1)];
      }
      assert backlog == OnEvent(was, timestamp);
      OnEventCounts(was, timestamp);
      OnEventAdds(was, timestamp);
      if Ordered(was) && Leq(LastTimestamp(was), Some(timestamp)) { OnEventOrdered(was, timestamp); }
    }

    method BacklogSize() returns (size: nat)
      requires Valid()
      ensures size == |InFlight(backlog)|
    {
      TotalIsCount(backlog);
      return totalInFly;
    }

    method LastTimestampWithData() returns (t: Option<nat>)
      ensures t == LastTimestamp(backlog)
    {
      if backlog == [] { return None; }
      return Some(backlog[|backlog| - 1].timestamp);
    }

    method Advance(outputProbe: Frontier)
      requires Valid()
      modifies this
      ensures Valid() && backlog == AdvanceWithProbe(old(backlog), outputProbe)
      ensures Ordered(old(backlog)) ==>
                Ordered(backlog)
                && forall t: nat :: InFlight(backlog)[t] == if StillPossible(outputProbe, t) then InFlight(old(backlog))[t] else 0
    {
      ghost var was := backlog;
      while backlog != []
        invariant Valid() && AdvanceWithProbe(backlog, outputProbe) == AdvanceWithProbe(was, outputProbe)
        decreases |backlog|
      {
        if StillPossible(outputProbe, backlog[0].timestamp) { break; }
        FrontGroup(backlog);
        totalInFly := totalInFly - backlog[0].nEvents;
        backlog := backlog[1..];
      }
      if Ordered(was) {
        AdvanceOrdered(was, outputProbe);
        forall t: nat
          ensures InFlight(backlog)[t] == if StillPossible(outputProbe, t) then InFlight(was)[t] else 0
        {
          AdvanceKeepsPending(was, outputProbe, t);
        }
      }
    }
  }
}
