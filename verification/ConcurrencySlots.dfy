/** A counting semaphore made of lock files: a test polls the files until it locks a free one. */
module ConcurrencySlots {
  import opened Wrappers

  /** Where a process stands: trying slot `next`, holding slot `slot`, or gone. */
  datatype Phase = Trying(next: nat) | Holding(slot: nat) | Gone

  datatype State = State(limit: nat, procs: seq<Phase>)

  predicate Valid(s: State) {
    forall i :: 0 <= i < |s.procs| ==>
      match s.procs[i]
      case Trying(k) => k < s.limit
      case Holding(k) => k < s.limit
      case Gone => true
  }

  ghost predicate Taken(s: State, slot: nat) {
    exists j :: 0 <= j < |s.procs| && s.procs[j] == Holding(slot)
  }

  /** One non-blocking `flock`, or the release on exit. */
  ghost function Step(s: State, i: nat): State
    requires i < |s.procs|
  {
    match s.procs[i]
    case Trying(k) =>
      if !Taken(s, k) then s.(procs := s.procs[i := Holding(k)])
      else s.(procs := s.procs[i := Trying(if k + 1 < s.limit then k + 1 else 0)])
    case Holding(_) => s.(procs := s.procs[i := Gone])
    case Gone => s
  }

  ghost function Exec(s: State, run: seq<nat>): State
    requires forall k :: 0 <= k < |run| ==> run[k] < |s.procs|
    decreases |run|
  {
    if run == [] then s else Exec(Step(s, run[0]), run[1..])
  }

  /** No slot is held twice. */
  ghost predicate Exclusive(s: State) {
    Valid(s) && forall i, j :: 0 <= i < j < |s.procs| && s.procs[i].Holding? && s.procs[j].Holding? ==> s.procs[i] != s.procs[j]
  }

  lemma {:induction false} ReachableExclusive(s: State, run: seq<nat>)
    requires Exclusive(s) && forall k :: 0 <= k < |run| ==> run[k] < |s.procs|
    ensures Exclusive(Exec(s, run)) && Exec(s, run).limit == s.limit
    decreases |run|
  {
    if run == [] {
    } else {
      ReachableExclusive(Step(s, run[0]), run[1..]);
    }
  }

  /** The slots held by a list of processes. */
  function Slots(procs: seq<Phase>): set<nat> {
    if procs == [] then {} else Slots(procs[1..]) + if procs[0].Holding? then {procs[0].slot} else {}
  }

  function Admitted(procs: seq<Phase>): nat {
    if procs == [] then 0 else Admitted(procs[1..]) + if procs[0].Holding? then 1 else 0
  }

  lemma {:induction false} SlotsAreHeld(procs: seq<Phase>)
    ensures forall k :: k in Slots(procs) <==> exists i :: 0 <= i < |procs| && procs[i] == Holding(k)
  {
    if procs == [] {
    } else {
      SlotsAreHeld(procs[1..]);
      forall k ensures k in Slots(procs) <==> exists i :: 0 <= i < |procs| && procs[i] == Holding(k) {
        if k in Slots(procs[1..]) {
          var i :| 0 <= i < |procs[1..]| && procs[1..][i] == Holding(k);
          assert procs[i + 1] == Holding(k);
        }
        if i :| 0 <= i < |procs| && procs[i] == Holding(k) {
          if i > 0 { assert procs[1..][i - 1] == Holding(k); }
        }
      }
    }
  }

  lemma {:induction false} OneSlotEach(procs: seq<Phase>)
    requires forall i, j :: 0 <= i < j < |procs| && procs[i].Holding? && procs[j].Holding? ==> procs[i] != procs[j]
    ensures Admitted(procs) == |Slots(procs)|
  {
    if procs == [] {
    } else {
      OneSlotEach(procs[1..]);
      SlotsAreHeld(procs[1..]);
      if procs[0].Holding? {
        forall i | 0 <= i < |procs[1..]| ensures procs[1..][i] != Holding(procs[0].slot) {
          assert procs[1..][i] == procs[i + 1];
        }
      }
    }
  }

  function Below(n: nat): (s: set<nat>)
    ensures |s| == n && forall k :: k in s <==> 0 <= k < n
  {
    if n == 0 then {} else Below(n - 1) + {n - 1}
  }

  lemma SubsetSize(a: set<nat>, b: set<nat>)
    requires a <= b
    ensures |a| <= |b|
  {
    assert b == a + (b - a);
  }

  /** In every run at most `limit` processes are admitted at a time. */
  lemma NeverOverLimit(s: State, run: seq<nat>)
    requires Exclusive(s) && forall k :: 0 <= k < |run| ==> run[k] < |s.procs|
    ensures Admitted(Exec(s, run).procs) <= s.limit
  {
    ReachableExclusive(s, run);
    var x := Exec(s, run);
    OneSlotEach(x.procs);
    SlotsAreHeld(x.procs);
    SubsetSize(Slots(x.procs), Below(s.limit));
  }

  /** Moves of processes other than `i`. */
  predicate OthersMove(s: State, i: nat, run: seq<nat>) {
    forall k :: 0 <= k < |run| ==> run[k] < |s.procs| && run[k] != i
  }

  lemma {:induction false} OthersKeep(s: State, i: nat, run: seq<nat>)
    requires i < |s.procs| && OthersMove(s, i, run)
    ensures |Exec(s, run).procs| == |s.procs| && Exec(s, run).procs[i] == s.procs[i] && Exec(s, run).limit == s.limit
    decreases |run|
  {
    if run == [] {
    } else {
      OthersKeep(Step(s, run[0]), i, run[1..]);
    }
  }

  /** The system after process `i` has tried `k` files, with the moves `between` of the others before each attempt. */
  ghost function Pass(s: State, i: nat, between: seq<seq<nat>>, k: nat): (x: State)
    requires i < |s.procs| && k <= |between| && forall m :: 0 <= m < |between| ==> OthersMove(s, i, between[m])
    ensures |x.procs| == |s.procs| && x.limit == s.limit
  {
    if k == 0 then s
    else
      var x := Pass(s, i, between, k - 1);
      OthersKeep(x, i, between[k - 1]);
      Step(Exec(x, between[k - 1]), i)
  }

  /** What the attempt at file `k` finds. */
  ghost predicate Busy(s: State, i: nat, between: seq<seq<nat>>, k: nat)
    requires i < |s.procs| && k < |between| && forall m :: 0 <= m < |between| ==> OthersMove(s, i, between[m])
  {
    Taken(Exec(Pass(s, i, between, k), between[k]), k)
  }

  lemma Attempt(s: State, i: nat, between: seq<seq<nat>>, k: nat)
    requires i < |s.procs| && k < |between| && forall m :: 0 <= m < |between| ==> OthersMove(s, i, between[m])
    requires Pass(s, i, between, k).procs[i] == Trying(k)
    ensures Pass(s, i, between, k + 1).procs[i] ==
            if !Busy(s, i, between, k) then Holding(k) else Trying(if k + 1 < s.limit then k + 1 else 0)
  {
    OthersKeep(Pass(s, i, between, k), i, between[k]);
  }

  /** One pass of process `i` over the lock files, while the others move.  `busy` are the answers of `flock`;
      the process ends up holding the file that is returned, or back at the first one. */
  method TryAll(busy: seq<bool>, ghost s: State, ghost i: nat, ghost between: seq<seq<nat>>) returns (acquired: Option<nat>)
    requires i < |s.procs| && s.procs[i] == Trying(0) && 0 < s.limit == |busy| == |between|
    requires forall m :: 0 <= m < |between| ==> OthersMove(s, i, between[m])
    requires forall k :: 0 <= k < |busy| && Pass(s, i, between, k).procs[i] == Trying(k) ==> (busy[k] <==> Busy(s, i, between, k))
    ensures acquired.Some? ==>
              acquired.value < s.limit && Pass(s, i, between, acquired.value + 1).procs[i] == Holding(acquired.value)
    ensures acquired.None? ==> Pass(s, i, between, s.limit).procs[i] == Trying(0)
  {
    for k := 0 to |busy|
      invariant Pass(s, i, between, k).procs[i] == Trying(if k < s.limit then k else 0)
    {
      Attempt(s, i, between, k);
      if !busy[k] { return Some(k); }
    }
    return None;
  }
}
