/**
 A readers/writer lock across processes, made fair by a gate.

 Two lock files carry advisory locks: a reader passes through the gate (shared),
 takes the main lock (shared) and lets the gate go; a purger takes both exclusively.
 Each `flock` call is one atomic step of one process.
 */
module GateLock {

  datatype Proc =
    | ReaderOut            // a reader that holds nothing
    | ReaderAtLock         // holds the gate, wants the main lock
    | ReaderPassing        // holds both, about to release the gate
    | ReaderInside         // holds the main lock
    | PurgerOut
    | PurgerAtLock         // holds the gate exclusively, wants the main lock
    | PurgerInside         // holds both exclusively
    | PurgerLeaving        // has released the main lock, still holds the gate

  type State = seq<Proc>

  predicate GateShared(p: Proc) { p.ReaderAtLock? || p.ReaderPassing? }
  predicate GateExclusive(p: Proc) { p.PurgerAtLock? || p.PurgerInside? || p.PurgerLeaving? }
  predicate LockShared(p: Proc) { p.ReaderPassing? || p.ReaderInside? }
  predicate LockExclusive(p: Proc) { p.PurgerInside? }

  // ----- what `flock` grants

  ghost predicate GrantsGateShared(s: State, i: nat) {
    forall j :: 0 <= j < |s| && j != i ==> !GateExclusive(s[j])
  }

  ghost predicate GrantsGateExclusive(s: State, i: nat) {
    forall j :: 0 <= j < |s| && j != i ==> !GateExclusive(s[j]) && !GateShared(s[j])
  }

  ghost predicate GrantsLockShared(s: State, i: nat) {
    forall j :: 0 <= j < |s| && j != i ==> !LockExclusive(s[j])
  }

  ghost predicate GrantsLockExclusive(s: State, i: nat) {
    forall j :: 0 <= j < |s| && j != i ==> !LockExclusive(s[j]) && !LockShared(s[j])
  }

  /** Process `i` is not blocked. */
  ghost predicate Enabled(s: State, i: nat) {
    && i < |s|
    && match s[i]
       case ReaderOut => GrantsGateShared(s, i)
       case ReaderAtLock => GrantsLockShared(s, i)
       case PurgerOut => GrantsGateExclusive(s, i)
       case PurgerAtLock => GrantsLockExclusive(s, i)
       case _ => true
  }

  function Next(p: Proc): Proc {
    match p
    case ReaderOut => ReaderAtLock
    case ReaderAtLock => ReaderPassing
    case ReaderPassing => ReaderInside
    case ReaderInside => ReaderOut
    case PurgerOut => PurgerAtLock
    case PurgerAtLock => PurgerInside
    case PurgerInside => PurgerLeaving
    case PurgerLeaving => PurgerOut
  }

  function Step(s: State, i: nat): State
    requires i < |s|
  {
    s[i := Next(s[i])]
  }

  /** `run` lists which process moves at each step. */
  ghost predicate LegalRun(s: State, run: seq<nat>)
    decreases |run|
  {
    run == [] || (Enabled(s, run[0]) && LegalRun(Step(s, run[0]), run[1..]))
  }

  ghost function Exec(s: State, run: seq<nat>): (x: State)
    requires LegalRun(s, run)
    ensures |x| == |s|
    decreases |run|
  {
    if run == [] then s else Exec(Step(s, run[0]), run[1..])
  }

  predicate Out(p: Proc) { p.ReaderOut? || p.PurgerOut? }

  ghost predicate Init(s: State) {
    forall i :: 0 <= i < |s| ==> Out(s[i])
  }

  /** An exclusive holder of either file is its only holder. */
  ghost predicate Compatible(s: State) {
    && (forall i, j :: 0 <= i < |s| && 0 <= j < |s| && i != j && GateExclusive(s[i]) ==> !GateExclusive(s[j]) && !GateShared(s[j]))
    && (forall i, j :: 0 <= i < |s| && 0 <= j < |s| && i != j && LockExclusive(s[i]) ==> !LockExclusive(s[j]) && !LockShared(s[j]))
  }

  lemma StepCompatible(s: State, i: nat)
    requires Compatible(s) && Enabled(s, i)
    ensures Compatible(Step(s, i))
  {
  }

  lemma {:induction false} ReachableCompatible(s: State, run: seq<nat>)
    requires Compatible(s) && LegalRun(s, run)
    ensures Compatible(Exec(s, run))
    decreases |run|
  {
    if run == [] {
    } else {
      StepCompatible(s, run[0]);
      ReachableCompatible(Step(s, run[0]), run[1..]);
    }
  }

  /** A purger inside is alone: no reader and no other purger is. */
  lemma PurgerIsAlone(s: State, run: seq<nat>, i: nat, j: nat)
    requires Init(s) && LegalRun(s, run) && i < |s| && j < |s| && i != j
    requires Exec(s, run)[i].PurgerInside?
    ensures !Exec(s, run)[j].PurgerInside? && !Exec(s, run)[j].ReaderInside? && !Exec(s, run)[j].ReaderPassing?
  {
    ReachableCompatible(s, run);
  }

  /** A reader that is through the gate never waits for the main lock. */
  lemma ReaderPastGateNeverBlocked(s: State, run: seq<nat>, i: nat)
    requires Init(s) && LegalRun(s, run) && i < |Exec(s, run)| && Exec(s, run)[i].ReaderAtLock?
    ensures Enabled(Exec(s, run), i)
  {
    ReachableCompatible(s, run);
  }

  /** Whenever some process is past its first step, one such process can move; otherwise anyone can start. */
  lemma NoDeadlock(s: State, run: seq<nat>) returns (i: nat)
    requires Init(s) && LegalRun(s, run) && |s| > 0
    ensures Enabled(Exec(s, run), i)
    ensures (exists j :: 0 <= j < |Exec(s, run)| && !Out(Exec(s, run)[j])) ==> !Out(Exec(s, run)[i])
  {
    ReachableCompatible(s, run);
    var x := Exec(s, run);
    if j :| 0 <= j < |x| && !Out(x[j]) {
      if x[j].PurgerAtLock? && !GrantsLockExclusive(x, j) {
        i :| 0 <= i < |x| && i != j && (LockExclusive(x[i]) || LockShared(x[i]));
      } else {
        i := j;
      }
    } else {
      i := 0;
    }
  }

  // ----- fairness

  function LockHolders(s: State): nat {
    if s == [] then 0 else (if LockShared(s[0]) then 1 else 0) + LockHolders(s[1..])
  }

  lemma {:induction false} LockHoldersUpdate(s: State, i: nat, p: Proc)
    requires i < |s|
    ensures LockHolders(s[i := p]) == LockHolders(s) - (if LockShared(s[i]) then 1 else 0) + (if LockShared(p) then 1 else 0)
    decreases |s|
  {
    if i > 0 {
      LockHoldersUpdate(s[1..], i - 1, p);
      assert s[i := p][1..] == s[1..][i - 1 := p];
    } else {
      assert s[0 := p][1..] == s[1..];
    }
  }

  lemma {:induction false} NoHolders(s: State)
    ensures LockHolders(s) == 0 <==> forall j :: 0 <= j < |s| ==> !LockShared(s[j])
  {
    if s == [] {
    } else {
      NoHolders(s[1..]);
      assert (forall j :: 0 <= j < |s| ==> !LockShared(s[j])) <==>
             !LockShared(s[0]) && forall j :: 0 <= j < |s[1..]| ==> !LockShared(s[1..][j]) by {
        if !LockShared(s[0]) && forall j :: 0 <= j < |s[1..]| ==> !LockShared(s[1..][j]) {
          forall j | 0 <= j < |s| ensures !LockShared(s[j]) { if j > 0 { assert !LockShared(s[1..][j - 1]); } }
        }
        if forall j :: 0 <= j < |s| ==> !LockShared(s[j]) {
          forall j | 0 <= j < |s[1..]| ensures !LockShared(s[1..][j]) { assert !LockShared(s[j + 1]); }
        }
      }
    }
  }

  /** While purger `p` waits behind the gate it holds, any other move is a reader leaving. */
  lemma OnlyReadersLeave(s: State, p: nat, i: nat)
    requires Compatible(s) && p < |s| && s[p].PurgerAtLock? && Enabled(s, i) && i != p
    ensures s[i].ReaderInside? && Step(s, i)[p].PurgerAtLock? && LockHolders(Step(s, i)) == LockHolders(s) - 1
  {
    LockHoldersUpdate(s, i, Next(s[i]));
  }

  /** No reader overtakes a purger that holds the gate: it waits for at most the readers already inside,
      and may enter as soon as they have left. */
  lemma {:induction false} PurgerWaitIsBounded(s: State, p: nat, run: seq<nat>)
    requires Compatible(s) && p < |s| && s[p].PurgerAtLock?
    requires LegalRun(s, run) && forall k :: 0 <= k < |run| ==> run[k] != p
    ensures Exec(s, run)[p].PurgerAtLock?
    ensures |run| <= LockHolders(s) && LockHolders(Exec(s, run)) == LockHolders(s) - |run|
    ensures forall j :: 0 <= j < |s| && !LockShared(s[j]) ==> !LockShared(Exec(s, run)[j])
    ensures Enabled(Exec(s, run), p) <==> |run| == LockHolders(s)
    decreases |run|
  {
    if run == [] {
      NoHolders(s);
    } else {
      OnlyReadersLeave(s, p, run[0]);
      StepCompatible(s, run[0]);
      PurgerWaitIsBounded(Step(s, run[0]), p, run[1..]);
    }
  }

  // ----- the course of a process

  /** What a process holds of each file: nothing, a shared or an exclusive lock. */
  datatype Hold = Nothing | Shared | Exclusive

  function GateHold(p: Proc): Hold {
    if GateShared(p) then Shared else if GateExclusive(p) then Exclusive else Nothing
  }

  function LockHold(p: Proc): Hold {
    if LockShared(p) then Shared else if LockExclusive(p) then Exclusive else Nothing
  }

  function Moves(run: seq<nat>, i: nat): nat {
    if run == [] then 0 else Moves(run[1..], i) + if run[0] == i then 1 else 0
  }

  /** The locks a process holds after `k` calls: a reader takes the gate, then the lock, lets the gate go and at last the lock;
      a purger takes the gate and the lock for itself and lets go first the lock and then the gate. */
  predicate AfterCalls(reader: bool, p: Proc, k: nat) {
    && (p.PurgerAtLock? ==> k % 4 == 1) && (p.PurgerLeaving? ==> k % 4 == 3)
    && match k % 4
       case 0 => GateHold(p) == Nothing && LockHold(p) == Nothing
       case 1 => GateHold(p) == (if reader then Shared else Exclusive) && LockHold(p) == Nothing
       case 2 => GateHold(p) == (if reader then Shared else Exclusive) && LockHold(p) == (if reader then Shared else Exclusive)
       case _ => if reader then GateHold(p) == Nothing && LockHold(p) == Shared else GateHold(p) == Exclusive && LockHold(p) == Nothing
  }

  predicate IsReader(p: Proc) {
    p.ReaderOut? || p.ReaderAtLock? || p.ReaderPassing? || p.ReaderInside?
  }

  lemma OneCall(reader: bool, p: Proc, k: nat)
    requires IsReader(p) == reader && AfterCalls(reader, p, k)
    ensures IsReader(Next(p)) == reader && AfterCalls(reader, Next(p), k + 1)
  {
  }

  lemma {:induction false} CourseFrom(s: State, run: seq<nat>, i: nat, reader: bool, k: nat)
    requires LegalRun(s, run) && i < |s| && IsReader(s[i]) == reader && AfterCalls(reader, s[i], k)
    ensures IsReader(Exec(s, run)[i]) == reader && AfterCalls(reader, Exec(s, run)[i], k + Moves(run, i))
    decreases |run|
  {
    if run == [] {
    } else if run[0] == i {
      OneCall(reader, s[i], k);
      CourseFrom(Step(s, run[0]), run[1..], i, reader, k + 1);
    } else {
      CourseFrom(Step(s, run[0]), run[1..], i, reader, k);
    }
  }

  /** In every run each process makes its lock calls one at a time, in the order written. */
  lemma EveryoneKeepsCourse(s: State, run: seq<nat>, i: nat)
    requires Init(s) && LegalRun(s, run) && i < |s|
    ensures AfterCalls(IsReader(s[i]), Exec(s, run)[i], Moves(run, i))
  {
    CourseFrom(s, run, i, IsReader(s[i]), 0);
  }
}
