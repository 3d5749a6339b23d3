/**
 The decision logic of a synchronization group, as functions on values.

 A group lets several sources advance together.  Each source has a last reported
 value (`lrv`), an outstanding proposal (`npv`), a priority and a set of reader
 workers; the group has a threshold (`mpv`) that no approved value may exceed and
 a queue of readers that wait for it.  `Fresh` is the threshold a full
 recalculation yields, stated through minima, maxima and quantifiers; the loops
 that compute it are in `ConnectorGroups`.
 */
module SyncGroup {
  import opened Wrappers

  /** The worker ids of a source with `n` registered readers. */
  function Workers(n: nat): (s: set<nat>)
    ensures forall i :: i in s <==> 0 <= i < n
  {
    if n == 0 then {} else Workers(n - 1) + {n - 1}
  }

  datatype Source = Source(npv: Option<int>, lrv: Option<int>, priority: nat, workers: nat, idle: set<nat>)
  {
    predicate Idle() {
      npv.None? && idle == Workers(workers)
    }

    /** The largest value this source lets the others reach; None when nothing was ever seen from it. */
    function Bound(d: int): Option<int> {
      Max(if lrv.Some? then Some(lrv.value + d) else None, npv)
    }
  }

  datatype Waiter = Waiter(value: int, source: nat, priority: nat)

  /** A granted request to send; time advancements are granted without a source and carry no value. */
  datatype Approval = Approval(source: Option<nat>, value: int)

  const TIME_APPROVAL := Approval(None, 0)

  datatype Group = Group(
    d: int,
    mpv: Option<int>,
    waiting: seq<Waiter>,
    sources: seq<Source>,
    maxPriority: nat)

  // ----- quantities a recalculation is made of

  ghost predicate AnyActive(ss: seq<Source>) {
    exists i :: 0 <= i < |ss| && !ss[i].Idle()
  }

  ghost predicate AllProposed(ss: seq<Source>) {
    forall i :: 0 <= i < |ss| && !ss[i].Idle() ==> ss[i].npv.Some?
  }

  predicate LagsBehind(s: Source, v: int, priority: nat) {
    !s.Idle() && s.priority > priority && !Leq(Some(v), s.lrv)
  }

  /** Some active source of a strictly higher priority has not reported `v` yet. */
  ghost predicate Behind(ss: seq<Source>, v: int, priority: nat) {
    exists i :: 0 <= i < |ss| && LagsBehind(ss[i], v, priority)
  }

  ghost predicate MayPass(ss: seq<Source>, s: Source, t: int) {
    !s.Idle() && s.npv.Some? && s.npv.value <= t && !Behind(ss, s.npv.value, s.priority)
  }

  /** Some outstanding proposal could pass under threshold `t`. */
  ghost predicate InRange(ss: seq<Source>, t: int) {
    exists i :: 0 <= i < |ss| && MayPass(ss, ss[i], t)
  }

  function MaxLrv(ss: seq<Source>): Option<int> {
    if ss == [] then None else Max(MaxLrv(ss[..|ss| - 1]), ss[|ss| - 1].lrv)
  }

  function MaxActive(ss: seq<Source>): nat {
    if ss == [] then 0
    else
      var s := ss[|ss| - 1];
      var p := MaxActive(ss[..|ss| - 1]);
      if !s.Idle() && s.priority > p then s.priority else p
  }

  /** The minimum of the active sources' bounds, None being the least bound; None also when all idle. */
  ghost function LeastBound(ss: seq<Source>, d: int): Option<int> {
    if ss == [] then None
    else
      var rest := ss[..|ss| - 1];
      var s := ss[|ss| - 1];
      if s.Idle() then LeastBound(rest, d)
      else if AnyActive(rest) then Min(LeastBound(rest, d), s.Bound(d))
      else s.Bound(d)
  }

  predicate InClass(s: Source, p: nat) {
    !s.Idle() && s.priority == p
  }

  ghost predicate AnyInClass(ss: seq<Source>, p: nat) {
    exists i :: 0 <= i < |ss| && InClass(ss[i], p)
  }

  /** The minimum outstanding proposal among the active sources of priority `p`. */
  ghost function LeastProposal(ss: seq<Source>, p: nat): Option<int> {
    if ss == [] then None
    else
      var rest := ss[..|ss| - 1];
      var s := ss[|ss| - 1];
      if !InClass(s, p) then LeastProposal(rest, p)
      else if AnyInClass(rest, p) then Min(LeastProposal(rest, p), s.npv)
      else s.npv
  }

  /** The threshold before the forced raise. */
  ghost function Raw(ss: seq<Source>, d: int): Option<int> {
    var m := LeastBound(ss, d);
    if m.None? then None else Max(m, MaxLrv(ss))
  }

  /** The threshold of a full recalculation; None when it cannot be computed yet. */
  ghost function Fresh(ss: seq<Source>, d: int): Option<int> {
    var t := Raw(ss, d);
    if t.Some? && AllProposed(ss) && !InRange(ss, t.value)
    then Max(t, LeastProposal(ss, MaxActive(ss)))
    else t
  }

  // ----- the atomic steps

  /** `register_new_source`: one more worker for source `id`, which is new when it is the next spare one. */
  function Registered(g: Group, id: nat, priority: nat): Group
    requires id <= |g.sources|
  {
    var ss := if id == |g.sources| then g.sources + [Source(None, None, priority, 0, {})] else g.sources;
    g.(sources := ss[id := ss[id].(workers := ss[id].workers + 1)],
       maxPriority := if g.maxPriority < priority then priority else g.maxPriority)
  }

  /** A queued reader that threshold `t` lets through. */
  ghost predicate Released(ss: seq<Source>, w: Waiter, t: int) {
    w.value <= t && !Behind(ss, w.value, w.priority)
  }

  ghost function Keep(ss: seq<Source>, ws: seq<Waiter>, t: int): seq<Waiter> {
    if ws == [] then []
    else
      var k := Keep(ss, ws[..|ws| - 1], t);
      var w := ws[|ws| - 1];
      if Released(ss, w, t) then k else k + [w]
  }

  /** `update_max_possible_value`. */
  ghost function Update(g: Group): Group {
    var g1 := g.(maxPriority := MaxActive(g.sources));
    var t := Fresh(g.sources, g.d);
    if t.None? then g1
    else g1.(mpv := t, waiting := Keep(g.sources, g.waiting, t.value))
  }

  ghost predicate Respects(g: Group, v: int, priority: nat) {
    priority == g.maxPriority || !Behind(g.sources, v, priority)
  }

  ghost predicate Passes(g: Group, v: int, priority: nat) {
    g.mpv.Some? && v <= g.mpv.value && Respects(g, v, priority)
  }

  function LowerProposal(npv: Option<int>, v: int): Option<int> {
    if npv.None? || npv.value > v then Some(v) else npv
  }

  predicate ValidWorker(g: Group, s: nat, w: nat) {
    s < |g.sources| && w < g.sources[s].workers
  }

  /** The state after source `s` registers its proposal, before any decision. */
  function Proposing(g: Group, s: nat, w: nat, v: int): Group
    requires ValidWorker(g, s, w)
  {
    var src := g.sources[s];
    g.(sources := g.sources[s := src.(idle := src.idle - {w}, npv := LowerProposal(src.npv, v))],
       maxPriority := if g.maxPriority < src.priority then src.priority else g.maxPriority)
  }

  /** The shortcut of `can_entry_be_sent` that approves without a recalculation. */
  ghost predicate HotPath(g: Group, s: nat, w: nat, v: int)
    requires ValidWorker(g, s, w)
  {
    !g.sources[s].Idle() && Passes(Proposing(g, s, w, v), v, g.sources[s].priority)
  }

  /** `can_entry_be_sent`: the new state and whether the value is approved. */
  ghost function Propose(g: Group, s: nat, w: nat, v: int): (Group, bool)
    requires ValidWorker(g, s, w)
  {
    var p := g.sources[s].priority;
    var g1 := Proposing(g, s, w, v);
    if HotPath(g, s, w, v) then (g1, true)
    else
      var g2 := Update(g1);
      if Passes(g2, v, p) then (g2, true)
      else (g2.(waiting := g2.waiting + [Waiter(v, s, p)]), false)
  }

  /** The least value queued by source `s`. */
  function LeastQueued(ws: seq<Waiter>, s: nat): Option<int> {
    if ws == [] then None
    else
      var w := ws[|ws| - 1];
      var m := LeastQueued(ws[..|ws| - 1], s);
      if w.source != s then m else LowerProposal(m, w.value)
  }

  predicate ValidApproval(g: Group, a: Approval) {
    a.source.Some? ==> a.source.value < |g.sources|
  }

  /** `report_entry_sent`. */
  function ReportOne(g: Group, a: Approval): (g': Group)
    requires ValidApproval(g, a)
    ensures |g'.sources| == |g.sources|
  {
    if a.source.None? then g
    else
      var s := a.source.value;
      g.(sources := g.sources[s := g.sources[s].(lrv := Max(g.sources[s].lrv, Some(a.value)),
                                                 npv := LeastQueued(g.waiting, s))])
  }

  predicate ValidApprovals(g: Group, approvals: seq<Approval>) {
    forall k :: 0 <= k < |approvals| ==> ValidApproval(g, approvals[k])
  }

  function ReportAll(g: Group, approvals: seq<Approval>): (g': Group)
    requires ValidApprovals(g, approvals)
    ensures |g'.sources| == |g.sources|
    decreases |approvals|
  {
    if approvals == [] then g
    else ReportOne(ReportAll(g, approvals[..|approvals| - 1]), approvals[|approvals| - 1])
  }

  /** `report_entries_sent`: every report, then one recalculation. */
  ghost function Report(g: Group, approvals: seq<Approval>): Group
    requires ValidApprovals(g, approvals)
  {
    Update(ReportAll(g, approvals))
  }

  /** `report_source_is_idle`. */
  ghost function GoIdle(g: Group, s: nat, w: nat): Group
    requires ValidWorker(g, s, w)
  {
    var g1 := g.(sources := g.sources[s := g.sources[s].(idle := g.sources[s].idle + {w})]);
    var g2 := if g1.sources[s].Idle() && AnyActive(g1.sources) then Update(g1) else g1;
    g2.(maxPriority := MaxActive(g2.sources))
  }
}
