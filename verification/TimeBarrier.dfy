/**
 The barrier by which one forced time advancement reaches every reader of a group.

 The first worker to report a new timestamp opens a round for it; the others are
 asked to advance to the same timestamp, and the round closes when all have.
 */
module TimeBarrier {
  import opened Wrappers
  import opened SyncGroup

  datatype Barrier = Barrier(forced: Option<nat>, done: seq<set<nat>>)

  datatype TimeReport = TimeReport(source: nat, worker: nat, timestamp: nat)

  function NobodyDone(n: nat): (done: seq<set<nat>>)
    ensures |done| == n && forall i :: 0 <= i < n ==> done[i] == {}
  {
    seq(n, _ => {})
  }

  predicate AllDone(workers: seq<nat>, done: seq<set<nat>>)
    requires |done| == |workers|
  {
    forall i :: 0 <= i < |workers| ==> done[i] == Workers(workers[i])
  }

  predicate ValidReport(workers: seq<nat>, r: TimeReport) {
    r.source < |workers| && r.worker < workers[r.source]
  }

  /** `report_time_advancement`. */
  function ReportTime(workers: seq<nat>, b: Barrier, r: TimeReport): (b': Barrier)
    requires |b.done| == |workers| && ValidReport(workers, r)
    ensures |b'.done| == |workers|
  {
    var open := if b.forced == Some(r.timestamp) then b.done else NobodyDone(|workers|);
    var done := open[r.source := open[r.source] + {r.worker}];
    Barrier(if AllDone(workers, done) then None else Some(r.timestamp), done)
  }

  /** `forced_time_advancement_for_source`. */
  function ForcedFor(b: Barrier, s: nat, w: nat): Option<nat>
    requires s < |b.done|
  {
    if b.forced.None? || w in b.done[s] then None else b.forced
  }

  predicate ValidReports(workers: seq<nat>, rs: seq<TimeReport>) {
    forall k :: 0 <= k < |rs| ==> ValidReport(workers, rs[k])
  }

  /** The barrier after a sequence of reports. */
  function After(workers: seq<nat>, rs: seq<TimeReport>): (b: Barrier)
    requires ValidReports(workers, rs)
    ensures |b.done| == |workers|
    decreases |rs|
  {
    if rs == [] then Barrier(None, NobodyDone(|workers|))
    else ReportTime(workers, After(workers, rs[..|rs| - 1]), rs[|rs| - 1])
  }

  /** The index of the report that opened the latest round. */
  function Opened(workers: seq<nat>, rs: seq<TimeReport>): (k: nat)
    requires ValidReports(workers, rs)
    ensures rs != [] ==> k < |rs|
    decreases |rs|
  {
    if rs == [] then 0
    else
      var n := |rs| - 1;
      if After(workers, rs[..n]).forced == Some(rs[n].timestamp) then Opened(workers, rs[..n]) else n
  }

  /** Worker `w` of source `s` reported at or after index `k`. */
  ghost predicate ReportedSince(rs: seq<TimeReport>, k: nat, s: nat, w: nat) {
    exists j :: k <= j < |rs| && rs[j].source == s && rs[j].worker == w
  }

  /** The state of the barrier is exactly the state of its latest round. */
  ghost predicate InRound(workers: seq<nat>, rs: seq<TimeReport>, b: Barrier, k: nat)
    requires |b.done| == |workers| && rs != []
  {
    && (forall j :: k <= j < |rs| ==> rs[j].timestamp == rs[|rs| - 1].timestamp)
    && (forall s, w :: 0 <= s < |workers| ==> (w in b.done[s] <==> ReportedSince(rs, k, s, w)))
    && b.forced == (if AllDone(workers, b.done) then None else Some(rs[|rs| - 1].timestamp))
  }

  lemma RoundOpens(workers: seq<nat>, rs: seq<TimeReport>, before: Barrier)
    requires rs != [] && |before.done| == |workers| && ValidReport(workers, rs[|rs| - 1])
    requires before.forced != Some(rs[|rs| - 1].timestamp)
    ensures InRound(workers, rs, ReportTime(workers, before, rs[|rs| - 1]), |rs| - 1)
  {
    var n := |rs| - 1;
    var b := ReportTime(workers, before, rs[n]);
    forall s, w | 0 <= s < |workers| ensures w in b.done[s] <==> ReportedSince(rs, n, s, w) {
      assert w in b.done[s] <==> s == rs[n].source && w == rs[n].worker;
    }
  }

  lemma RoundGrows(rs: seq<TimeReport>, k: nat, s: nat, w: nat)
    requires rs != [] && k < |rs|
    ensures ReportedSince(rs, k, s, w) <==>
            ReportedSince(rs[..|rs| - 1], k, s, w) || (rs[|rs| - 1].source == s && rs[|rs| - 1].worker == w)
  {
    var n := |rs| - 1;
    if ReportedSince(rs[..n], k, s, w) {
      var j :| k <= j < n && rs[..n][j].source == s && rs[..n][j].worker == w;
      assert rs[j].source == s && rs[j].worker == w;
    }
    if ReportedSince(rs, k, s, w) && !(rs[n].source == s && rs[n].worker == w) {
      var j :| k <= j < |rs| && rs[j].source == s && rs[j].worker == w;
      assert rs[..n][j].source == s;
    }
  }

  lemma RoundContinues(workers: seq<nat>, rs: seq<TimeReport>, before: Barrier, k: nat)
    requires |rs| > 1 && k < |rs| && |before.done| == |workers| && ValidReport(workers, rs[|rs| - 1])
    requires before.forced == Some(rs[|rs| - 1].timestamp) && InRound(workers, rs[..|rs| - 1], before, k)
    ensures InRound(workers, rs, ReportTime(workers, before, rs[|rs| - 1]), k)
  {
    var n := |rs| - 1;
    var b := ReportTime(workers, before, rs[n]);
    forall s, w | 0 <= s < |workers| ensures w in b.done[s] <==> ReportedSince(rs, k, s, w) {
      assert w in b.done[s] <==> w in before.done[s] || (s == rs[n].source && w == rs[n].worker);
      RoundGrows(rs, k, s, w);
    }
    forall j | k <= j < |rs| ensures rs[j].timestamp == rs[n].timestamp {
      if j < n { assert rs[..n][j].timestamp == rs[..n][n - 1].timestamp; }
    }
  }

  lemma {:induction false} RoundState(workers: seq<nat>, rs: seq<TimeReport>)
    requires ValidReports(workers, rs) && rs != []
    ensures InRound(workers, rs, After(workers, rs), Opened(workers, rs))
    decreases |rs|
  {
    var n := |rs| - 1;
    var before := After(workers, rs[..n]);
    if before.forced == Some(rs[n].timestamp) {
      RoundState(workers, rs[..n]);
      RoundContinues(workers, rs, before, Opened(workers, rs[..n]));
    } else {
      RoundOpens(workers, rs, before);
    }
  }

  /** The timestamp a worker reported last. */
  function LastReport(rs: seq<TimeReport>, s: nat, w: nat): Option<nat> {
    if rs == [] then None
    else
      var r := rs[|rs| - 1];
      if r.source == s && r.worker == w then Some(r.timestamp) else LastReport(rs[..|rs| - 1], s, w)
  }

  lemma {:induction false} LastReportInRound(rs: seq<TimeReport>, k: nat, s: nat, w: nat, t: nat)
    requires ReportedSince(rs, k, s, w) && forall j :: k <= j < |rs| ==> rs[j].timestamp == t
    ensures LastReport(rs, s, w) == Some(t)
    decreases |rs|
  {
    var n := |rs| - 1;
    if !(rs[n].source == s && rs[n].worker == w) {
      RoundGrows(rs, k, s, w);
      LastReportInRound(rs[..n], k, s, w, t);
    }
  }

  /** When a round has closed, every worker of every source last reported the same timestamp. */
  lemma BarrierAgreement(workers: seq<nat>, rs: seq<TimeReport>, s: nat, w: nat)
    requires ValidReports(workers, rs) && rs != [] && After(workers, rs).forced.None?
    requires s < |workers| && w < workers[s]
    ensures LastReport(rs, s, w) == Some(rs[|rs| - 1].timestamp)
  {
    RoundState(workers, rs);
    var k := Opened(workers, rs);
    assert w in After(workers, rs).done[s];
    LastReportInRound(rs, k, s, w, rs[|rs| - 1].timestamp);
  }

  /** While a round is open, exactly the workers that have not reported in it are asked to advance, to its timestamp. */
  lemma AskedExactlyTheMissing(workers: seq<nat>, rs: seq<TimeReport>, s: nat, w: nat)
    requires ValidReports(workers, rs) && rs != [] && After(workers, rs).forced.Some?
    requires s < |workers| && w < workers[s]
    ensures ForcedFor(After(workers, rs), s, w) ==
            if ReportedSince(rs, Opened(workers, rs), s, w) then None else Some(rs[|rs| - 1].timestamp)
  {
    RoundState(workers, rs);
  }
}
