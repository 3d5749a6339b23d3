/** Time advancements of the connectors of a group, together with the barrier that forces them to one timestamp. */
module ForcedAdvance {
  import opened Wrappers
  import opened SyncGroup
  import opened Backlog
  import opened ConnectorModel
  import opened ConnectorTime
  import opened TimeBarrier
  import opened AtomicUpdates

  /** Where time lands: at a forced timestamp that is later; else at the target that is later; else two further after data. */
  lemma TimeLands(c: Conn, target: nat, forced: Option<nat>)
    ensures var c' := AdvanceTimeTo(c, target, forced);
            && c'.sessionTime == c'.current && c'.ops == c.ops + [Advance(c'.current)]
            && (forced.Some? && forced.value > c.current ==> c'.current == forced.value)
            && (forced.None? || forced.value <= c.current ==>
                  && (target > c.current ==> c'.current == target)
                  && (target <= c.current && MinibatchHasData(c) ==> c'.current == c.current + 2)
                  && (target <= c.current && !MinibatchHasData(c) ==> c'.current == c.current))
  {
  }

  /** A connector asked for `t` advances to `t`, if and only if `t` is later, or is its time and nothing else moves it. */
  lemma AskedTimeIff(c: Conn, target: nat, t: nat)
    ensures AdvanceTimeTo(c, target, Some(t)).current == t <==>
            t > c.current || (t == c.current && target <= c.current && !MinibatchHasData(c))
  {
  }

  /** One worker's advancement: it asks the barrier, advances, and reports where it landed. */
  datatype Advancement = Advancement(source: nat, worker: nat, conn: Conn, target: nat)

  predicate ValidAdvancement(workers: seq<nat>, a: Advancement) {
    a.source < |workers| && a.worker < workers[a.source]
  }

  function Landed(b: Barrier, a: Advancement): nat
    requires a.source < |b.done|
  {
    AdvanceTimeTo(a.conn, a.target, ForcedFor(b, a.source, a.worker)).current
  }

  function Advanced(workers: seq<nat>, b: Barrier, a: Advancement): (b': Barrier)
    requires |b.done| == |workers| && ValidAdvancement(workers, a)
    ensures |b'.done| == |workers|
  {
    ReportTime(workers, b, TimeReport(a.source, a.worker, Landed(b, a)))
  }

  /** The worker is asked to advance, and to a later time than its own. */
  predicate Asked(workers: seq<nat>, b: Barrier, a: Advancement)
    requires |b.done| == |workers|
  {
    && ValidAdvancement(workers, a)
    && ForcedFor(b, a.source, a.worker).Some? && a.conn.current < ForcedFor(b, a.source, a.worker).value
  }

  /** Each worker in turn was asked and advanced. */
  predicate AllAsked(workers: seq<nat>, b: Barrier, moves: seq<Advancement>)
    requires |b.done| == |workers|
    decreases |moves|
  {
    moves == [] || (Asked(workers, b, moves[0]) && AllAsked(workers, Advanced(workers, b, moves[0]), moves[1..]))
  }

  function AfterAll(workers: seq<nat>, b: Barrier, moves: seq<Advancement>): (b': Barrier)
    requires |b.done| == |workers| && AllAsked(workers, b, moves)
    ensures |b'.done| == |workers|
    decreases |moves|
  {
    if moves == [] then b else AfterAll(workers, Advanced(workers, b, moves[0]), moves[1..])
  }

  /** An open round for `t` that some worker has not reported yet. */
  predicate OpenRound(workers: seq<nat>, b: Barrier, t: nat) {
    && |b.done| == |workers| && b.forced == Some(t) && !AllDone(workers, b.done)
    && forall i :: 0 <= i < |workers| ==> b.done[i] <= Workers(workers[i])
  }

  ghost predicate Moved(moves: seq<Advancement>, s: nat, w: nat) {
    exists k :: 0 <= k < |moves| && moves[k].source == s && moves[k].worker == w
  }

  /** Every worker has reported in the round or advanced since. */
  ghost predicate Everyone(workers: seq<nat>, b: Barrier, moves: seq<Advancement>)
    requires |b.done| == |workers|
  {
    forall s, w :: 0 <= s < |workers| && 0 <= w < workers[s] ==> w in b.done[s] || Moved(moves, s, w)
  }

  lemma EveryoneDone(workers: seq<nat>, b: Barrier)
    requires |b.done| == |workers| && forall i :: 0 <= i < |workers| ==> b.done[i] <= Workers(workers[i])
    ensures Everyone(workers, b, []) <==> AllDone(workers, b.done)
  {
    if Everyone(workers, b, []) {
      forall i | 0 <= i < |workers| ensures b.done[i] == Workers(workers[i]) {
        forall w | w in Workers(workers[i]) ensures w in b.done[i] { assert w in b.done[i] || Moved([], i, w); }
      }
    }
    if AllDone(workers, b.done) {
      forall s, w | 0 <= s < |workers| && 0 <= w < workers[s] ensures w in b.done[s] { assert w in Workers(workers[s]); }
    }
  }

  /** The asked worker reports exactly the forced timestamp, so the round goes on or closes; no other one is opened. */
  lemma AskedReportsForced(workers: seq<nat>, b: Barrier, t: nat, a: Advancement)
    requires OpenRound(workers, b, t) && Asked(workers, b, a)
    ensures Landed(b, a) == t
    ensures var b' := Advanced(workers, b, a);
            && b'.done == b.done[a.source := b.done[a.source] + {a.worker}]
            && if AllDone(workers, b'.done) then b'.forced.None? else OpenRound(workers, b', t)
  {
  }

  lemma MovedFront(moves: seq<Advancement>, s: nat, w: nat)
    requires moves != []
    ensures Moved(moves, s, w) <==> (moves[0].source == s && moves[0].worker == w) || Moved(moves[1..], s, w)
  {
    if Moved(moves, s, w) && !(moves[0].source == s && moves[0].worker == w) {
      var k :| 0 <= k < |moves| && moves[k].source == s && moves[k].worker == w;
      assert moves[1..][k - 1] == moves[k];
    }
    if Moved(moves[1..], s, w) {
      var k :| 0 <= k < |moves| - 1 && moves[1..][k].source == s && moves[1..][k].worker == w;
      assert moves[k + 1] == moves[1..][k];
    }
  }

  lemma EveryoneStep(workers: seq<nat>, b: Barrier, b': Barrier, moves: seq<Advancement>)
    requires |b.done| == |workers| == |b'.done| && moves != [] && moves[0].source < |workers|
    requires b'.done == b.done[moves[0].source := b.done[moves[0].source] + {moves[0].worker}]
    ensures Everyone(workers, b, moves) <==> Everyone(workers, b', moves[1..])
  {
    forall s: nat, w: nat | s < |workers|
      ensures (w in b.done[s] || Moved(moves, s, w)) <==> (w in b'.done[s] || Moved(moves[1..], s, w))
    {
      MovedFront(moves, s, w);
    }
    if Everyone(workers, b, moves) {
      forall s, w | 0 <= s < |workers| && 0 <= w < workers[s] ensures w in b'.done[s] || Moved(moves[1..], s, w) {
        assert w in b.done[s] || Moved(moves, s, w);
      }
    }
    if Everyone(workers, b', moves[1..]) {
      forall s, w | 0 <= s < |workers| && 0 <= w < workers[s] ensures w in b.done[s] || Moved(moves, s, w) {
        assert w in b'.done[s] || Moved(moves[1..], s, w);
      }
    }
  }

  lemma DoneWithin(workers: seq<nat>, b: Barrier, b': Barrier, a: Advancement)
    requires |b.done| == |workers| == |b'.done| && ValidAdvancement(workers, a)
    requires forall i :: 0 <= i < |workers| ==> b.done[i] <= Workers(workers[i])
    requires b'.done == b.done[a.source := b.done[a.source] + {a.worker}]
    ensures forall i :: 0 <= i < |workers| ==> b'.done[i] <= Workers(workers[i])
  {
  }

  /** However the asked workers take turns, and whatever their clocks say, the round for `t` stays open until every worker
      has advanced and closes exactly then. */
  lemma {:induction false} RoundCloses(workers: seq<nat>, b: Barrier, t: nat, moves: seq<Advancement>)
    requires OpenRound(workers, b, t) && AllAsked(workers, b, moves)
    ensures AfterAll(workers, b, moves).forced == if Everyone(workers, b, moves) then None else Some(t)
    decreases |moves|
  {
    if moves == [] {
      EveryoneDone(workers, b);
    } else {
      var b' := Advanced(workers, b, moves[0]);
      AskedReportsForced(workers, b, t, moves[0]);
      EveryoneStep(workers, b, b', moves);
      if AllDone(workers, b'.done) {
        assert moves[1..] == [];
        DoneWithin(workers, b, b', moves[0]);
        EveryoneDone(workers, b');
      } else {
        RoundCloses(workers, b', t, moves[1..]);
      }
    }
  }

  // ----- a message received while the group forces a time

  lemma ProcessAllSnoc(c: Conn, ps: seq<Parsed>, p: Parsed)
    ensures ProcessAll(c, ps + [p]) == Process(ProcessAll(c, ps), p)
  {
    assert (ps + [p])[..|ps|] == ps;
  }

  lemma {:induction false} ProcessFirst(c: Conn, p: Parsed, ps: seq<Parsed>)
    ensures ProcessAll(c, [p] + ps) == ProcessAll(Process(c, p), ps)
    decreases |ps|
  {
    if ps == [] {
      ProcessAllSnoc(c, [], p);
      assert [p] + ps == [] + [p];
    } else {
      var ps0, q := ps[..|ps| - 1], ps[|ps| - 1];
      ProcessFirst(c, p, ps0);
      assert ps == ps0 + [q] && [p] + ps == ([p] + ps0) + [q];
      ProcessAllSnoc(c, [p] + ps0, q);
      ProcessAllSnoc(Process(c, p), ps0, q);
    }
  }

  /** While the group forces a later time, a message first moves the connector there, and its rows are fed at that time. */
  lemma ForcedMessage(c: Conn, b: Batch, r: Reading)
    requires c.backfilled && NoCommits(b) && r.forced.Some? && r.forced.value > c.current
    ensures var c1, c2 := Process(c, Commit(r)), HandleEntries(c, b, Some(r));
            && c1.ops == c.ops + [Advance(r.forced.value)] && c1.current == r.forced.value
            && FedAt(c1, c2, WellFormedRows(c.cfg, b.parsed), r.forced.value)
  {
    var c1 := Process(c, Commit(r));
    TimeLands(c, r.clock, r.forced);
    ProcessKeeps(c, Commit(r));
    ProcessFirst(c, Commit(r), b.parsed);
    BatchFedAt(c1, b.parsed);
  }
}
