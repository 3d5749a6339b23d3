/** Concrete runs at which the conditions of the theorems on logs fail. */
module ConnectorExamples {
  import opened Wrappers
  import opened ConnectorModel
  import opened ConnectorTime
  import opened ConnectorPersistence
  import opened ConnectorFrontier
  import opened ConnectorReplay
  import opened ConnectorRecovery

  const NOW := Reading(0, None)

  /** A connector with one column that writes a snapshot, over an empty log. */
  function Fresh(): Conn {
    Conn(Config(1, true, true, false, 0), 0, 0, false, map[], [], true, false, false, [], [], [], map[], [])
  }

  function OneRow(key: nat, values: seq<int>): Parsed {
    Data(Row(Insert, key, values))
  }

  const SENTINEL := Receive(RewindFinish(map[], true, NOW))

  function Message(ps: seq<Parsed>, offset: nat): Event {
    Receive(Entries(Batch(ps, 0, offset), None))
  }

  /** The sentinel writes the first advancement. */
  lemma Opened()
    ensures Init(Fresh(), []) && LegalRun(Fresh(), [SENTINEL])
    ensures var x := Exec(Fresh(), [SENTINEL]);
            && x.log == [AdvanceTime(0, map[])] && x.batches == [] && x.restored == map[] && x.frontier == map[]
            && x.backfilled && !x.done && x.commitAllowed && x.cfg == Fresh().cfg && x.current == 0 && x.ops == [Advance(0)]
            && x.rewound == [] && x.sessionTime == 0 && x.backlog == []
  {
    assert [SENTINEL][..0] == [];
  }

  /** One message handled at the start of real-time reading, with a single row. */
  lemma OneMessage(row: Row, offset: nat)
    ensures var es := [SENTINEL, Message([Data(row)], offset)];
            && LegalRun(Fresh(), es)
            && var x := Exec(Fresh(), es);
               && x.log == [AdvanceTime(0, map[]), Put(row)] && x.batches == [Batch([Data(row)], 0, offset)]
               && x.frontier == map[0 := offset] && x.restored == map[] && x.backfilled && !x.done && x.commitAllowed
               && x.cfg == Fresh().cfg && x.rewound == []
               && x.ops == [Advance(0)] + if WellFormed(x.cfg, row) then [Feed(row, 0, true)] else []
  {
    Opened();
    var es := [SENTINEL, Message([Data(row)], offset)];
    assert es[..1] == [SENTINEL];
    var x0 := Exec(Fresh(), [SENTINEL]);
    var ps := [Data(row)];
    assert ps[..0] == [];
    assert ProcessAll(x0, ps) == Process(x0, Data(row));
  }

  // ----- a malformed row

  /** A row without its column is logged and not fed: a speedrun of that log feeds a row more than the run did. */
  lemma MalformedRowIsReplayed()
    ensures var es := [SENTINEL, Message([OneRow(7, [])], 1)];
            && LegalRun(Fresh(), es)
            && var x := Exec(Fresh(), es);
               && x.backfilled && x.rewound == Forwarded(Persisting, []) && !AllWellFormed(Fresh().cfg, x.log, 0)
               && Fed(x.ops) == [] && ReplayFeed(x.log) == [(Row(Insert, 7, []), 0)]
  {
    OneMessage(Row(Insert, 7, []), 1);
    var x := Exec(Fresh(), [SENTINEL, Message([OneRow(7, [])], 1)]);
    assert x.log[..1] == [AdvanceTime(0, map[])] && x.log[1] == Put(Row(Insert, 7, []));
    assert x.ops == [Advance(0)];
    assert [Advance(0)][..0] == [];
    assert [AdvanceTime(0, map[])][..0] == [];
  }

  // ----- a read split into two messages

  function SplitRead(): seq<Event> {
    [SENTINEL, Message([OneRow(1, [10])], 5), Timer(NOW), Message([OneRow(2, [20])], 5)]
  }

  lemma AfterTimer(row: Row)
    requires WellFormed(Fresh().cfg, row)
    ensures var es := [SENTINEL, Message([Data(row)], 5), Timer(NOW)];
            && LegalRun(Fresh(), es)
            && var x := Exec(Fresh(), es);
               && |x.log| == 3 && x.log[..2] == [AdvanceTime(0, map[]), Put(row)]
               && x.log[2].AdvanceTime? && x.log[2].frontier == map[0 := 5] && x.batches == [Batch([Data(row)], 0, 5)]
               && x.frontier == map[0 := 5] && x.restored == map[] && x.backfilled && !x.done && x.cfg == Fresh().cfg
  {
    OneMessage(row, 5);
    var es := [SENTINEL, Message([Data(row)], 5), Timer(NOW)];
    assert es[..2] == [SENTINEL, Message([Data(row)], 5)];
    ProcessKeeps(Exec(Fresh(), es[..2]), Commit(NOW));
    ProcessLog(Exec(Fresh(), es[..2]), Commit(NOW));
  }

  /** The state after both messages of the split read. */
  ghost predicate AfterSplit(x: Conn, first: Row, second: Row) {
    && |x.log| == 4 && x.log[..2] == [AdvanceTime(0, map[])] + [Put(first)]
    && x.log[2].AdvanceTime? && x.log[2].frontier == map[0 := 5]
    && x.batches == [Batch([Data(first)], 0, 5), Batch([Data(second)], 0, 5)] && x.restored == map[]
  }

  lemma SplitRuns()
    ensures LegalRun(Fresh(), SplitRead())
    ensures AfterSplit(Exec(Fresh(), SplitRead()), Row(Insert, 1, [10]), Row(Insert, 2, [20]))
  {
    var first, second := Row(Insert, 1, [10]), Row(Insert, 2, [20]);
    var es := SplitRead();
    AfterTimer(first);
    assert es[..3] == [SENTINEL, Message([Data(first)], 5), Timer(NOW)];
    var x0, x := Exec(Fresh(), es[..3]), Exec(Fresh(), es);
    var ps := [Data(second)];
    assert ps[..0] == [];
    assert ProcessAll(x0, ps) == Process(x0, Data(second));
    assert x.log == x0.log + [Put(second)];
    assert x.batches == x0.batches + [Batch(ps, 0, 5)];
    assert x.log[..2] == x0.log[..2];
  }

  lemma SplitRows(x: Conn, first: Row, second: Row)
    requires AfterSplit(x, first, second)
    ensures !RowsLogged(x, [], 2, 1)
  {
    var b1, b2 := Batch([Data(first)], 0, 5), Batch([Data(second)], 0, 5);
    assert x.batches[..2] == x.batches && x.batches[..1] == [b1] && [b1][..0] == [];
    assert [Data(first)][..0] == [] && [Data(second)][..0] == [];
    assert Rows([Data(first)]) == [first] && Rows([Data(second)]) == [second];
    assert BatchRows([]) == [] && BatchRows([b1]) == [] + Rows(b1.parsed);
    assert BatchRows(x.batches) == BatchRows([b1]) + Rows(b2.parsed);
    PutsSnoc([AdvanceTime(0, map[])], Put(first));
    assert [AdvanceTime(0, map[])][..0] == [];
    assert |Puts(x.log[..2])| == 1;
  }

  lemma SplitReached(x: Conn, first: Row, second: Row)
    requires AfterSplit(x, first, second)
    ensures InOrder(x.restored, x.batches) && SameRead(x.batches[0], x.batches[1]) && SplitBefore(x.batches, 1)
    ensures Reaches(x.log[2].frontier, x.batches[0]) && Reaches(x.log[2].frontier, x.batches[1])
    ensures Beyond(x.log[2].frontier, x.batches) == []
  {
    assert SameRead(x.batches[0], x.batches[1]);
    assert ReadBegun(x.batches, 1, 1);
    BeyondIsSuffix(x.log[2].frontier, x.batches, 2);
  }

  /** In a group one read may come as two messages.  A timer between them logs a frontier that reaches the second message
      although its row is not logged: a restart from there loses that row. */
  lemma SplitReadRunsAhead()
    ensures LegalRun(Fresh(), SplitRead())
    ensures var x := Exec(Fresh(), SplitRead());
            && |x.log| == 4 && x.log[2].AdvanceTime? && |x.batches| == 2 && InOrder(x.restored, x.batches)
            && SameRead(x.batches[0], x.batches[1]) && SplitBefore(x.batches, 1)
            && Reaches(x.log[2].frontier, x.batches[1]) && !RowsLogged(x, [], 2, 1)
            && Beyond(x.log[2].frontier, x.batches) == []
  {
    SplitRuns();
    var x := Exec(Fresh(), SplitRead());
    SplitRows(x, Row(Insert, 1, [10]), Row(Insert, 2, [20]));
    SplitReached(x, Row(Insert, 1, [10]), Row(Insert, 2, [20]));
  }

  // ----- a row before a time advancement of its own message

  function RowThenCommit(): seq<Event> {
    [SENTINEL, Message([OneRow(1, [10]), Commit(NOW)], 5)]
  }

  /** A message with a row before a time advancement: a restart from that advancement feeds the row twice. */
  lemma RowBeforeCommitIsRepeated() returns (i: nat)
    ensures Recoverable(Fresh(), [], RowThenCommit())
    ensures var x := Exec(Fresh(), RowThenCommit());
            |x.batches| == 1 && !Clean(x.batches[0]) && i < |x.log| && x.log[i].AdvanceTime? && !ExactlyOnce([], x, i)
  {
    Opened();
    var es := RowThenCommit();
    assert es[..1] == [SENTINEL];
    var x := Exec(Fresh(), es);
    var ps := [OneRow(1, [10]), Commit(NOW)];
    ProcessAllKeeps(Exec(Fresh(), es[..1]), ps);
    assert x.batches == [Batch(ps, 0, 5)];
    assert ps[0].Data? && ps[1].Commit?;
    i := DirtyIsNotExact(Fresh(), [], es, 0);
  }
}
