/** When a connector commits, which rows it feeds, and how its log ends. */
module ConnectorCommits {
  import opened Wrappers
  import opened Backlog
  import opened ConnectorModel
  import opened ConnectorTime

  /** From `c` to `c'` time was advanced once, with nothing fed. */
  predicate Commits(c: Conn, c': Conn) {
    c'.ops == c.ops + [Advance(c'.current)]
  }

  lemma CommitCommits(c: Conn, r: Reading)
    ensures Commits(c, Process(c, Commit(r)))
  {
    var c1 := AdvanceTimeTo(c, r.clock, r.forced);
    LoggedKeeps(c1, AdvanceTime(c1.current, c1.frontier));
  }

  /** The coordinated start-up batch is open and the auto-commit timer will close it. */
  predicate StartupBatchOpen(c: Conn) {
    c.coordinate && c.current <= c.cfg.atStart && c.cfg.timer
  }

  /** The end of an object commits if and only if that is forced, or it is possible, the clock has moved on and the
      start-up batch is not open; otherwise it only settles whether commits are allowed. */
  lemma FinishedSourceCommits(c: Conn, possibility: CommitPossibility, clock: nat, r: Reading)
    ensures var c' := Handle(c, FinishedSource(possibility, clock, r));
            && (Commits(c, c') <==> possibility.Forced? || (possibility.Possible? && clock > c.current && !StartupBatchOpen(c)))
            && (!Commits(c, c') ==> c' == c.(commitAllowed := !possibility.Forbidden?))
            && c'.commitAllowed == !possibility.Forbidden?
  {
    var c1 := c.(commitAllowed := !possibility.Forbidden?);
    CommitCommits(c1, r);
    ProcessKeeps(c1, Commit(r));
  }

  /** The timer commits if and only if the replay is over and commits are allowed; otherwise it does nothing. */
  lemma TimerCommits(c: Conn, r: Reading)
    ensures var c' := Step(c, Timer(r));
            (Commits(c, c') <==> c.backfilled && c.commitAllowed) && (!Commits(c, c') ==> c' == c)
  {
    CommitCommits(c, r);
  }

  /** A full backlog commits if and only if the current minibatch holds data; otherwise it does nothing. */
  lemma YieldCommits(c: Conn, limit: nat, r: Reading)
    ensures var c' := Step(c, Yield(limit, r));
            (Commits(c, c') <==> MinibatchHasData(c)) && (!Commits(c, c') ==> c' == c)
  {
    CommitCommits(c, r);
  }

  /** A row is fed, at the session's time, and counted in the backlog if and only if it has the declared number of columns
      or is a deletion in a session that is not native; it is logged in any case. */
  lemma RowFedIff(c: Conn, row: Row)
    ensures var c' := Process(c, Data(row));
            var fits := |row.values| == c.cfg.numColumns || (row.kind == Delete && !c.cfg.native);
            && c'.ops == (if fits then c.ops + [Feed(row, c.sessionTime, true)] else c.ops)
            && Total(c'.backlog) == Total(c.backlog) + (if fits then 1 else 0)
            && c'.log == (if c.cfg.writer then c.log + [Put(row)] else c.log)
  {
    OnEventCounts(c.backlog, c.current);
  }

  /** The end of the source closes the log with a time after every row that was fed. */
  lemma FinishedClosesLog(c: Conn, log0: seq<SnapshotEvent>, es: seq<Event>)
    requires Init(c, log0) && LegalRun(c, es) && Legal(Exec(c, es), Receive(Finished)) && Exec(c, es).cfg.writer
    ensures var x, x' := Exec(c, es), Handle(Exec(c, es), Finished);
            && x'.done && x'.ops == x.ops && |x'.log| == |x.log| + 1 && x.log <= x'.log
            && x'.log[|x.log|].AdvanceTime? && x'.log[|x.log|].frontier == x.frontier
            && x'.log[|x.log|].timestamp == x.current + 2
            && forall i :: 0 <= i < |x.ops| ==> x.ops[i].time < x'.log[|x.log|].timestamp
  {
    ReachableTime(c, log0, es);
  }

  // ----- whether commits are allowed

  predicate Forbids(e: Entry) {
    e.NewSource? && !e.commitsAllowedInBetween
  }

  /** Commits were allowed before entry `k`, by the object that ended there or from the start, and nothing forbade them since. */
  ghost predicate AllowedSince(entries: seq<Entry>, initially: bool, k: nat) {
    && k <= |entries|
    && (if k == 0 then initially else entries[k - 1].FinishedSource? && !entries[k - 1].possibility.Forbidden?)
    && forall i :: k <= i < |entries| ==> !Forbids(entries[i]) && !entries[i].FinishedSource?
  }

  ghost predicate Allowed(entries: seq<Entry>, initially: bool) {
    exists k: nat :: AllowedSince(entries, initially, k)
  }

  lemma AllowedSnoc(entries: seq<Entry>, e: Entry, initially: bool)
    ensures Allowed(entries + [e], initially) <==>
            if e.FinishedSource? then !e.possibility.Forbidden?
            else Allowed(entries, initially) && !Forbids(e)
  {
    var all := entries + [e];
    if Allowed(all, initially) {
      var k: nat :| AllowedSince(all, initially, k);
      if k <= |entries| {
        assert !Forbids(all[|entries|]) && !all[|entries|].FinishedSource?;
        assert k > 0 ==> all[k - 1] == entries[k - 1];
        forall i | k <= i < |entries| ensures !Forbids(entries[i]) && !entries[i].FinishedSource? { assert all[i] == entries[i]; }
        assert AllowedSince(entries, initially, k);
      }
    }
    if e.FinishedSource? && !e.possibility.Forbidden? { assert AllowedSince(all, initially, |all|); }
    if !e.FinishedSource? && Allowed(entries, initially) && !Forbids(e) {
      var k: nat :| AllowedSince(entries, initially, k);
      assert AllowedSince(all, initially, k);
    }
  }

  lemma HandleAllowed(c: Conn, e: Entry)
    ensures Handle(c, e).commitAllowed ==
            if e.FinishedSource? then !e.possibility.Forbidden? else c.commitAllowed && !Forbids(e)
  {
    match e
    case Entries(b, g) => ProcessAllKeeps(c, Effective(c, b, g));
    case FinishedSource(possibility, _, r) => ProcessKeeps(c.(commitAllowed := !possibility.Forbidden?), Commit(r));
    case _ =>
  }

  lemma StepAllowed(c: Conn, e: Event)
    ensures Step(c, e).commitAllowed ==
            if !e.Receive? then c.commitAllowed
            else if e.entry.FinishedSource? then !e.entry.possibility.Forbidden?
            else c.commitAllowed && !Forbids(e.entry)
  {
    match e
    case Timer(r) => ProcessKeeps(c, Commit(r));
    case Probe(_) =>
    case Yield(_, r) => ProcessKeeps(c, Commit(r));
    case Receive(entry) => HandleAllowed(c, entry);
  }

  /** In every run commits are allowed if and only if the last object to end allowed them, or none ended and they were
      allowed from the start, and no object that forbids them was opened since. */
  lemma {:induction false} CommitsAllowedIff(c: Conn, es: seq<Event>)
    requires LegalRun(c, es)
    ensures Exec(c, es).commitAllowed <==> Allowed(Received(es), c.commitAllowed)
    decreases |es|
  {
    if es == [] {
      if c.commitAllowed { assert AllowedSince([], c.commitAllowed, 0); }
    } else {
      var n := |es| - 1;
      CommitsAllowedIff(c, es[..n]);
      StepAllowed(Exec(c, es[..n]), es[n]);
      if es[n].Receive? { AllowedSnoc(Received(es[..n]), es[n].entry, c.commitAllowed); }
    }
  }
}
