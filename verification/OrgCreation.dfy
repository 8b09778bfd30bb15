/**
  Concurrent `admin create-user` runs for one display name, ensureOrgForUser and createAndSeedOrg
  of cmd/server/admin.go: read the organization, and if there is none insert and seed it in one
  transaction; a unique violation is taken to mean that somebody else did, so read once more.

  Each access to the database is one step.  A row inserted in a transaction that has not ended
  is seen by nobody, but a second insert of its slug waits for it.  An organization is deleted by
  marking its row: reads skip the row from then on, and its slug stays taken.
 */
module OrgCreation {
  type ID = nat

  /** live: not marked as deleted. */
  datatype Org = Org(slug: string, id: ID, seeded: bool, live: bool)

  datatype Outcome =
    | Got(id: ID)
    | LookupFailed
    | CreateFailed
    | UniqueViolation
    | NeitherCreatedNorFound
  {
    /** The database failed, whatever it holds. */
    predicate Failed() { LookupFailed? || CreateFailed? }
  }

  /** Where a caller is.  `attempt` is the loop variable. */
  datatype Caller =
    | Reading(attempt: nat)
    | Creating(attempt: nat)
    | Seeding(attempt: nat, id: ID)
    | Finished(outcome: Outcome)

  const ATTEMPTS: nat := 2

  /** The committed organizations, deleted ones included, the slug each open transaction has inserted,
      the callers with the slug each asks for, and the callers whose own seeding or commit has raised
      a unique violation. */
  datatype State = State(
    committed: set<Org>, open: map<nat, string>, slugs: seq<string>, callers: seq<Caller>, clashed: set<nat>)

  /** What the unique constraint sees. */
  ghost predicate Taken(s: State, slug: string) { exists o :: o in s.committed && o.slug == slug }

  /** What a read sees. */
  ghost predicate Visible(s: State, slug: string) { exists o :: o in s.committed && o.slug == slug && o.live }

  /** The slug belongs to a deleted organization. */
  ghost predicate Dead(s: State, slug: string) { exists o :: o in s.committed && o.slug == slug && !o.live }

  /** Some other transaction has inserted the slug and not ended. */
  ghost predicate Waits(s: State, n: nat, slug: string) { exists m :: m in s.open && m != n && s.open[m] == slug }

  /** What the loop does after a violation. */
  function AfterViolation(attempt: nat): Caller {
    if attempt != 0 then Finished(UniqueViolation)
    else if attempt + 1 < ATTEMPTS then Reading(attempt + 1)
    else Finished(NeitherCreatedNorFound)
  }

  ghost predicate Read(s: State, n: nat, c: Caller, s': State, c': Caller)
    requires n < |s.slugs|
  {
    && c.Reading? && s' == s.(callers := s'.callers)
    && (c' == Finished(LookupFailed)
        || (!Visible(s, s.slugs[n]) && c' == Creating(c.attempt))
        || exists o :: o in s.committed && o.slug == s.slugs[n] && o.live && c' == Finished(Got(o.id)))
  }

  /** The insert: a violation if any row has the slug, a wait if another transaction holds it, and
      otherwise the slug is held, under an id of its own. */
  ghost predicate Insert(s: State, n: nat, c: Caller, s': State, c': Caller)
    requires n < |s.slugs|
  {
    && c.Creating?
    && (|| (s' == s.(callers := s'.callers) && c' == Finished(CreateFailed))
        || (Taken(s, s.slugs[n]) && s' == s.(callers := s'.callers) && c' == AfterViolation(c.attempt))
        || (&& !Taken(s, s.slugs[n]) && !Waits(s, n, s.slugs[n])
            && c'.Seeding? && c'.attempt == c.attempt
            && s' == s.(callers := s'.callers, open := s.open[n := s.slugs[n]])))
  }

  /** Seeding and the commit end the transaction: both succeed, or nothing happened, or the commit
      went through and its answer was lost.  A unique violation here rolls back like any failure, but
      the loop cannot tell it from a lost insert. */
  ghost predicate SeedAndCommit(s: State, n: nat, c: Caller, s': State, c': Caller)
    requires n < |s.slugs|
  {
    && c.Seeding?
    && var row := Org(s.slugs[n], c.id, true, true);
       || (s' == s.(callers := s'.callers, open := s.open - {n}, committed := s.committed + {row})
           && (c' == Finished(Got(c.id)) || c' == Finished(CreateFailed)))
       || (s' == s.(callers := s'.callers, open := s.open - {n}) && c' == Finished(CreateFailed))
       || (s' == s.(callers := s'.callers, open := s.open - {n}, clashed := s.clashed + {n})
           && c' == AfterViolation(c.attempt))
  }

  ghost predicate StepOf(s: State, n: nat, s': State) {
    && n < |s.callers| == |s'.callers| == |s.slugs|
    && s'.callers == s.callers[n := s'.callers[n]]
    && var c, c' := s.callers[n], s'.callers[n];
       Read(s, n, c, s', c') || Insert(s, n, c, s', c') || SeedAndCommit(s, n, c, s', c')
  }

  /** Somebody deletes an organization. */
  ghost predicate Delete(s: State, o: Org, s': State) {
    o in s.committed && o.live && s' == s.(committed := s.committed - {o} + {o.(live := false)})
  }

  ghost predicate Next(s: State, s': State) { (exists n: nat :: StepOf(s, n, s')) || (exists o :: Delete(s, o, s')) }

  /** Organizations that are there already, deleted or not, are unique and seeded. */
  ghost predicate Init(s: State) {
    && |s.callers| == |s.slugs| && s.open == map[] && s.clashed == {}
    && (forall n :: 0 <= n < |s.callers| ==> s.callers[n] == Reading(0))
    && UniqueSlugs(s) && (forall o :: o in s.committed ==> o.seeded)
  }

  ghost predicate IsRun(run: seq<State>) {
    run != [] && Init(run[0]) && forall k :: 0 < k < |run| ==> Next(run[k - 1], run[k])
  }

  // ----- What every step keeps ------------------------------------------------------------------

  /** At most one organization per slug, deleted ones counted. */
  ghost predicate UniqueSlugs(s: State) {
    forall o, p :: o in s.committed && p in s.committed && o.slug == p.slug ==> o == p
  }

  /** An open transaction is its caller's, alone with its slug, and its slug is not committed. */
  ghost predicate OpenAlone(s: State) {
    && (forall n :: n in s.open ==>
          n < |s.callers| == |s.slugs| && s.callers[n].Seeding? && s.open[n] == s.slugs[n] && !Taken(s, s.open[n]))
    && (forall n :: 0 <= n < |s.callers| && s.callers[n].Seeding? ==> n in s.open)
    && (forall n, m :: n in s.open && m in s.open && s.open[n] == s.open[m] ==> n == m)
  }

  /** The seeded organization of this slug and id is there, deleted or not. */
  ghost predicate Stored(s: State, slug: string, id: ID) {
    Org(slug, id, true, true) in s.committed || Org(slug, id, true, false) in s.committed
  }

  /** A caller that succeeded names the slug's organization; and unless its own seeding clashed, one on
      its second attempt knows there is a row, and so never gets as far as seeding. */
  ghost predicate CallerSettled(s: State, n: nat)
    requires n < |s.callers| == |s.slugs|
  {
    var c := s.callers[n];
    && (c.Finished? && c.outcome.Got? ==> Stored(s, s.slugs[n], c.outcome.id))
    && (n !in s.clashed && (c.Reading? || c.Creating?) && c.attempt > 0 ==> Taken(s, s.slugs[n]))
    && (n !in s.clashed && c.Seeding? ==> c.attempt == 0)
  }

  ghost predicate Settled(s: State) {
    && |s.callers| == |s.slugs| && UniqueSlugs(s) && OpenAlone(s)
    && (forall o :: o in s.committed ==> o.seeded)
    && (forall n :: 0 <= n < |s.callers| ==> CallerSettled(s, n))
    && (forall n :: 0 <= n < |s.callers| && s.callers[n].Finished? ==> !s.callers[n].outcome.NeitherCreatedNorFound?)
  }

  lemma InitIsSettled(s: State)
    requires Init(s)
    ensures Settled(s)
  {
  }

  lemma ReadKeepsSettled(s: State, n: nat, s': State)
    requires Settled(s) && StepOf(s, n, s') && Read(s, n, s.callers[n], s', s'.callers[n])
    ensures Settled(s')
  {
    assert forall slug :: Taken(s', slug) <==> Taken(s, slug);
    forall m | 0 <= m < |s'.callers| ensures CallerSettled(s', m) {
      assert CallerSettled(s, m);
      if m == n && s'.callers[n].Finished? && s'.callers[n].outcome.Got? {
        var o :| o in s.committed && o.slug == s.slugs[n] && o.live && o.id == s'.callers[n].outcome.id;
        assert o == Org(s.slugs[n], o.id, true, true);
      }
    }
  }

  lemma InsertKeepsSettled(s: State, n: nat, s': State)
    requires Settled(s) && StepOf(s, n, s') && Insert(s, n, s.callers[n], s', s'.callers[n])
    ensures Settled(s')
  {
    assert forall slug :: Taken(s', slug) <==> Taken(s, slug);
    forall m | 0 <= m < |s'.callers| ensures CallerSettled(s', m) {
      assert CallerSettled(s, m);
    }
  }

  lemma CommitKeepsSettled(s: State, n: nat, s': State)
    requires Settled(s) && StepOf(s, n, s') && SeedAndCommit(s, n, s.callers[n], s', s'.callers[n])
    ensures Settled(s')
  {
    assert n in s.open && !Taken(s, s.slugs[n]);
    forall slug | Taken(s, slug) ensures Taken(s', slug) {
      var o :| o in s.committed && o.slug == slug;
      assert o in s'.committed;
    }
    forall m | m in s'.open ensures !Taken(s', s'.open[m]) {
      assert m in s.open && m != n && s.open[m] != s.open[n];
    }
    forall m | 0 <= m < |s'.callers| ensures CallerSettled(s', m) {
      assert CallerSettled(s, m);
    }
  }

  /** Deleting frees no slug. */
  lemma DeleteKeepsTaken(s: State, o: Org, s': State, slug: string)
    requires Delete(s, o, s')
    ensures Taken(s', slug) <==> Taken(s, slug)
  {
    if p :| p in s.committed && p.slug == slug {
      assert (if p == o then o.(live := false) else p) in s'.committed;
    }
    if p :| p in s'.committed && p.slug == slug {
      assert (if p in s.committed then p else o) in s.committed;
    }
  }

  lemma DeleteKeepsSettled(s: State, o: Org, s': State)
    requires Settled(s) && Delete(s, o, s')
    ensures Settled(s')
  {
    forall slug ensures Taken(s', slug) <==> Taken(s, slug) { DeleteKeepsTaken(s, o, s', slug); }
    forall m | 0 <= m < |s'.callers| ensures CallerSettled(s', m) {
      assert CallerSettled(s, m);
    }
  }

  lemma StepKeepsSettled(s: State, s': State)
    requires Settled(s) && Next(s, s')
    ensures Settled(s')
  {
    if n: nat :| StepOf(s, n, s') {
      if Read(s, n, s.callers[n], s', s'.callers[n]) {
        ReadKeepsSettled(s, n, s');
      } else if Insert(s, n, s.callers[n], s', s'.callers[n]) {
        InsertKeepsSettled(s, n, s');
      } else {
        CommitKeepsSettled(s, n, s');
      }
    } else {
      var o :| Delete(s, o, s');
      DeleteKeepsSettled(s, o, s');
    }
  }

  lemma {:induction false} RunsAreSettled(run: seq<State>)
    requires IsRun(run)
    ensures Settled(run[|run| - 1])
  {
    if |run| == 1 {
      InitIsSettled(run[0]);
    } else {
      RunsAreSettled(run[..|run| - 1]);
      StepKeepsSettled(run[|run| - 2], run[|run| - 1]);
    }
  }

  // ----- One organization --------------------------------------------------------------------------

  /** In every reachable state: one organization per slug, deleted ones counted, usable as soon as it is
      visible; and the loop never runs out. */
  lemma OneOrgPerSlug(run: seq<State>)
    requires IsRun(run)
    ensures var s := run[|run| - 1];
      && UniqueSlugs(s) && (forall o :: o in s.committed ==> o.seeded)
      && (forall n :: 0 <= n < |s.callers| && s.callers[n].Finished? ==> !s.callers[n].outcome.NeitherCreatedNorFound?)
  {
    RunsAreSettled(run);
  }

  /** All successes for a slug name its one organization, whether or not it has been deleted since. */
  lemma SuccessesAgree(run: seq<State>, a: nat, b: nat)
    requires IsRun(run)
    requires var s := run[|run| - 1];
      && a < |s.callers| && b < |s.callers| && |s.callers| == |s.slugs| && s.slugs[a] == s.slugs[b]
      && s.callers[a].Finished? && s.callers[a].outcome.Got? && s.callers[b].Finished? && s.callers[b].outcome.Got?
    ensures var s := run[|run| - 1];
      && s.callers[a].outcome.id == s.callers[b].outcome.id
      && Stored(s, s.slugs[a], s.callers[a].outcome.id)
  {
    RunsAreSettled(run);
    var s := run[|run| - 1];
    assert CallerSettled(s, a) && CallerSettled(s, b);
  }

  // ----- When a violation comes back ------------------------------------------------------------------

  lemma StepKeepsRows(s: State, s': State)
    requires Next(s, s')
    ensures s'.slugs == s.slugs && |s'.callers| == |s.callers| && s.clashed <= s'.clashed
    ensures forall slug :: Dead(s, slug) ==> Dead(s', slug)
  {
    forall slug | Dead(s, slug) ensures Dead(s', slug) {
      var o :| o in s.committed && o.slug == slug && !o.live;
      assert o in s'.committed;
    }
  }

  /** The caller has still to insert a slug that belongs to a deleted organization, or has failed to. */
  ghost predicate Doomed(s: State, n: nat)
    requires n < |s.callers| == |s.slugs|
  {
    var c := s.callers[n];
    && Dead(s, s.slugs[n])
    && (c.Reading? || c.Creating? || (c.Finished? && (c.outcome.UniqueViolation? || c.outcome.Failed())))
  }

  lemma DeadIsNotVisible(s: State, slug: string)
    requires UniqueSlugs(s) && Dead(s, slug)
    ensures Taken(s, slug) && !Visible(s, slug)
  {
  }

  lemma StaysDoomed(s: State, s': State, n: nat)
    requires Settled(s) && Next(s, s') && n < |s.callers| == |s.slugs| && Doomed(s, n)
    ensures n < |s'.callers| == |s'.slugs| && Doomed(s', n)
  {
    StepKeepsRows(s, s');
    DeadIsNotVisible(s, s.slugs[n]);
  }

  /** The caller has a read ahead of it and its slug belongs to a deleted organization. */
  ghost predicate ReadsDead(run: seq<State>, n: nat, k: nat) {
    && k < |run| && n < |run[k].callers| == |run[k].slugs|
    && run[k].callers[n].Reading? && Dead(run[k], run[k].slugs[n])
  }

  lemma {:induction false} DoomedFrom(run: seq<State>, n: nat, k: nat)
    requires IsRun(run) && ReadsDead(run, n, k)
    ensures var s := run[|run| - 1]; n < |s.callers| == |s.slugs| && Doomed(s, n)
    decreases |run|
  {
    if k < |run| - 1 {
      var init := run[..|run| - 1];
      assert ReadsDead(init, n, k);
      DoomedFrom(init, n, k);
      RunsAreSettled(init);
      StaysDoomed(run[|run| - 2], run[|run| - 1], n);
    }
  }

  /** Past its second read without a clash of its own. */
  ghost predicate Lost(s: State, n: nat)
    requires n < |s.callers|
  {
    var c := s.callers[n];
    n !in s.clashed && ((c.Creating? && c.attempt > 0) || c == Finished(UniqueViolation))
  }

  lemma LostByReading(s: State, s': State, n: nat)
    requires Settled(s) && Next(s, s') && n < |s.callers| == |s.slugs| == |s'.callers|
    requires Lost(s', n) && !Lost(s, n)
    ensures s.callers[n].Reading? && Dead(s, s.slugs[n])
  {
    assert CallerSettled(s, n);
    StepKeepsRows(s, s');
    assert s.callers[n].Reading? && Taken(s, s.slugs[n]) && !Visible(s, s.slugs[n]);
  }

  lemma {:induction false} LostMeansDead(run: seq<State>, n: nat)
    requires IsRun(run) && n < |run[|run| - 1].callers| && Lost(run[|run| - 1], n)
    ensures exists k: nat :: ReadsDead(run, n, k)
    decreases |run|
  {
    if |run| > 1 {
      var init, s, s' := run[..|run| - 1], run[|run| - 2], run[|run| - 1];
      RunsAreSettled(init);
      StepKeepsRows(s, s');
      if Lost(s, n) {
        LostMeansDead(init, n);
        var k: nat :| ReadsDead(init, n, k);
        assert ReadsDead(run, n, k);
      } else {
        LostByReading(s, s', n);
        assert ReadsDead(run, n, |run| - 2);
      }
    }
  }

  /** On every run, deletions at any time included: a caller that does not meet a failing database, and
      whose own seeding does not clash, gets the violation back if and only if its slug belongs to a
      deleted organization at some time when it has still to read.  A clash is the only other way. */
  lemma ViolationMeansDeleted(run: seq<State>, n: nat)
    requires IsRun(run) && n < |run[|run| - 1].callers|
    requires var c := run[|run| - 1].callers[n]; c.Finished? && !c.outcome.Failed()
    ensures (exists k: nat :: ReadsDead(run, n, k)) ==> run[|run| - 1].callers[n].outcome.UniqueViolation?
    ensures run[|run| - 1].callers[n].outcome.UniqueViolation?
            ==> (exists k: nat :: ReadsDead(run, n, k)) || n in run[|run| - 1].clashed
  {
    if k: nat :| ReadsDead(run, n, k) { DoomedFrom(run, n, k); }
    if Lost(run[|run| - 1], n) { LostMeansDead(run, n); }
  }

  lemma {:induction false} DeadStaysDead(run: seq<State>, slug: string, k: nat)
    requires IsRun(run) && k < |run| && Dead(run[k], slug)
    ensures Dead(run[|run| - 1], slug)
    decreases |run|
  {
    if k < |run| - 1 {
      DeadStaysDead(run[..|run| - 1], slug, k);
      StepKeepsRows(run[|run| - 2], run[|run| - 1]);
    }
  }

  lemma {:induction false} SlugsAreFixed(run: seq<State>)
    requires IsRun(run)
    ensures run[|run| - 1].slugs == run[0].slugs && |run[|run| - 1].callers| == |run[0].callers|
    decreases |run|
  {
    if |run| > 1 {
      SlugsAreFixed(run[..|run| - 1]);
      StepKeepsRows(run[|run| - 2], run[|run| - 1]);
    }
  }

  /** What can be looked up before the run: if the caller's slug is not deleted while it runs, the
      violation comes back if and only if the slug belonged to a deleted organization from the start. */
  lemma ViolationIsForeseeable(run: seq<State>, n: nat)
    requires IsRun(run) && n < |run[0].callers| == |run[|run| - 1].callers| && n !in run[|run| - 1].clashed
    requires var c := run[|run| - 1].callers[n]; c.Finished? && !c.outcome.Failed()
    requires Dead(run[|run| - 1], run[0].slugs[n]) ==> Dead(run[0], run[0].slugs[n])
    ensures run[|run| - 1].callers[n].outcome.UniqueViolation? <==> Dead(run[0], run[0].slugs[n])
  {
    ViolationMeansDeleted(run, n);
    if Dead(run[0], run[0].slugs[n]) { assert ReadsDead(run, n, 0); }
    if k: nat :| ReadsDead(run, n, k) {
      var upto := run[..k + 1];
      SlugsAreFixed(upto);
      assert upto[|upto| - 1] == run[k];
      DeadStaysDead(run, run[0].slugs[n], k);
    }
  }

  lemma Extend(run: seq<State>, s': State)
    requires IsRun(run) && Next(run[|run| - 1], s')
    ensures IsRun(run + [s'])
  {
  }

  lemma ExtendTwice(run: seq<State>, s: State, s': State)
    requires IsRun(run) && Next(run[|run| - 1], s) && Next(s, s')
    ensures var longer := run + [s] + [s']; IsRun(longer) && longer[0] == run[0] && longer[|longer| - 1] == s'
  {
    Extend(run, s);
    Extend(run + [s], s');
  }

  ghost predicate LostTwice(s: State) {
    exists n :: 0 <= n < |s.callers| && s.callers[n] == Finished(UniqueViolation)
  }

  /** Whatever the slug: with one deleted organization of it and one caller, nothing else happening, both
      reads find nothing and both inserts are refused. */
  lemma DeletedSlugIsRefused(slug: string, id: ID)
    ensures exists run: seq<State> ::
      && |run| == 5 && IsRun(run) && LostTwice(run[4]) && run[4].clashed == {}
      && forall k :: 0 <= k < 5 ==> run[k].committed == {Org(slug, id, true, false)}
  {
    var o := Org(slug, id, true, false);
    var s0 := State({o}, map[], [slug], [Reading(0)], {});
    var s1, s2 := s0.(callers := [Creating(0)]), s0.(callers := [Reading(1)]);
    var s3, s4 := s0.(callers := [Creating(1)]), s0.(callers := [Finished(UniqueViolation)]);
    assert o in s0.committed && !Visible(s0, slug) && !Visible(s2, slug);
    assert Taken(s1, slug) && Taken(s3, slug);
    assert StepOf(s0, 0, s1) && StepOf(s1, 0, s2) && StepOf(s2, 0, s3) && StepOf(s3, 0, s4);
    assert s4.callers[0] == Finished(UniqueViolation);
    var run := [s0, s1, s2, s3, s4];
    assert IsRun(run) && LostTwice(run[4]);
  }

  const BEGIN := State({}, map[], ["a", "a"], [Reading(0), Reading(0)], {})

  const WINNER := Org("a", 1, true, true)

  /** The second caller has won, and the first has lost an insert to it. */
  const WON := State({WINNER}, map[], ["a", "a"], [Reading(1), Finished(Got(1))], {})

  lemma OneWins() returns (run: seq<State>)
    ensures IsRun(run) && run[0] == BEGIN && run[|run| - 1] == WON
  {
    var s0 := BEGIN;
    var s1 := s0.(callers := [Creating(0), Reading(0)]);
    var s2 := s0.(callers := [Creating(0), Creating(0)]);
    var s3 := s0.(callers := [Creating(0), Seeding(0, 1)], open := map[1 := "a"]);
    var s4 := s0.(callers := [Creating(0), Finished(Got(1))], committed := {WINNER});
    assert StepOf(s0, 0, s1) && StepOf(s1, 1, s2) && StepOf(s2, 1, s3);
    assert StepOf(s3, 1, s4) by { assert s3.open - {1} == map[]; }
    assert StepOf(s4, 0, WON) by { assert WINNER in s4.committed; }
    run := [s0, s1, s2, s3, s4, WON];
  }

  const DELETED := WON.(committed := {WINNER.(live := false)})

  lemma WinnerDeleted() returns (run: seq<State>)
    ensures IsRun(run) && run[0] == BEGIN && run[|run| - 1] == DELETED
  {
    run := OneWins();
    assert Delete(WON, WINNER, DELETED) by {
      assert WON.committed - {WINNER} + {WINNER.(live := false)} == DELETED.committed;
    }
    Extend(run, DELETED);
    run := run + [DELETED];
  }

  lemma LosesAgain(s: State)
    requires s == DELETED
    ensures var again := s.(callers := [Creating(1), Finished(Got(1))]);
            var lost := s.(callers := [Finished(UniqueViolation), Finished(Got(1))]);
            Next(s, again) && Next(again, lost)
  {
    var again := s.(callers := [Creating(1), Finished(Got(1))]);
    var lost := s.(callers := [Finished(UniqueViolation), Finished(Got(1))]);
    assert WINNER.(live := false) in s.committed && !Visible(s, "a") && Taken(again, "a");
    assert StepOf(s, 0, again) && StepOf(again, 0, lost);
  }

  /** A slug nobody has used, and a caller that loses an insert, sees the winner deleted, and loses again. */
  lemma DeletedWinner()
    ensures exists run: seq<State> ::
      IsRun(run) && run[0] == BEGIN && LostTwice(run[|run| - 1]) && run[|run| - 1].clashed == {}
  {
    var run := WinnerDeleted();
    var again := DELETED.(callers := [Creating(1), Finished(Got(1))]);
    var lost := DELETED.(callers := [Finished(UniqueViolation), Finished(Got(1))]);
    LosesAgain(DELETED);
    ExtendTwice(run, again, lost);
    assert lost.callers[0] == Finished(UniqueViolation) && lost.clashed == {};
    assert LostTwice(lost);
  }

  const ALONE := State({}, map[], ["a"], [Reading(0)], {})

  const CLASHED := State({}, map[], ["a"], [Reading(1)], {0})

  lemma FirstClash() returns (run: seq<State>)
    ensures |run| == 4 && IsRun(run) && run[3] == CLASHED
  {
    var s0 := ALONE;
    var s1 := s0.(callers := [Creating(0)]);
    var s2 := s0.(callers := [Seeding(0, 1)], open := map[0 := "a"]);
    assert StepOf(s0, 0, s1) && StepOf(s1, 0, s2);
    assert StepOf(s2, 0, CLASHED) by { assert s2.open - {0} == map[]; }
    run := [s0, s1, s2, CLASHED];
  }

  /** With nobody else about, seeding that clashes twice also ends in a violation, after six steps. */
  lemma ClashesTwice()
    ensures exists run: seq<State> :: |run| == 7 && IsRun(run) && LostTwice(run[6]) && run[6].committed == {}
  {
    var run := FirstClash();
    var s4 := CLASHED.(callers := [Creating(1)]);
    var s5 := CLASHED.(callers := [Seeding(1, 2)], open := map[0 := "a"]);
    var s6 := CLASHED.(callers := [Finished(UniqueViolation)]);
    assert StepOf(CLASHED, 0, s4) && StepOf(s4, 0, s5);
    assert StepOf(s5, 0, s6) by { assert s5.open - {0} == map[] && s5.clashed + {0} == {0}; }
    Extend(run, s4);
    Extend(run + [s4], s5);
    Extend(run + [s4] + [s5], s6);
    assert s6.callers[0] == Finished(UniqueViolation);
    var longer := run + [s4] + [s5] + [s6];
    assert |longer| == 7 && longer[6] == s6 && LostTwice(s6);
  }

  // ----- Every caller answers ----------------------------------------------------------------------

  /** Steps a caller still has to take, at most. */
  function StepsLeft(c: Caller): nat {
    match c
    case Reading(a) => if a == 0 then 6 else 3
    case Creating(a) => if a == 0 then 5 else 2
    case Seeding(a, _) => if a == 0 then 4 else 1
    case Finished(_) => 0
  }

  lemma StepsRunOut(s: State, n: nat, s': State)
    requires StepOf(s, n, s')
    ensures StepsLeft(s'.callers[n]) < StepsLeft(s.callers[n])
  {
  }

  /** Callers that wait for each other's inserts never wait in a circle: while one is unfinished, some
      caller can take a step that does not fail. */
  lemma NoDeadlock(run: seq<State>, n: nat)
    requires IsRun(run)
    requires n < |run[|run| - 1].callers| && !run[|run| - 1].callers[n].Finished?
    ensures exists m: nat, s' :: StepOf(run[|run| - 1], m, s')
                                 && s'.callers[m] != Finished(LookupFailed) && s'.callers[m] != Finished(CreateFailed)
  {
    RunsAreSettled(run);
    var s := run[|run| - 1];
    var slug := s.slugs[n];
    match s.callers[n]
    case Reading(a) =>
      if Visible(s, slug) {
        var o :| o in s.committed && o.slug == slug && o.live;
        var s' := s.(callers := s.callers[n := Finished(Got(o.id))]);
        assert StepOf(s, n, s');
      } else {
        var s' := s.(callers := s.callers[n := Creating(a)]);
        assert StepOf(s, n, s');
      }
    case Creating(a) =>
      if Taken(s, slug) {
        var s' := s.(callers := s.callers[n := AfterViolation(a)]);
        assert StepOf(s, n, s');
      } else if Waits(s, n, slug) {
        var m :| m in s.open && m != n && s.open[m] == slug;
        CanCommit(s, m);
      } else {
        var s' := s.(callers := s.callers[n := Seeding(a, 0)], open := s.open[n := slug]);
        assert StepOf(s, n, s');
      }
    case Seeding(_, _) =>
      CanCommit(s, n);
    case Finished(_) =>
  }

  lemma CanCommit(s: State, m: nat)
    requires m < |s.callers| == |s.slugs| && s.callers[m].Seeding?
    ensures exists s' :: StepOf(s, m, s') && s'.callers[m] == Finished(Got(s.callers[m].id))
  {
    var id := s.callers[m].id;
    var s' := s.(callers := s.callers[m := Finished(Got(id))], open := s.open - {m},
                 committed := s.committed + {Org(s.slugs[m], id, true, true)});
    assert StepOf(s, m, s');
  }
}
