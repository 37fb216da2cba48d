/** Dated participation intervals of members: creation and next-day transition. */
module DatedParticipation {
  import opened Text

  type Id = nat
  const Nil: Id := 0

  /** A row of user_memberships. Days are day numbers; an absent end is open. */
  datatype Row = Row(
    member: Id, season: Id, programme: Id, team: Option<Id>, category: Option<Id>,
    startsOn: int, endsOn: Option<int>, updatedAt: int, exception: Option<Exception>)

  datatype Exception = Exception(reason: string, actor: Id)

  datatype Season = Season(startsOn: int, endsOn: int)

  type Rows = map<Id, Row>

  predicate Covers(r: Row, day: int) { r.startsOn <= day && (r.endsOn == None || day <= r.endsOn.value) }

  /** The two intervals, taken with both end days, share a day. */
  predicate Overlaps(r: Row, s: Row)
  {
    (s.endsOn == None || r.startsOn <= s.endsOn.value) && (r.endsOn == None || s.startsOn <= r.endsOn.value)
  }

  /** The exclusion constraint user_memberships_one_participation_per_day. */
  predicate Exclusive(rows: Rows)
  {
    forall i, j :: i in rows && j in rows && i != j && rows[i].member == rows[j].member ==> !Overlaps(rows[i], rows[j])
  }

  /** No stored interval ends before it starts (daterange rejects it). */
  predicate Proper(rows: Rows) { forall i :: i in rows && rows[i].endsOn.Some? ==> rows[i].startsOn <= rows[i].endsOn.value }

  // ----- one write -----

  /** What DatedClassificationVersion hashes: everything about the member's intervals except exception reasons. */
  datatype Version = Version(rows: map<Id, Row>, definitions: nat)

  function VersionData(rows: Rows, member: Id, definitions: nat): Version
  {
    Version(map i | i in rows && rows[i].member == member :: rows[i].(exception := None), definitions)
  }

  datatype Assignment = Assignment(
    actor: Id, member: Id, season: Id, programme: Id, category: Option<Id>, startsOn: int,
    previous: Option<Id>, reason: string, expected: string)

  /**
   * What the transaction reads outside user_memberships: the Lisbon day and time, the actor's authority, the
   * member's eligibility (None: no such member), the programme (None: missing), the shared team, the seasons, the
   * definitions that a version covers, the hash of versions, the verdicts of the two row triggers that concern
   * other tables, and a fresh id.
   */
  datatype Facts = Facts(
    today: int, now: int, admin: bool, grant: bool, eligible: Option<bool>, polo: Option<bool>, team: Option<Id>,
    seasons: map<Id, Season>, definitions: nat, digest: Version -> string, categoryValid: bool, historyFree: bool, newId: Id)

  datatype Outcome =
    | Committed(id: Id) | WindowError | Forbidden | Stale | PoloTeamUnavailable | TransitionError | DatabaseError

  predicate InWindow(a: Assignment, f: Facts)
  {
    if a.previous == None then a.startsOn == f.today || a.startsOn == f.today + 1 else a.startsOn == f.today + 1
  }

  /** DatedClassificationVersion, read inside the transaction. */
  function CurrentVersion(rows: Rows, member: Id, f: Facts): string { f.digest(VersionData(rows, member, f.definitions)) }

  /** The checks before the first change, in the order of the code. */
  function Gate(rows: Rows, a: Assignment, f: Facts): Option<Outcome>
  {
    if a.actor == Nil || a.member == Nil || a.season == Nil || a.programme == Nil then Some(WindowError)
    else if !InWindow(a, f) then Some(WindowError)
    else if !f.admin && !f.grant then Some(Forbidden)
    else if f.eligible != Some(true) then Some(Forbidden)
    else if a.expected != "" && a.expected != CurrentVersion(rows, a.member, f) then Some(Stale)
    else if f.polo == None then Some(DatabaseError)
    else if f.polo.value && f.team == None then Some(PoloTeamUnavailable)
    else None
  }

  /** The WHERE clause that selects the interval to close. */
  predicate Closable(rows: Rows, id: Id, a: Assignment, f: Facts)
  {
    && id in rows
    && rows[id].member == a.member && rows[id].season == a.season && rows[id].startsOn < f.today
    && (rows[id].endsOn == None || rows[id].endsOn.value >= f.today + 1)
    && (f.admin || rows[id].programme == a.programme)
  }

  function Closed(r: Row, f: Facts): Row { r.(endsOn := Some(f.today), updatedAt := f.now) }

  predicate WithinSeason(r: Row, f: Facts)
  {
    && r.season in f.seasons && f.seasons[r.season].startsOn <= r.startsOn <= f.seasons[r.season].endsOn
    && (r.endsOn.Some? ==> r.endsOn.value <= f.seasons[r.season].endsOn)
  }

  /** The row as inserted: the trigger fills an absent end with the season's last day. */
  function NewRow(a: Assignment, f: Facts): Row
    requires a.season in f.seasons
  {
    Row(a.member, a.season, a.programme, if f.polo == Some(true) then f.team else None, a.category, a.startsOn,
        Some(f.seasons[a.season].endsOn), f.now, if a.reason != "" then Some(Exception(a.reason, a.actor)) else None)
  }

  predicate Insertable(rows: Rows, r: Row, f: Facts)
  {
    && f.newId !in rows && WithinSeason(r, f) && f.categoryValid
    && forall i :: i in rows && rows[i].member == r.member ==> !Overlaps(rows[i], r)
  }

  /** The rows after closing the previous interval, or None with the error. */
  function AfterClose(rows: Rows, a: Assignment, f: Facts): (Rows, Option<Outcome>)
  {
    if a.previous == None then (rows, None)
    else if !Closable(rows, a.previous.value, a, f) then (rows, Some(TransitionError))
    else
      var r := Closed(rows[a.previous.value], f);
      if WithinSeason(r, f) && f.historyFree then (rows[a.previous.value := r], None) else (rows, Some(DatabaseError))
  }

  /** writeWithReason: the new rows and the outcome. */
  function Written(rows: Rows, a: Assignment, f: Facts): (Rows, Outcome)
  {
    match Gate(rows, a, f)
    case Some(e) => (rows, e)
    case None =>
      var closed := AfterClose(rows, a, f);
      if closed.1.Some? then (rows, closed.1.value)
      else if a.season !in f.seasons || !Insertable(closed.0, NewRow(a, f), f) then (rows, DatabaseError)
      else (closed.0[f.newId := NewRow(a, f)], Committed(f.newId))
  }

  // ----- what one write keeps -----

  lemma CloseKeeps(rows: Rows, a: Assignment, f: Facts)
    requires Exclusive(rows) && Proper(rows)
    ensures var after := AfterClose(rows, a, f).0;
            Exclusive(after) && Proper(after) && after.Keys == rows.Keys
  {
    if a.previous.Some? && AfterClose(rows, a, f).1 == None {
      var p := a.previous.value;
      var after := rows[p := Closed(rows[p], f)];
      forall i, j | i in after && j in after && i != j && after[i].member == after[j].member
        ensures !Overlaps(after[i], after[j])
      {
        assert !Overlaps(rows[i], rows[j]);
      }
    }
  }

  lemma WriteKeeps(rows: Rows, a: Assignment, f: Facts)
    requires Exclusive(rows) && Proper(rows)
    ensures Exclusive(Written(rows, a, f).0) && Proper(Written(rows, a, f).0)
  {
    var r := Written(rows, a, f);
    if r.1.Committed? {
      CloseKeeps(rows, a, f);
      hide Gate;
      var closed := AfterClose(rows, a, f).0;
      InsertKeeps(closed, NewRow(a, f), f);
    }
  }

  lemma InsertKeeps(rows: Rows, r: Row, f: Facts)
    requires Exclusive(rows) && Proper(rows) && Insertable(rows, r, f) && (r.endsOn.Some? ==> r.startsOn <= r.endsOn.value)
    ensures Exclusive(rows[f.newId := r]) && Proper(rows[f.newId := r])
  {
    var after := rows[f.newId := r];
    hide WithinSeason;
    forall i, j | i in after && j in after && i != j && after[i].member == after[j].member
      ensures !Overlaps(after[i], after[j])
    {
      if i != f.newId && j != f.newId { assert !Overlaps(rows[i], rows[j]); }
    }
  }

  /** In an exclusive table at most one row of a member covers a day. */
  lemma OneIntervalPerDay(rows: Rows, i: Id, j: Id, day: int)
    requires Exclusive(rows) && i in rows && j in rows && rows[i].member == rows[j].member
    requires Covers(rows[i], day) && Covers(rows[j], day)
    ensures i == j
  {
    if i != j { assert Overlaps(rows[i], rows[j]); }
  }

  /** s is r except possibly for the end day and the time of update. */
  predicate SameParticipation(r: Row, s: Row) { s.(endsOn := r.endsOn, updatedAt := r.updatedAt) == r }

  /** No participation on a day up to today is altered, and none is added before today. */
  ghost predicate HistoryKept(before: Rows, after: Rows, today: int)
  {
    && (forall i :: i in before ==> i in after && SameParticipation(before[i], after[i]))
    && (forall i, day :: i in before && i in after && day <= today ==> (Covers(before[i], day) <==> Covers(after[i], day)))
    && (forall i, day :: i in after && i !in before && day < today ==> !Covers(after[i], day))
  }

  lemma WriteKeepsHistory(rows: Rows, a: Assignment, f: Facts)
    ensures HistoryKept(rows, Written(rows, a, f).0, f.today)
  {
    var r := Written(rows, a, f);
    if r.1.Committed? {
      assert InWindow(a, f);
      hide Gate, Insertable;
      var closed := AfterClose(rows, a, f).0;
      assert f.newId !in closed;
      assert closed.Keys == rows.Keys;
    }
  }

  /** A successful transition leaves today with the old participation alone and tomorrow with the new one alone. */
  lemma TransitionIsSeamless(rows: Rows, a: Assignment, f: Facts)
    requires Exclusive(rows) && Proper(rows) && a.previous.Some? && Written(rows, a, f).1.Committed?
    ensures var after := Written(rows, a, f).0;
            && forall i :: i in after && after[i].member == a.member ==>
                 && (Covers(after[i], f.today) <==> i == a.previous.value)
                 && (Covers(after[i], f.today + 1) <==> i == f.newId)
  {
    WriteKeeps(rows, a, f);
    var after := Written(rows, a, f).0;
    var p := a.previous.value;
    assert Covers(after[p], f.today) && Covers(after[f.newId], f.today + 1) by { assert InWindow(a, f); }
    assert after[p].member == a.member && after[f.newId].member == a.member;
    hide Gate, Written, Insertable;
    forall i | i in after && after[i].member == a.member
      ensures (Covers(after[i], f.today) <==> i == p) && (Covers(after[i], f.today + 1) <==> i == f.newId)
    {
      if Covers(after[i], f.today) { OneIntervalPerDay(after, i, p, f.today); }
      if Covers(after[i], f.today + 1) { OneIntervalPerDay(after, i, f.newId, f.today + 1); }
    }
  }

  // ----- when a write commits, and what it leaves, field by field -----

  /** The request is complete and starts today or tomorrow; a transition always starts tomorrow. */
  predicate Timely(a: Assignment, f: Facts)
  {
    && a.actor != 0 && a.member != 0 && a.season != 0 && a.programme != 0
    && (a.startsOn == f.today + 1 || (a.startsOn == f.today && a.previous == None))
  }

  /** An administrator or a coach with a grant, for an eligible member. */
  predicate Authorised(f: Facts) { (f.admin || f.grant) && f.eligible == Some(true) }

  predicate UpToDate(rows: Rows, a: Assignment, f: Facts)
  {
    a.expected == "" || a.expected == f.digest(VersionData(rows, a.member, f.definitions))
  }

  /** The programme exists, and its shared team too when it is water polo. */
  predicate TeamKnown(f: Facts)
  {
    match f.polo
    case None => false
    case Some(polo) => polo ==> f.team.Some?
  }

  /** The interval to close is the member's, in this season, begun before today and not over tomorrow. */
  predicate Continues(r: Row, a: Assignment, f: Facts)
  {
    && r.member == a.member && r.season == a.season && r.startsOn < f.today
    && (r.endsOn == None || r.endsOn.value > f.today) && (f.admin || r.programme == a.programme)
  }

  /** Neither the closed interval nor the new one leaves its season, and the rules about other tables are met. */
  predicate FitsSeason(rows: Rows, a: Assignment, f: Facts)
  {
    && a.season in f.seasons && f.seasons[a.season].startsOn <= a.startsOn <= f.seasons[a.season].endsOn && f.categoryValid
    && (a.previous.Some? && a.previous.value in rows ==>
          f.seasons[a.season].startsOn <= rows[a.previous.value].startsOn && f.historyFree)
  }

  /** On no day from the start to the end of the season does another interval of the member go on. */
  ghost predicate DaysFree(rows: Rows, a: Assignment, f: Facts)
    requires a.season in f.seasons
  {
    forall i, day :: i in rows && rows[i].member == a.member && Some(i) != a.previous && Covers(rows[i], day) ==>
      !(a.startsOn <= day <= f.seasons[a.season].endsOn)
  }

  ghost predicate Possible(rows: Rows, a: Assignment, f: Facts)
  {
    && Timely(a, f) && Authorised(f) && UpToDate(rows, a, f) && TeamKnown(f)
    && (a.previous.Some? ==> a.previous.value in rows && Continues(rows[a.previous.value], a, f))
    && f.newId !in rows && FitsSeason(rows, a, f) && DaysFree(rows, a, f)
  }

  /** Two intervals that each hold a day overlap exactly when they hold one together. */
  lemma OverlapsIff(r: Row, s: Row)
    requires (r.endsOn.Some? ==> r.startsOn <= r.endsOn.value) && (s.endsOn.Some? ==> s.startsOn <= s.endsOn.value)
    ensures Overlaps(r, s) <==> exists day :: Covers(r, day) && Covers(s, day)
  {
    if Overlaps(r, s) {
      var day := if r.startsOn <= s.startsOn then s.startsOn else r.startsOn;
      assert Covers(r, day) && Covers(s, day);
    }
  }

  lemma FreeIff(rows: Rows, a: Assignment, f: Facts, r: Row)
    requires Proper(rows) && a.season in f.seasons && r.startsOn == a.startsOn && r.endsOn == Some(f.seasons[a.season].endsOn)
    requires a.startsOn <= f.seasons[a.season].endsOn
    ensures DaysFree(rows, a, f) <==>
            forall i :: i in rows && rows[i].member == a.member && Some(i) != a.previous ==> !Overlaps(rows[i], r)
  {
    forall i | i in rows ensures Overlaps(rows[i], r) <==> exists day :: Covers(rows[i], day) && Covers(r, day) {
      OverlapsIff(rows[i], r);
    }
    hide Overlaps, Proper;
    forall day ensures Covers(r, day) <==> a.startsOn <= day <= f.seasons[a.season].endsOn { }
  }

  /** The gate lets a request through, or stops it with the reason that comes first. */
  lemma GateIff(rows: Rows, a: Assignment, f: Facts)
    ensures Gate(rows, a, f).Some? ==> !Gate(rows, a, f).value.Committed?
    ensures Gate(rows, a, f) == None <==> Timely(a, f) && Authorised(f) && UpToDate(rows, a, f) && TeamKnown(f)
    ensures Written(rows, a, f).1 == WindowError <==> !Timely(a, f)
    ensures Written(rows, a, f).1 == Forbidden <==> Timely(a, f) && !Authorised(f)
    ensures Written(rows, a, f).1 == Stale <==> Timely(a, f) && Authorised(f) && !UpToDate(rows, a, f)
  {
    hide Insertable, Closable, WithinSeason;
    if a.expected != "" && Timely(a, f) && Authorised(f) { assert UpToDate(rows, a, f) <==> a.expected == CurrentVersion(rows, a.member, f); }
  }

  /** A write commits exactly when all of this holds; otherwise the table stays as it was. */
  lemma CommitsIff(rows: Rows, a: Assignment, f: Facts)
    requires Proper(rows)
    ensures Written(rows, a, f).1 == Committed(f.newId) <==> Possible(rows, a, f)
    ensures !Possible(rows, a, f) ==> Written(rows, a, f).0 == rows && !Written(rows, a, f).1.Committed?
  {
    GateIff(rows, a, f);
    hide Gate, Timely, Authorised, UpToDate, TeamKnown;
    if Gate(rows, a, f) == None { ChangesIff(rows, a, f); }
  }

  lemma ChangesIff(rows: Rows, a: Assignment, f: Facts)
    requires Proper(rows) && Timely(a, f)
    ensures AfterClose(rows, a, f).1 == None && a.season in f.seasons && Insertable(AfterClose(rows, a, f).0, NewRow(a, f), f) <==>
            && (a.previous.Some? ==> a.previous.value in rows && Continues(rows[a.previous.value], a, f))
            && f.newId !in rows && FitsSeason(rows, a, f) && DaysFree(rows, a, f)
  {
    hide DaysFree, Overlaps, Proper;
    if a.season in f.seasons && a.startsOn <= f.seasons[a.season].endsOn {
      FreeIff(rows, a, f, NewRow(a, f));
      if a.previous.Some? {
        if a.previous.value in rows { ClosingIff(rows, a, f); }
      }
    }
  }

  lemma ClosingIff(rows: Rows, a: Assignment, f: Facts)
    requires a.season in f.seasons && a.previous.Some? && a.previous.value in rows && Timely(a, f)
    requires a.startsOn <= f.seasons[a.season].endsOn
    ensures AfterClose(rows, a, f).1 == None <==>
            && Continues(rows[a.previous.value], a, f)
            && f.seasons[a.season].startsOn <= rows[a.previous.value].startsOn && f.historyFree
    ensures AfterClose(rows, a, f).1 == None ==>
              var closed := AfterClose(rows, a, f).0;
              && closed.Keys == rows.Keys && !Overlaps(closed[a.previous.value], NewRow(a, f))
              && forall i :: i in rows && i != a.previous.value ==> closed[i] == rows[i]
    ensures AfterClose(rows, a, f).1 == None ==> AfterClose(rows, a, f).0[a.previous.value].member == a.member
  {
    ClosedIsApart(rows[a.previous.value], a, f);
    hide Overlaps;
  }

  lemma ClosedIsApart(r: Row, a: Assignment, f: Facts)
    requires a.season in f.seasons && a.startsOn == f.today + 1
    ensures !Overlaps(Closed(r, f), NewRow(a, f))
  {
  }

  /** The table after a commit: the new row, the closed one, and every other row as it was. */
  lemma CommittedRows(rows: Rows, a: Assignment, f: Facts)
    requires Written(rows, a, f).1.Committed?
    ensures var after := Written(rows, a, f).0; var id := f.newId;
            && id !in rows && after.Keys == rows.Keys + {id}
            && after[id].member == a.member && after[id].season == a.season && after[id].programme == a.programme
            && after[id].category == a.category && after[id].startsOn == a.startsOn
            && a.season in f.seasons && after[id].endsOn == Some(f.seasons[a.season].endsOn)
            && after[id].team == (if f.polo == Some(true) then f.team else None) && after[id].updatedAt == f.now
            && (after[id].exception == if a.reason == "" then None else Some(Exception(a.reason, a.actor)))
            && (forall i :: i in rows && Some(i) != a.previous ==> after[i] == rows[i])
            && (a.previous.Some? ==>
                  a.previous.value in rows
                  && after[a.previous.value] == rows[a.previous.value].(endsOn := Some(f.today), updatedAt := f.now))
  {
    GateIff(rows, a, f);
    hide Gate, WithinSeason, Overlaps;
  }

  // ----- whole runs -----

  datatype Step = Step(assignment: Assignment, facts: Facts, failed: bool)

  function After(rows: Rows, s: Step): Rows { if s.failed then rows else Written(rows, s.assignment, s.facts).0 }

  function RunFrom(rows: Rows, steps: seq<Step>): Rows
    decreases |steps|
  {
    if steps == [] then rows else After(RunFrom(rows, steps[..|steps| - 1]), steps[|steps| - 1])
  }

  /** The clock starts at today and never goes back. */
  predicate ClockFrom(today: int, steps: seq<Step>)
  {
    && (forall i :: 0 <= i < |steps| ==> today <= steps[i].facts.today)
    && (forall i, j :: 0 <= i < j < |steps| ==> steps[i].facts.today <= steps[j].facts.today)
  }

  /** Main result: over every run from an empty table, a member has at most one interval on any day. */
  lemma {:induction false} RunsAreExclusive(steps: seq<Step>)
    ensures Exclusive(RunFrom(map[], steps)) && Proper(RunFrom(map[], steps))
    decreases |steps|
  {
    if steps != [] {
      RunsAreExclusive(steps[..|steps| - 1]);
      var s := steps[|steps| - 1];
      hide Exclusive, Proper;
      WriteKeeps(RunFrom(map[], steps[..|steps| - 1]), s.assignment, s.facts);
    }
  }

  lemma HistoryKeptTransitive(a: Rows, b: Rows, c: Rows, today: int, later: int)
    requires HistoryKept(a, b, today) && HistoryKept(b, c, later) && today <= later
    ensures HistoryKept(a, c, today)
  {
  }

  /** Main result: over every run with a clock that never goes back, the participations up to today are final. */
  lemma {:induction false} RunKeepsHistory(rows: Rows, steps: seq<Step>, today: int)
    requires ClockFrom(today, steps)
    ensures HistoryKept(rows, RunFrom(rows, steps), today)
    decreases |steps|
  {
    if steps != [] {
      var s := steps[|steps| - 1];
      var middle := RunFrom(rows, steps[..|steps| - 1]);
      RunKeepsHistory(rows, steps[..|steps| - 1], today);
      WriteKeepsHistory(middle, s.assignment, s.facts);
      if !s.failed {
        hide HistoryKept;
        HistoryKeptTransitive(rows, middle, Written(middle, s.assignment, s.facts).0, today, s.facts.today);
      }
    }
  }

  /** What was held on a day that is not in the future is still held by the same row, and by no other. */
  lemma HeldForever(before: seq<Step>, later: seq<Step>, today: int, i: Id, day: int)
    requires ClockFrom(today, later) && day <= today
    requires var rows := RunFrom(map[], before); i in rows && Covers(rows[i], day)
    ensures var rows, after := RunFrom(map[], before), RunFrom(RunFrom(map[], before), later);
            && i in after && SameParticipation(rows[i], after[i]) && Covers(after[i], day)
            && forall j :: j in after && after[j].member == rows[i].member && Covers(after[j], day) ==> j == i
  {
    var rows := RunFrom(map[], before);
    var after := RunFrom(rows, later);
    RunKeepsHistory(rows, later, today);
    RunConcat(map[], before, later);
    RunsAreExclusive(before + later);
    hide RunFrom, Exclusive;
    forall j | j in after && after[j].member == rows[i].member && Covers(after[j], day) ensures j == i {
      OneIntervalPerDay(after, i, j, day);
    }
  }

  lemma {:induction false} RunConcat(rows: Rows, a: seq<Step>, b: seq<Step>)
    ensures RunFrom(rows, a + b) == RunFrom(RunFrom(rows, a), b)
    decreases |b|
  {
    if b == [] {
      assert a + b == a;
    } else {
      assert (a + b)[..|a + b| - 1] == a + b[..|b| - 1];
      RunConcat(rows, a, b[..|b| - 1]);
    }
  }

  // ----- the service on its table -----

  class Service {
    var rows: Rows

    constructor ()
      ensures rows == map[]
    {
      rows := map[];
    }

    /** UPDATE ... WHERE: the number of rows changed, or None when a trigger rejects the change. */
    method Close(a: Assignment, f: Facts) returns (affected: Option<nat>)
      requires a.previous.Some?
      modifies this
      ensures affected == None ==> AfterClose(old(rows), a, f).1 == Some(DatabaseError)
      ensures affected == Some(0) ==> AfterClose(old(rows), a, f).1 == Some(TransitionError) && rows == old(rows)
      ensures affected.Some? && affected.value != 0 ==>
                affected == Some(1) && AfterClose(old(rows), a, f) == (rows, None)
    {
      if !Closable(rows, a.previous.value, a, f) { return Some(0); }
      var r := Closed(rows[a.previous.value], f);
      if !WithinSeason(r, f) || !f.historyFree { return None; }
      rows := rows[a.previous.value := r];
      return Some(1);
    }

    /** INSERT ... RETURNING. */
    method Insert(a: Assignment, f: Facts) returns (ok: bool)
      modifies this
      ensures ok <==> a.season in f.seasons && Insertable(old(rows), NewRow(a, f), f)
      ensures ok ==> rows == old(rows)[f.newId := NewRow(a, f)]
    {
      if a.season !in f.seasons || !Insertable(rows, NewRow(a, f), f) { return false; }
      rows := rows[f.newId := NewRow(a, f)];
      return true;
    }

    /**
     * writeWithReason: one transaction that commits both changes or neither.
     * budget is the number of statements the database executes before it fails; the last one is the commit.
     */
    method Write(a: Assignment, f: Facts, budget: nat) returns (outcome: Outcome)
      modifies this
      ensures outcome == DatabaseError ==> rows == old(rows)
      ensures outcome != DatabaseError ==> (rows, outcome) == Written(old(rows), a, f)
      ensures budget >= 3 ==> (rows, outcome) == Written(old(rows), a, f)
    {
      var before := rows;
      var left := budget;
      var gate := Gate(rows, a, f);
      if gate.Some? { return gate.value; }
      if a.previous.Some? {
        if left == 0 { return DatabaseError; }
        left := left - 1;
        var affected := Close(a, f);
        if affected == None { rows := before; return DatabaseError; }
        if affected.value != 1 { rows := before; return TransitionError; }
      }
      var ok := false;
      if left > 0 { ok := Insert(a, f); }
      if !ok || left == 1 { rows := before; return DatabaseError; }
      return Committed(f.newId);
    }
  }
}
