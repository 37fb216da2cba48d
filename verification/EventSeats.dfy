/** Seats of one event: answers, waitlist confirmations and check-ins interleave under a row lock against a capacity. */
module EventSeats {
  import opened Text

  type Id = nat

  datatype Status = Going | NotGoing | Waitlisted

  /** A response row; checkedBy is the member of staff who registered the presence. */
  datatype Row = Row(status: Status, answeredBy: Id, answeredAt: int, checkedBy: Option<Id>)

  /** The event row. Its capacity does not change here. */
  datatype Event = Event(capacity: Option<nat>, startsAt: int, endsAt: int, deadline: Option<int>)

  datatype Request =
    | Respond(actor: Id, subject: Id, going: bool)
    | Confirm(actor: Id, subject: Id)
    | CheckIn(actor: Id, subject: Id)

  function GoingSet(rows: map<Id, Row>): set<Id> { set u | u in rows && rows[u].status == Going }

  predicate Full(capacity: Option<nat>, rows: map<Id, Row>) { capacity.Some? && |GoingSet(rows)| >= capacity.value }

  predicate HasStatus(rows: map<Id, Row>, u: Id, status: Status) { u in rows && rows[u].status == status }

  // ----- what one request does when nothing interleaves -----

  /** The checks under the lock: authority, and for an answer or a check-in the clock. */
  predicate Admissible(event: Event, request: Request, permitted: bool, now: int)
  {
    && permitted
    && (request.Respond? ==> event.endsAt > now && (event.deadline.Some? ==> now <= event.deadline.value))
    && (request.CheckIn? ==> now >= event.startsAt)
  }

  function Choice(capacity: Option<nat>, rows: map<Id, Row>, request: Request): Status
    requires request.Respond?
  {
    if !request.going then NotGoing
    else if HasStatus(rows, request.subject, Going) || !Full(capacity, rows) then Going
    else Waitlisted
  }

  /** The row an admissible request writes, None when the state does not allow it. */
  function Written(capacity: Option<nat>, rows: map<Id, Row>, request: Request, at: int): Option<Row>
  {
    match request
    case Respond(actor, subject, going) => Some(Row(Choice(capacity, rows, request), actor, at, None))
    case Confirm(actor, subject) =>
      if !Full(capacity, rows) && HasStatus(rows, subject, Waitlisted)
      then Some(Row(Going, actor, at, rows[subject].checkedBy)) else None
    case CheckIn(actor, subject) =>
      if HasStatus(rows, subject, Going) && rows[subject].checkedBy == None
      then Some(rows[subject].(checkedBy := Some(actor))) else None
  }

  // ----- the machine: many transactions, one row lock -----

  /** How far a transaction has come; the stages after Waiting hold the lock. */
  datatype Stage =
    | Waiting
    | Locked
    | Admitted
    | Known(already: bool)
    | Decided(status: Status)
    | Writing(row: Row)

  datatype Tx = Tx(request: Request, stage: Stage)

  /** rows is the committed table: a write is seen by others only after the commit. */
  datatype World = World(event: Event, active: bool, rows: map<Id, Row>, lock: Option<nat>, txs: map<nat, Tx>)

  /** One statement of transaction t, or something beside the transactions: erasure of a row, cancellation. */
  datatype Action =
    | Open(t: nat, request: Request)
    | Lock(t: nat)
    | Check(t: nat, now: int, permitted: bool)
    | LookUp(t: nat)
    | Count(t: nat)
    | Save(t: nat, at: int)
    | Commit(t: nat)
    | Rollback(t: nat)
    | Remove(u: Id)
    | Cancel

  function Close(w: World, t: nat): World
  {
    w.(txs := w.txs - {t}, lock := if w.lock == Some(t) then None else w.lock)
  }

  function Move(w: World, t: nat, stage: Stage): World
    requires t in w.txs
  {
    w.(txs := w.txs[t := w.txs[t].(stage := stage)])
  }

  predicate Writes(w: World, u: Id)
  {
    w.lock.Some? && w.lock.value in w.txs && w.txs[w.lock.value].stage.Writing? && w.txs[w.lock.value].request.subject == u
  }

  /** FOR UPDATE on the event row: waits for the lock, and finds no row when the event was cancelled. */
  function Locks(w: World, t: nat): World
  {
    if t !in w.txs || !w.txs[t].stage.Waiting? || w.lock.Some? then w
    else if !w.active then Close(w, t)
    else Move(w, t, Locked).(lock := Some(t))
  }

  /** Authority and clock; a refusal to come needs no count, a check-in neither. */
  function Checks(w: World, t: nat, now: int, permitted: bool): World
  {
    if t !in w.txs || !w.txs[t].stage.Locked? then w
    else
      var request := w.txs[t].request;
      if !Admissible(w.event, request, permitted, now) then Close(w, t)
      else if request.Respond? && !request.going then Move(w, t, Decided(NotGoing))
      else if request.CheckIn? then Move(w, t, Decided(Going))
      else Move(w, t, Admitted)
  }

  /** The member's existing response. */
  function LooksUp(w: World, t: nat): World
  {
    if t in w.txs && w.txs[t].stage.Admitted? && w.txs[t].request.Respond?
    then Move(w, t, Known(HasStatus(w.rows, w.txs[t].request.subject, Going))) else w
  }

  /** The count of seats. */
  function Counts(w: World, t: nat): World
  {
    if t !in w.txs then w
    else if w.txs[t].stage.Known? then
      Move(w, t, Decided(if w.txs[t].stage.already || !Full(w.event.capacity, w.rows) then Going else Waitlisted))
    else if w.txs[t].stage.Admitted? && w.txs[t].request.Confirm? then
      if Full(w.event.capacity, w.rows) then Close(w, t) else Move(w, t, Decided(Going))
    else w
  }

  /** The write, visible to others only after the commit. */
  function Saves(w: World, t: nat, at: int): World
  {
    if t !in w.txs || !w.txs[t].stage.Decided? then w
    else
      var request := w.txs[t].request;
      if request.Respond? then Move(w, t, Writing(Row(w.txs[t].stage.status, request.actor, at, None)))
      else if request.Confirm? && w.active && HasStatus(w.rows, request.subject, Waitlisted) then
        Move(w, t, Writing(Row(Going, request.actor, at, w.rows[request.subject].checkedBy)))
      else if request.CheckIn? && w.active && HasStatus(w.rows, request.subject, Going) && w.rows[request.subject].checkedBy == None then
        Move(w, t, Writing(w.rows[request.subject].(checkedBy := Some(request.actor))))
      else Close(w, t)
  }

  function Commits(w: World, t: nat): World
  {
    if t in w.txs && w.txs[t].stage.Writing?
    then Close(w, t).(rows := w.rows[w.txs[t].request.subject := w.txs[t].stage.row]) else w
  }

  function Step(w: World, a: Action): World
  {
    match a
    case Open(t, request) => if t in w.txs then w else w.(txs := w.txs[t := Tx(request, Waiting)])
    case Lock(t) => Locks(w, t)
    case Check(t, now, permitted) => Checks(w, t, now, permitted)
    case LookUp(t) => LooksUp(w, t)
    case Count(t) => Counts(w, t)
    case Save(t, at) => Saves(w, t, at)
    case Commit(t) => Commits(w, t)
    case Rollback(t) => if t in w.txs then Close(w, t) else w
    case Remove(u) => if Writes(w, u) then w else w.(rows := w.rows - {u})
    case Cancel => if w.lock.Some? then w else w.(active := false)
  }

  function After(w: World, run: seq<Action>): World
    decreases |run|
  {
    if run == [] then w else Step(After(w, run[..|run| - 1]), run[|run| - 1])
  }

  /** An active event with its responses so far and no transaction under way. */
  function Start(event: Event, rows: map<Id, Row>): World { World(event, true, rows, None, map[]) }

  // ----- the invariant -----

  /** Only the holder of the lock is past waiting. */
  predicate Exclusive(w: World)
  {
    && (w.lock.Some? ==> w.lock.value in w.txs && !w.txs[w.lock.value].stage.Waiting?)
    && (forall t :: t in w.txs && !w.txs[t].stage.Waiting? ==> w.lock == Some(t))
  }

  predicate WithinCapacity(event: Event, rows: map<Id, Row>)
  {
    event.capacity.Some? ==> |GoingSet(rows)| <= event.capacity.value
  }

  /** The transaction has made up its mind to leave its subject with a seat. */
  predicate WillSeat(tx: Tx)
  {
    || (tx.stage.Known? && tx.stage.already)
    || (tx.stage.Decided? && tx.stage.status == Going && !tx.request.CheckIn?)
    || (tx.stage.Writing? && tx.stage.row.status == Going)
  }

  /** The others leave room for the subject. */
  predicate SeatReserved(event: Event, rows: map<Id, Row>, u: Id)
  {
    event.capacity.Some? ==> |GoingSet(rows) - {u}| < event.capacity.value
  }

  /** A decision to answer Going never takes away a seat that is held. */
  predicate KeepsSeat(rows: map<Id, Row>, tx: Tx)
  {
    tx.request.Respond? && tx.request.going && HasStatus(rows, tx.request.subject, Going) ==>
      && (tx.stage.Known? ==> tx.stage.already)
      && (tx.stage.Decided? ==> tx.stage.status == Going)
      && (tx.stage.Writing? ==> tx.stage.row.status == Going)
  }

  predicate WriteFits(rows: map<Id, Row>, tx: Tx)
  {
    && (tx.stage.Decided? && tx.request.Respond? && !tx.request.going ==> tx.stage.status == NotGoing)
    && (tx.stage.Writing? ==>
          && (tx.request.Respond? && !tx.request.going ==> tx.stage.row.status == NotGoing)
          && (tx.request.Confirm? ==> tx.stage.row.status == Going && HasStatus(rows, tx.request.subject, Waitlisted))
          && (tx.request.CheckIn? ==> tx.stage.row.status == Going && HasStatus(rows, tx.request.subject, Going)))
    && (tx.stage.Known? || tx.stage.Admitted? ==> !tx.request.CheckIn? && (tx.request.Respond? ==> tx.request.going))
    && (tx.stage.Known? ==> tx.request.Respond?)
    && (tx.stage.Decided? && !tx.request.Respond? ==> tx.stage.status == Going)
  }

  predicate HolderOk(event: Event, rows: map<Id, Row>, tx: Tx)
  {
    && (WillSeat(tx) ==> SeatReserved(event, rows, tx.request.subject))
    && KeepsSeat(rows, tx) && WriteFits(rows, tx)
  }

  predicate Invariant(w: World)
  {
    && Exclusive(w) && WithinCapacity(w.event, w.rows)
    && (w.lock.Some? ==> HolderOk(w.event, w.rows, w.txs[w.lock.value]))
  }

  // ----- the theorems about runs -----

  /** However many answers, confirmations, check-ins, erasures and failures interleave, seats never exceed the capacity. */
  lemma {:induction false} SeatsNeverExceedCapacity(event: Event, rows: map<Id, Row>, run: seq<Action>)
    requires WithinCapacity(event, rows)
    ensures var w := After(Start(event, rows), run); Invariant(w) && w.event == event
    ensures event.capacity.Some? ==> |GoingSet(After(Start(event, rows), run).rows)| <= event.capacity.value
    decreases |run|
  {
    hide Step;
    if run != [] {
      SeatsNeverExceedCapacity(event, rows, run[..|run| - 1]);
      StepKeeps(After(Start(event, rows), run[..|run| - 1]), run[|run| - 1]);
      hide Exclusive, HolderOk, GoingSet;
    }
  }

  /** Only the member's own answer, or a confirmation of a waitlisted member, gives a seat. */
  lemma WhoGivesASeat(event: Event, rows: map<Id, Row>, run: seq<Action>, a: Action, u: Id)
    requires WithinCapacity(event, rows)
    requires var w := After(Start(event, rows), run); u !in GoingSet(w.rows) && u in GoingSet(Step(w, a).rows)
    ensures var w := After(Start(event, rows), run);
            && a.Commit? && a.t in w.txs && w.txs[a.t].request.subject == u
            && ((w.txs[a.t].request.Respond? && w.txs[a.t].request.going)
                || (w.txs[a.t].request.Confirm? && HasStatus(w.rows, u, Waitlisted)))
  {
    SeatsNeverExceedCapacity(event, rows, run);
    SeatGiven(After(Start(event, rows), run), a, u);
  }

  /** A seat is lost only by the member's own refusal or by erasure: answering Going again never loses it. */
  lemma WhoTakesASeat(event: Event, rows: map<Id, Row>, run: seq<Action>, a: Action, u: Id)
    requires WithinCapacity(event, rows)
    requires var w := After(Start(event, rows), run); u in GoingSet(w.rows) && u !in GoingSet(Step(w, a).rows)
    ensures a == Remove(u) ||
            (a.Commit? && var w := After(Start(event, rows), run);
             a.t in w.txs && w.txs[a.t].request.Respond? && w.txs[a.t].request.subject == u && !w.txs[a.t].request.going)
  {
    SeatsNeverExceedCapacity(event, rows, run);
    SeatTaken(After(Start(event, rows), run), a, u);
  }

  /** The transaction is about to put its subject on the waitlist. */
  predicate Waitlisting(tx: Tx) { tx.stage == Decided(Waitlisted) || (tx.stage.Writing? && tx.stage.row.status == Waitlisted) }

  /** Step i counted the seats of a full event for t, which has held the lock ever since. */
  predicate CountedFull(event: Event, rows: map<Id, Row>, run: seq<Action>, i: nat, t: nat)
  {
    && i < |run| && run[i] == Count(t) && Full(event.capacity, After(Start(event, rows), run[..i]).rows)
    && forall j :: i < j <= |run| ==> After(Start(event, rows), run[..j]).lock == Some(t)
  }

  /** In every run, erasures included, a member is put on the waitlist only after a locked count that found the event full. */
  lemma {:induction false} WaitlistedOnlyWhenFull(event: Event, rows: map<Id, Row>, run: seq<Action>, t: nat)
    requires WithinCapacity(event, rows)
    requires var w := After(Start(event, rows), run); t in w.txs && Waitlisting(w.txs[t])
    ensures exists i: nat :: CountedFull(event, rows, run, i, t)
    decreases |run|
  {
    hide Step, Full, Waitlisting, Exclusive, HolderOk, WithinCapacity;
    if run == [] {
      NothingUnderWay(event, rows);
    } else {
      var rest, n := run[..|run| - 1], |run| - 1;
      var before := After(Start(event, rows), rest);
      SeatsNeverExceedCapacity(event, rows, rest);
      SeatsNeverExceedCapacity(event, rows, run);
      WaitlistStep(before, run[n], t);
      HoldsLock(After(Start(event, rows), run), t);
      assert run[..|run|] == run;
      if t in before.txs && Waitlisting(before.txs[t]) {
        WaitlistedOnlyWhenFull(event, rows, rest, t);
        var i: nat :| CountedFull(event, rows, rest, i, t);
        LongerCount(event, rows, run, i, t);
      } else {
        assert CountedFull(event, rows, run, n, t);
      }
    }
  }

  // ----- who gets as far as a write -----

  /** Step i found the actor of t permitted, and the time right for the request: not too late to answer, not too early to check in. */
  predicate AdmittedAt(event: Event, run: seq<Action>, i: nat, t: nat, request: Request)
  {
    && i < |run| && run[i].Check? && run[i].t == t && run[i].permitted
    && match request
       case Respond(_, _, _) => run[i].now < event.endsAt && (event.deadline == None || run[i].now <= event.deadline.value)
       case Confirm(_, _) => true
       case CheckIn(_, _) => run[i].now >= event.startsAt
  }

  predicate PastCheck(tx: Tx) { !tx.stage.Waiting? && !tx.stage.Locked? }

  /** In every run, whatever transaction is about to decide, write or commit was admitted under the lock. */
  lemma {:induction false} CommitsAreAdmitted(event: Event, rows: map<Id, Row>, run: seq<Action>, t: nat)
    requires var w := After(Start(event, rows), run); t in w.txs && PastCheck(w.txs[t])
    ensures exists i: nat :: AdmittedAt(event, run, i, t, After(Start(event, rows), run).txs[t].request)
    decreases |run|
  {
    hide Step, PastCheck;
    if run == [] {
      NothingUnderWay(event, rows);
    } else {
      var rest, n := run[..|run| - 1], |run| - 1;
      var before, after := After(Start(event, rows), rest), After(Start(event, rows), run);
      SameEvent(event, rows, rest);
      AdmissionStep(before, run[n], t);
      if t in before.txs && PastCheck(before.txs[t]) && before.txs[t].request == after.txs[t].request {
        CommitsAreAdmitted(event, rows, rest, t);
        var i: nat :| AdmittedAt(event, rest, i, t, after.txs[t].request);
        assert AdmittedAt(event, run, i, t, after.txs[t].request);
      } else {
        assert AdmittedAt(event, run, n, t, after.txs[t].request);
      }
    }
  }

  lemma AdmissionStep(w: World, a: Action, t: nat)
    requires t in Step(w, a).txs && PastCheck(Step(w, a).txs[t])
    ensures t in w.txs && Step(w, a).txs[t].request == w.txs[t].request
    ensures PastCheck(w.txs[t]) || (a.Check? && AdmittedAt(w.event, [a], 0, t, w.txs[t].request))
  {
    hide GoingSet, Full, HasStatus;
  }

  lemma {:induction false} SameEvent(event: Event, rows: map<Id, Row>, run: seq<Action>)
    ensures After(Start(event, rows), run).event == event
    decreases |run|
  {
    if run != [] {
      SameEvent(event, rows, run[..|run| - 1]);
      hide Admissible, Full, HasStatus;
    }
  }

  /** Nobody holds the lock of a cancelled event. */
  predicate Ended(w: World) { Exclusive(w) && !w.active && w.lock == None }

  /** Once an event is cancelled, no answer, confirmation or check-in is committed any more; rows are at most erased. */
  lemma {:induction false} CancelledIsFinal(w: World, run: seq<Action>)
    requires Ended(w)
    ensures Ended(After(w, run)) && forall u :: u in After(w, run).rows ==> u in w.rows && After(w, run).rows[u] == w.rows[u]
    decreases |run|
  {
    hide Step, Ended;
    if run != [] {
      CancelledIsFinal(w, run[..|run| - 1]);
      EndedStep(After(w, run[..|run| - 1]), run[|run| - 1]);
    }
  }

  lemma EndedStep(w: World, a: Action)
    requires Ended(w)
    ensures Ended(Step(w, a)) && forall u :: u in Step(w, a).rows ==> u in w.rows && Step(w, a).rows[u] == w.rows[u]
  {
    hide Admissible, Full, HasStatus;
  }

  /** A cancellation takes effect only while nobody holds the lock, and then it is final. */
  lemma CancelEnds(event: Event, rows: map<Id, Row>, run: seq<Action>)
    requires WithinCapacity(event, rows)
    ensures var w := After(Start(event, rows), run); Ended(Step(w, Cancel)) || (w.lock.Some? && Step(w, Cancel) == w)
  {
    SeatsNeverExceedCapacity(event, rows, run);
    hide After, HolderOk, WithinCapacity;
  }

  // ----- a commit is the whole request at once -----

  /** What the holder has read is still so. */
  predicate Current(event: Event, rows: map<Id, Row>, tx: Tx)
  {
    match tx.stage
    case Known(already) => tx.request.Respond? && already == HasStatus(rows, tx.request.subject, Going)
    case Decided(status) =>
      if tx.request.Respond? then status == Choice(event.capacity, rows, tx.request)
      else tx.request.Confirm? ==> !Full(event.capacity, rows)
    case Writing(row) => Written(event.capacity, rows, tx.request, row.answeredAt) == Some(row)
    case _ => true
  }

  predicate Serial(w: World)
  {
    Exclusive(w) && (w.lock.Some? ==> Current(w.event, w.rows, w.txs[w.lock.value]) && WriteFits(w.rows, w.txs[w.lock.value]))
  }

  /**
   * Serialisation: while no row is erased, each commit writes exactly what the whole request would write if it ran
   * alone on the table it commits to. In particular a member is put on the waitlist only if the event is full then.
   */
  lemma CommitsAreAtomic(event: Event, rows: map<Id, Row>, run: seq<Action>, t: nat)
    requires forall i :: 0 <= i < |run| ==> !run[i].Remove?
    requires var w := After(Start(event, rows), run); t in w.txs && w.txs[t].stage.Writing?
    ensures var w := After(Start(event, rows), run); var tx := w.txs[t];
            && Written(event.capacity, w.rows, tx.request, tx.stage.row.answeredAt) == Some(tx.stage.row)
            && Step(w, Commit(t)).rows == w.rows[tx.request.subject := tx.stage.row]
            && (tx.stage.row.status == Waitlisted ==> Full(event.capacity, w.rows))
  {
    SerialAlways(event, rows, run);
    hide After, GoingSet, HasStatus;
  }

  // ----- what a commit writes, field by field -----

  /** The seats taken in a table. */
  function Taken(rows: map<Id, Row>): nat { |set u | u in rows && rows[u].status == Going| }

  /** The row of an answer: a seat for who has one or while one is free, else the waitlist; a refusal is a refusal. */
  predicate AnswerRow(capacity: Option<nat>, rows: map<Id, Row>, actor: Id, subject: Id, going: bool, at: int, row: Row)
  {
    && row.answeredBy == actor && row.answeredAt == at && row.checkedBy == None
    && (row.status == NotGoing <==> !going)
    && (row.status == Going <==>
          going && ((subject in rows && rows[subject].status == Going) || capacity == None || Taken(rows) < capacity.value))
  }

  /** The row of a confirmation: the waitlisted member gets the free seat. */
  predicate ConfirmRow(capacity: Option<nat>, rows: map<Id, Row>, actor: Id, subject: Id, at: int, row: Row)
  {
    && subject in rows && rows[subject].status == Waitlisted && (capacity == None || Taken(rows) < capacity.value)
    && row == Row(Going, actor, at, rows[subject].checkedBy)
  }

  /** The row of a check-in: the seat holder, not yet checked in, now by this member of staff. */
  predicate CheckInRow(rows: map<Id, Row>, actor: Id, subject: Id, row: Row)
  {
    && subject in rows && rows[subject].status == Going && rows[subject].checkedBy == None
    && row == Row(Going, rows[subject].answeredBy, rows[subject].answeredAt, Some(actor))
  }

  predicate RequestRow(capacity: Option<nat>, rows: map<Id, Row>, request: Request, at: int, row: Row)
  {
    match request
    case Respond(actor, subject, going) => AnswerRow(capacity, rows, actor, subject, going, at, row)
    case Confirm(actor, subject) => ConfirmRow(capacity, rows, actor, subject, at, row)
    case CheckIn(actor, subject) => CheckInRow(rows, actor, subject, row)
  }

  lemma WrittenIff(capacity: Option<nat>, rows: map<Id, Row>, request: Request, at: int, row: Row)
    ensures Written(capacity, rows, request, at) == Some(row) <==> RequestRow(capacity, rows, request, at, row)
  {
    TakenCounts(rows);
    hide GoingSet, Taken;
  }

  lemma TakenCounts(rows: map<Id, Row>)
    ensures Taken(rows) == |GoingSet(rows)|
  {
    assert GoingSet(rows) == set u | u in rows && rows[u].status == Going;
  }

  /** In every run without erasures each commit writes the row that its request calls for, given the table it commits to. */
  lemma CommitWrites(event: Event, rows: map<Id, Row>, run: seq<Action>, t: nat)
    requires forall i :: 0 <= i < |run| ==> !run[i].Remove?
    requires var w := After(Start(event, rows), run); t in w.txs && w.txs[t].stage.Writing?
    ensures var w := After(Start(event, rows), run); var request := w.txs[t].request;
            && Step(w, Commit(t)).rows.Keys == w.rows.Keys + {request.subject}
            && (forall u :: u in w.rows && u != request.subject ==> Step(w, Commit(t)).rows[u] == w.rows[u])
            && RequestRow(event.capacity, w.rows, request, w.txs[t].stage.row.answeredAt, Step(w, Commit(t)).rows[request.subject])
  {
    CommitsAreAtomic(event, rows, run, t);
    hide After, Written, RequestRow, Full;
    var w := After(Start(event, rows), run);
    WrittenIff(event.capacity, w.rows, w.txs[t].request, w.txs[t].stage.row.answeredAt, w.txs[t].stage.row);
  }

  // ----- the program, one request at a time -----

  datatype Outcome = Redirected | Conflict | Forbidden | Failed

  class Store {
    const event: Event
    var active: bool
    var rows: map<Id, Row>

    constructor (event: Event)
      ensures this.event == event && active && rows == map[]
    {
      this.event, active, rows := event, true, map[];
    }

    /**
     * Respond inside WithinTx: the write is the last statement, and a failing commit undoes it. A Going answer gets a seat
     * exactly when the member has one, or the capacity is open, or a seat is free; otherwise it is put on the waitlist.
     */
    method Respond(actor: Id, subject: Id, going: bool, permitted: bool, now: int, commits: bool) returns (outcome: Outcome)
      modifies this`rows
      ensures outcome == Redirected <==>
              && active && permitted && now < event.endsAt && (event.deadline == None || now <= event.deadline.value) && commits
      ensures outcome == Forbidden <==> !permitted
      ensures outcome == Conflict <==>
              permitted && !(active && now < event.endsAt && (event.deadline == None || now <= event.deadline.value))
      ensures outcome == Redirected ==>
                subject in rows && AnswerRow(event.capacity, old(rows), actor, subject, going, now, rows[subject])
      ensures rows == if outcome == Redirected
                      then old(rows)[subject := Written(event.capacity, old(rows), Request.Respond(actor, subject, going), now).value]
                      else old(rows)
    {
      TakenCounts(rows);
      if !permitted { return Forbidden; }
      if !active { return Conflict; }
      if event.endsAt <= now { return Conflict; }
      if event.deadline.Some? && now > event.deadline.value { return Conflict; }
      var status := NotGoing;
      if going {
        status := Going;
        var alreadyGoing := subject in rows && rows[subject].status == Going;
        if event.capacity.Some? && !alreadyGoing {
          var count := |GoingSet(rows)|;
          if count >= event.capacity.value { status := Waitlisted; }
        }
      }
      if !commits { return Failed; }
      rows := rows[subject := Row(status, actor, now, None)];
      return Redirected;
    }

    /** staffAction. */
    method StaffAction(actor: Id, subject: Id, confirm: bool, permitted: bool, now: int, commits: bool) returns (outcome: Outcome)
      modifies this`rows
      ensures var request := if confirm then Request.Confirm(actor, subject) else Request.CheckIn(actor, subject);
              var row := Written(event.capacity, old(rows), request, now);
              && (outcome == Redirected <==> active && Admissible(event, request, permitted, now) && row.Some? && commits)
              && rows == (if outcome == Redirected then old(rows)[subject := row.value] else old(rows))
      ensures outcome == Forbidden <==> !permitted
      ensures outcome == Redirected <==>
              && active && permitted && commits && subject in old(rows)
              && (if confirm then
                    old(rows)[subject].status == Waitlisted && (event.capacity == None || Taken(old(rows)) < event.capacity.value)
                  else event.startsAt <= now && old(rows)[subject].status == Going && old(rows)[subject].checkedBy == None)
      ensures outcome == Redirected ==>
                && subject in rows
                && (if confirm then ConfirmRow(event.capacity, old(rows), actor, subject, now, rows[subject])
                    else CheckInRow(old(rows), actor, subject, rows[subject]))
    {
      TakenCounts(rows);
      if !permitted { return Forbidden; }
      if !active { return Conflict; }
      if confirm {
        if event.capacity.Some? {
          var count := |GoingSet(rows)|;
          if count >= event.capacity.value { return Conflict; }
        }
        if subject !in rows || rows[subject].status != Waitlisted { return Conflict; }
        if !commits { return Failed; }
        rows := rows[subject := rows[subject].(status := Going, answeredAt := now, answeredBy := actor)];
        return Redirected;
      }
      if now < event.startsAt { return Conflict; }
      if subject !in rows || rows[subject].status != Going || rows[subject].checkedBy.Some? { return Conflict; }
      if !commits { return Failed; }
      rows := rows[subject := rows[subject].(checkedBy := Some(actor))];
      return Redirected;
    }
  }

  /** Answering Going again keeps the seat but undoes a registered presence. */
  lemma AnsweringAgainUndoesCheckIn(capacity: Option<nat>, rows: map<Id, Row>, u: Id, at: int)
    requires HasStatus(rows, u, Going)
    ensures var row := Written(capacity, rows, Respond(u, u, true), at).value;
            row.status == Going && row.checkedBy == None
  {
  }

  // ----- counting -----

  lemma WriteCounts(rows: map<Id, Row>, u: Id, row: Row)
    ensures GoingSet(rows[u := row]) == (if row.status == Going then GoingSet(rows) - {u} + {u} else GoingSet(rows) - {u})
  {
  }

  lemma RemoveCounts(rows: map<Id, Row>, u: Id, v: Id)
    ensures GoingSet(rows - {u}) == GoingSet(rows) - {u}
    ensures |GoingSet(rows) - {u}| <= |GoingSet(rows)| && |GoingSet(rows - {u}) - {v}| <= |GoingSet(rows) - {v}|
  {
    Subset(GoingSet(rows) - {u}, GoingSet(rows));
    Subset(GoingSet(rows - {u}) - {v}, GoingSet(rows) - {v});
  }

  lemma Subset<T>(a: set<T>, b: set<T>)
    requires a <= b
    ensures |a| <= |b|
  {
    assert b == a + (b - a);
  }

  lemma OthersOfSeated(rows: map<Id, Row>, u: Id)
    ensures HasStatus(rows, u, Going) ==> |GoingSet(rows) - {u}| == |GoingSet(rows)| - 1
    ensures |GoingSet(rows) - {u}| <= |GoingSet(rows)|
  {
    Subset(GoingSet(rows) - {u}, GoingSet(rows));
  }

  // ----- every step keeps it -----

  lemma CommitKeeps(w: World, t: nat)
    requires Invariant(w) && t in w.txs && w.txs[t].stage.Writing?
    ensures Invariant(Commits(w, t))
  {
    hide HolderOk, KeepsSeat, WriteFits, GoingSet;
    var tx := w.txs[t];
    HolderSeat(w, t);
    WriteCounts(w.rows, tx.request.subject, tx.stage.row);
    OthersOfSeated(w.rows, tx.request.subject);
    hide HasStatus;
  }

  lemma HolderSeat(w: World, t: nat)
    requires Invariant(w) && t in w.txs && w.txs[t].stage.Writing?
    ensures w.lock == Some(t)
    ensures w.txs[t].stage.row.status == Going ==> SeatReserved(w.event, w.rows, w.txs[t].request.subject)
  {
    hide KeepsSeat, WriteFits, GoingSet, WithinCapacity, SeatReserved;
  }

  lemma RemoveHolder(event: Event, rows: map<Id, Row>, tx: Tx, u: Id)
    requires HolderOk(event, rows, tx) && !(tx.stage.Writing? && tx.request.subject == u)
    ensures HolderOk(event, rows - {u}, tx)
  {
    RemoveCounts(rows, u, tx.request.subject);
    hide GoingSet, WillSeat;
    assert forall v, status :: HasStatus(rows - {u}, v, status) == (v != u && HasStatus(rows, v, status));
    hide HasStatus;
  }

  lemma RemoveKeeps(w: World, u: Id)
    requires Invariant(w)
    ensures Invariant(Step(w, Remove(u)))
  {
    RemoveCounts(w.rows, u, u);
    hide GoingSet, HolderOk;
    if w.lock.Some? && !Writes(w, u) { RemoveHolder(w.event, w.rows, w.txs[w.lock.value], u); }
  }

  lemma CheckKeeps(w: World, t: nat, now: int, permitted: bool)
    requires Invariant(w)
    ensures Invariant(Checks(w, t, now, permitted))
  {
    hide GoingSet, SeatReserved, WithinCapacity, Full, Admissible, HasStatus;
  }

  lemma LookUpKeeps(w: World, t: nat)
    requires Invariant(w)
    ensures Invariant(LooksUp(w, t))
  {
    if t in w.txs { OthersOfSeated(w.rows, w.txs[t].request.subject); }
    hide GoingSet, Full, HasStatus;
  }

  lemma CountKeeps(w: World, t: nat)
    requires Invariant(w)
    ensures Invariant(Counts(w, t))
  {
    if t in w.txs { OthersOfSeated(w.rows, w.txs[t].request.subject); }
    hide GoingSet, HasStatus;
  }

  lemma SaveKeeps(w: World, t: nat, at: int)
    requires Invariant(w)
    ensures Invariant(Saves(w, t, at))
  {
    hide GoingSet;
    if t in w.txs && !w.txs[t].stage.Waiting? {
      OthersOfSeated(w.rows, w.txs[t].request.subject);
    }
  }

  lemma StepKeeps(w: World, a: Action)
    requires Invariant(w)
    ensures Invariant(Step(w, a)) && Step(w, a).event == w.event
  {
    match a
    case Commit(t) => if t in w.txs && w.txs[t].stage.Writing? { CommitKeeps(w, t); }
    case Remove(u) => RemoveKeeps(w, u);
    case Save(t, at) => SaveKeeps(w, t, at);
    case Check(t, now, permitted) => CheckKeeps(w, t, now, permitted);
    case LookUp(t) => LookUpKeeps(w, t);
    case Count(t) => CountKeeps(w, t);
    case _ => hide GoingSet, SeatReserved, KeepsSeat, WriteFits, WillSeat, WithinCapacity;
  }

  // ----- who gives and takes a seat -----

  lemma SeatGiven(w: World, a: Action, u: Id)
    requires Invariant(w) && u !in GoingSet(w.rows) && u in GoingSet(Step(w, a).rows)
    ensures a.Commit? && a.t in w.txs && w.txs[a.t].request.subject == u
    ensures (w.txs[a.t].request.Respond? && w.txs[a.t].request.going)
            || (w.txs[a.t].request.Confirm? && HasStatus(w.rows, u, Waitlisted))
  {
    hide KeepsSeat, SeatReserved, WithinCapacity, WillSeat, Full, Admissible;
    RowsMove(w, a);
  }

  /** Only a commit or an erasure changes the committed table. */
  lemma RowsMove(w: World, a: Action)
    ensures !a.Commit? && !a.Remove? ==> Step(w, a).rows == w.rows
  {
    hide Admissible, Full, HasStatus;
  }

  lemma SeatTaken(w: World, a: Action, u: Id)
    requires Invariant(w) && u in GoingSet(w.rows) && u !in GoingSet(Step(w, a).rows)
    ensures a == Remove(u) ||
            (a.Commit? && a.t in w.txs && w.txs[a.t].request.Respond? && w.txs[a.t].request.subject == u && !w.txs[a.t].request.going)
  {
    hide SeatReserved, WithinCapacity, WillSeat, Full, Admissible;
    RowsMove(w, a);
  }

  // ----- who is put on the waitlist -----

  lemma NothingUnderWay(event: Event, rows: map<Id, Row>)
    ensures After(Start(event, rows), []).txs == map[]
  {
  }

  lemma HoldsLock(w: World, t: nat)
    requires Exclusive(w) && t in w.txs && Waitlisting(w.txs[t])
    ensures w.lock == Some(t)
  {
  }

  lemma LongerCount(event: Event, rows: map<Id, Row>, run: seq<Action>, i: nat, t: nat)
    requires run != [] && CountedFull(event, rows, run[..|run| - 1], i, t)
    requires After(Start(event, rows), run).lock == Some(t)
    ensures CountedFull(event, rows, run, i, t)
  {
    hide After, Full;
    var rest := run[..|run| - 1];
    assert rest[..i] == run[..i];
    forall j | i < j <= |run| ensures After(Start(event, rows), run[..j]).lock == Some(t) {
      if j < |run| { assert rest[..j] == run[..j]; } else { assert run[..j] == run; }
    }
  }

  lemma WaitlistStep(w: World, a: Action, t: nat)
    requires Invariant(w) && t in Step(w, a).txs && Waitlisting(Step(w, a).txs[t])
    ensures (t in w.txs && Waitlisting(w.txs[t])) || (a == Count(t) && Full(w.event.capacity, w.rows))
  {
    hide Admissible, GoingSet, SeatReserved, KeepsSeat, WithinCapacity, WillSeat;
  }

  // ----- what the holder has read stays so -----

  lemma CheckKeepsSerial(w: World, t: nat, now: int, permitted: bool)
    requires Serial(w)
    ensures Serial(Checks(w, t, now, permitted))
  {
    hide GoingSet, Admissible, Full, HasStatus, Written;
  }

  lemma LookUpKeepsSerial(w: World, t: nat)
    requires Serial(w)
    ensures Serial(LooksUp(w, t))
  {
    hide GoingSet, Admissible, Full, HasStatus, Written, Choice;
  }

  lemma CountKeepsSerial(w: World, t: nat)
    requires Serial(w)
    ensures Serial(Counts(w, t))
  {
    hide GoingSet, Admissible, Full, HasStatus, Written;
  }

  lemma SaveKeepsSerial(w: World, t: nat, at: int)
    requires Serial(w)
    ensures Serial(Saves(w, t, at))
  {
    hide GoingSet, Admissible, Full, Choice;
  }

  lemma StepKeepsSerial(w: World, a: Action)
    requires Serial(w) && !a.Remove?
    ensures Serial(Step(w, a)) && Step(w, a).event == w.event
  {
    hide GoingSet, Admissible, Full, HasStatus, Written, Choice;
    match a
    case Save(t, at) => SaveKeepsSerial(w, t, at);
    case Count(t) => CountKeepsSerial(w, t);
    case LookUp(t) => LookUpKeepsSerial(w, t);
    case Check(t, now, permitted) => CheckKeepsSerial(w, t, now, permitted);
    case _ =>
  }

  lemma {:induction false} SerialAlways(event: Event, rows: map<Id, Row>, run: seq<Action>)
    requires forall i :: 0 <= i < |run| ==> !run[i].Remove?
    ensures Serial(After(Start(event, rows), run)) && After(Start(event, rows), run).event == event
    decreases |run|
  {
    hide Step;
    if run != [] {
      SerialAlways(event, rows, run[..|run| - 1]);
      StepKeepsSerial(After(Start(event, rows), run[..|run| - 1]), run[|run| - 1]);
    }
  }
}
