/** The email outbox worker: claims, sends, completions, retries with capped backoff, and expiry. */
module EmailOutbox {

  // ----- backoff, in seconds -----

  const MaxAttempts := 10
  const StaleAfter := 300

  function Pow2(n: nat): (p: nat)
    ensures p >= 1
  {
    if n == 0 then 1 else 2 * Pow2(n - 1)
  }

  /** Half a minute, doubled for every attempt after the first, at most an hour. */
  function Delay(attempt: int): (seconds: nat)
    ensures 30 <= seconds <= 3600
  {
    if attempt <= 1 then 30
    else if 30 * Pow2(attempt - 1) > 3600 then 3600 else 30 * Pow2(attempt - 1)
  }

  lemma {:induction false} Pow2Ascends(m: nat, n: nat)
    requires m <= n
    ensures Pow2(m) <= Pow2(n)
    decreases n
  {
    if m < n { Pow2Ascends(m, n - 1); }
  }

  /** retryDelay: the loop may stop doubling early, but never below the cap. */
  method RetryDelay(attempt: int) returns (seconds: int)
    ensures seconds == Delay(attempt)
  {
    var delay := 30;
    var i := 1;
    while i < attempt && delay < 3600
      invariant 1 <= i && (i <= attempt || i == 1)
      invariant delay == 30 * Pow2(i - 1)
    {
      delay := delay * 2;
      i := i + 1;
    }
    if attempt >= 1 { Pow2Ascends(i - 1, attempt - 1); }
    return if delay > 3600 then 3600 else delay;
  }

  lemma DelayAscends(m: int, n: int)
    requires m <= n
    ensures Delay(m) <= Delay(n)
  {
    if m > 1 { Pow2Ascends(m - 1, n - 1); }
  }

  /** The backoff of the attempts 1 to k that are in s. */
  function Budget(s: set<int>, k: nat): nat { if k == 0 then 0 else Budget(s, k - 1) + (if k in s then Delay(k) else 0) }

  lemma {:induction false} BudgetAdds(s: set<int>, n: int, k: nat)
    requires n !in s
    ensures Budget(s + {n}, k) == Budget(s, k) + (if 1 <= n <= k then Delay(n) else 0)
  {
    if k > 0 { BudgetAdds(s, n, k - 1); }
  }

  /** However many attempts are rescheduled, the backoff of one message stays within 11010 seconds. */
  lemma {:induction false} BudgetBound(s: set<int>, k: nat)
    requires k <= MaxAttempts - 1
    ensures Budget(s, k) <= (if k <= 7 then 30 * Pow2(k) - 30 else 3810 + 3600 * (k - 7))
  {
    if k > 0 {
      BudgetBound(s, k - 1);
      SmallPowers();
      if k > 7 { Pow2Ascends(7, k - 1); }
    }
  }

  lemma SmallPowers()
    ensures Pow2(3) == 8 && Pow2(6) == 64 && Pow2(7) == 128
  {
    assert Pow2(2) == 4;
    assert Pow2(3) == 8;
    assert Pow2(4) == 16;
    assert Pow2(5) == 32;
    assert Pow2(6) == 64;
  }

  // ----- messages -----

  datatype Status = Pending | Sending | Sent | Failed | Cancelled

  /** rescheduled and backoff record which attempts were put back and for how long in all; nothing reads them. */
  datatype Item = Item(
    token: bool, expiresAt: int, createdAt: int, status: Status, attempts: nat, claimedAt: int, nextAt: int,
    rescheduled: set<int>, backoff: nat)

  datatype Result = Delivered | Temporary | Permanent

  datatype Update = Complete | Fail | Retry(at: int)

  /** What deliver decides from the attempt it claimed, the clock before the send, and the result of the send. */
  function Verdict(item: Item, attempt: nat, now: int, result: Result): Update
  {
    if result == Delivered then Complete
    else if result == Permanent || attempt >= MaxAttempts || (item.token && item.expiresAt <= now + Delay(attempt)) then Fail
    else Retry(now + Delay(attempt))
  }

  /** Pending and due, or claimed long ago; a token must not have expired. */
  predicate Claimable(item: Item, at: int)
  {
    && ((item.status == Pending && item.nextAt <= at) || (item.status == Sending && item.claimedAt < at - StaleAfter))
    && (item.token ==> item.expiresAt > at)
  }

  function Claimed(item: Item, at: int): Item { item.(status := Sending, attempts := item.attempts + 1, claimedAt := at) }

  /** Every update is guarded by the status. */
  function Updated(item: Item, attempt: nat, update: Update): Item
  {
    if item.status != Sending then item
    else
      match update
      case Complete => item.(status := Sent)
      case Fail => item.(status := Failed)
      case Retry(at) =>
        item.(status := Pending, nextAt := at, rescheduled := item.rescheduled + {attempt}, backoff := item.backoff + Delay(attempt))
  }

  predicate Final(item: Item) { item.status in {Sent, Failed, Cancelled} }

  // ----- many workers -----

  /** A claim being worked on; claimedAt is the clock reading its claim was made with. */
  datatype Job =
    | Held(id: nat, attempt: nat, claimedAt: int)
    | Timed(id: nat, attempt: nat, claimedAt: int, now: int)
    | Settling(id: nat, attempt: nat, claimedAt: int, update: Update)

  datatype World = World(clock: int, items: map<nat, Item>, jobs: map<nat, Job>)

  /** A worker claims with a reading of the clock taken before; a crash, or a failing update, just drops the job. */
  datatype Action =
    | Tick(to: int)
    | Enqueue(id: nat, item: Item)
    | Claim(worker: nat, id: nat, at: int)
    | ReadClock(worker: nat)
    | Send(worker: nat, result: Result)
    | Settle(worker: nat)
    | Crash(worker: nat)
    | Cancel(id: nat)

  predicate Unclaimed(item: Item) { item.status == Pending && item.attempts == 0 && item.rescheduled == {} && item.backoff == 0 }

  function Step(w: World, a: Action): World
  {
    match a
    case Tick(to) => if to >= w.clock then w.(clock := to) else w
    case Enqueue(id, item) => if id !in w.items && Unclaimed(item) then w.(items := w.items[id := item]) else w
    case Claim(worker, id, at) =>
      if worker !in w.jobs && id in w.items && at <= w.clock && Claimable(w.items[id], at)
      then w.(items := w.items[id := Claimed(w.items[id], at)],
              jobs := w.jobs[worker := Held(id, w.items[id].attempts + 1, at)])
      else w
    case ReadClock(worker) =>
      if worker in w.jobs && w.jobs[worker].Held?
      then w.(jobs := w.jobs[worker := Timed(w.jobs[worker].id, w.jobs[worker].attempt, w.jobs[worker].claimedAt, w.clock)])
      else w
    case Send(worker, result) =>
      if worker in w.jobs && w.jobs[worker].Timed? && w.jobs[worker].id in w.items then
        var j := w.jobs[worker];
        w.(jobs := w.jobs[worker := Settling(j.id, j.attempt, j.claimedAt, Verdict(w.items[j.id], j.attempt, j.now, result))])
      else w
    case Settle(worker) =>
      if worker in w.jobs && w.jobs[worker].Settling? && w.jobs[worker].id in w.items then
        var j := w.jobs[worker];
        w.(items := w.items[j.id := Updated(w.items[j.id], j.attempt, j.update)], jobs := w.jobs - {worker})
      else w
    case Crash(worker) => w.(jobs := w.jobs - {worker})
    case Cancel(id) =>
      if id in w.items && !Final(w.items[id]) then w.(items := w.items[id := w.items[id].(status := Cancelled)]) else w
  }

  function After(w: World, run: seq<Action>): World
    decreases |run|
  {
    if run == [] then w else Step(After(w, run[..|run| - 1]), run[|run| - 1])
  }

  predicate Blank(w: World) { w.jobs == map[] && forall id :: id in w.items ==> Unclaimed(w.items[id]) }

  // ----- bookkeeping that holds however slow the workers are -----

  predicate ItemOk(item: Item)
  {
    && (forall n :: n in item.rescheduled ==> 1 <= n < MaxAttempts && n <= item.attempts)
    && item.backoff == Budget(item.rescheduled, MaxAttempts - 1)
    && (item.token && item.status == Pending && item.attempts > 0 ==> item.nextAt < item.expiresAt)
  }

  predicate JobOk(items: map<nat, Item>, j: Job)
  {
    && j.id in items && 1 <= j.attempt <= items[j.id].attempts && j.attempt !in items[j.id].rescheduled
    && (j.Settling? && j.update.Retry? ==> j.attempt < MaxAttempts && (items[j.id].token ==> j.update.at < items[j.id].expiresAt))
  }

  predicate Books(w: World)
  {
    && (forall id :: id in w.items ==> ItemOk(w.items[id]))
    && (forall k :: k in w.jobs ==> JobOk(w.items, w.jobs[k]))
    && (forall k, l :: k in w.jobs && l in w.jobs && k != l && w.jobs[k].id == w.jobs[l].id ==> w.jobs[k].attempt != w.jobs[l].attempt)
  }

  lemma ClaimKeepsBooks(w: World, a: Action)
    requires Books(w) && a.Claim?
    ensures Books(Step(w, a))
  {
    hide Budget;
  }

  lemma SettleItem(item: Item, j: Job)
    requires ItemOk(item) && j.Settling? && 1 <= j.attempt <= item.attempts && j.attempt !in item.rescheduled
    requires j.update.Retry? ==> j.attempt < MaxAttempts && (item.token ==> j.update.at < item.expiresAt)
    ensures var t := Updated(item, j.attempt, j.update);
            && ItemOk(t) && t.rescheduled <= item.rescheduled + {j.attempt} && t.attempts == item.attempts
            && t.token == item.token && t.expiresAt == item.expiresAt
  {
    BudgetAdds(item.rescheduled, j.attempt, MaxAttempts - 1);
    hide Budget, Delay;
  }

  lemma SettleKeepsBooks(w: World, a: Action)
    requires Books(w) && a.Settle?
    ensures Books(Step(w, a))
  {
    if a.worker in w.jobs && w.jobs[a.worker].Settling? {
      assert JobOk(w.items, w.jobs[a.worker]);
      SettleItem(w.items[w.jobs[a.worker].id], w.jobs[a.worker]);
    }
    hide Budget, Updated, ItemOk;
  }

  lemma SendKeepsBooks(w: World, a: Action)
    requires Books(w) && a.Send?
    ensures Books(Step(w, a))
  {
    hide Budget, ItemOk, Delay;
  }

  lemma StepKeepsBooks(w: World, a: Action)
    requires Books(w)
    ensures Books(Step(w, a))
  {
    match a
    case Claim(worker, id, at) => ClaimKeepsBooks(w, a);
    case Settle(worker) => SettleKeepsBooks(w, a);
    case Send(worker, result) => SendKeepsBooks(w, a);
    case Enqueue(id, item) =>
      EmptyBudget(MaxAttempts - 1);
      hide Budget;
    case _ => hide Budget;
  }

  lemma {:induction false} EmptyBudget(k: nat)
    ensures Budget({}, k) == 0
  {
    if k > 0 { EmptyBudget(k - 1); }
  }

  lemma {:induction false} BooksAlways(w: World, run: seq<Action>)
    requires Blank(w)
    ensures Books(After(w, run))
    decreases |run|
  {
    if run == [] {
      EmptyBudget(MaxAttempts - 1);
      hide Budget;
    } else {
      hide Step, Books;
      BooksAlways(w, run[..|run| - 1]);
      StepKeepsBooks(After(w, run[..|run| - 1]), run[|run| - 1]);
    }
  }

  /**
   * In every run, with any number of overlapping, slow or crashing workers: a token message is never put back to a time
   * at or after its expiry, no attempt is put back twice, and the backoff of a message never exceeds 11010 seconds.
   */
  lemma BackoffAndExpiry(w: World, run: seq<Action>, id: nat)
    requires Blank(w) && id in After(w, run).items
    ensures var item := After(w, run).items[id];
            && (item.token && item.status == Pending && item.attempts > 0 ==> item.nextAt < item.expiresAt)
            && (forall n :: n in item.rescheduled ==> 1 <= n < MaxAttempts)
            && item.backoff == Budget(item.rescheduled, MaxAttempts - 1) <= 11010
  {
    BooksAlways(w, run);
    hide Books, After;
    assert ItemOk(After(w, run).items[id]) by { OneItem(After(w, run), id); }
    BudgetBound(After(w, run).items[id].rescheduled, MaxAttempts - 1);
    hide Budget;
  }

  lemma OneItem(w: World, id: nat)
    requires Books(w) && id in w.items
    ensures ItemOk(w.items[id])
  {
  }

  // ----- sending after the end -----

  /** A send or an update happens no later than bound seconds after the claim it belongs to. */
  predicate OnTime(w: World, a: Action, bound: nat)
  {
    (a.Send? || a.Settle?) && a.worker in w.jobs ==> w.clock <= w.jobs[a.worker].claimedAt + bound
  }

  predicate Timely(w: World, run: seq<Action>, bound: nat)
    decreases |run|
  {
    run == [] || (Timely(w, run[..|run| - 1], bound) && OnTime(After(w, run[..|run| - 1]), run[|run| - 1], bound))
  }

  /** The action sends a message that was completed or failed before. */
  predicate SendsAfterEnd(w: World, a: Action)
  {
    && a.Send? && a.worker in w.jobs && w.jobs[a.worker].Timed? && w.jobs[a.worker].id in w.items
    && w.items[w.jobs[a.worker].id].status in {Sent, Failed}
  }

  /** With deliveries bounded so, no run ever sends a message after its end. */
  ghost predicate SafeFor(bound: nat)
  {
    forall w, run, a :: Blank(w) && Timely(w, run, bound) && OnTime(After(w, run), a, bound) ==> !SendsAfterEnd(After(w, run), a)
  }

  predicate Live(w: World, j: Job) { w.clock <= j.claimedAt + StaleAfter }

  /** A claim that is not stale owns its message. */
  predicate Owned(w: World)
  {
    && (forall k :: k in w.jobs && Live(w, w.jobs[k]) ==>
          && w.jobs[k].id in w.items && w.items[w.jobs[k].id].status in {Sending, Cancelled}
          && (w.items[w.jobs[k].id].status == Sending ==> w.items[w.jobs[k].id].claimedAt == w.jobs[k].claimedAt))
    && (forall k, l :: k in w.jobs && l in w.jobs && k != l && Live(w, w.jobs[k]) && Live(w, w.jobs[l]) ==> w.jobs[k].id != w.jobs[l].id)
  }

  lemma StepKeepsOwned(w: World, a: Action, bound: nat)
    requires Owned(w) && OnTime(w, a, bound) && bound <= StaleAfter
    ensures Owned(Step(w, a))
  {
    hide Verdict, Delay;
  }

  lemma {:induction false} OwnedAlways(w: World, run: seq<Action>, bound: nat)
    requires Blank(w) && Timely(w, run, bound) && bound <= StaleAfter
    ensures Owned(After(w, run))
    decreases |run|
  {
    if run != [] {
      hide Step, Owned, OnTime;
      OwnedAlways(w, run[..|run| - 1], bound);
      StepKeepsOwned(After(w, run[..|run| - 1]), run[|run| - 1], bound);
    }
  }

  /**
   * No message is sent after it was completed or failed, whatever the number of workers, exactly when no delivery
   * outlasts the five minutes after which a claim counts as stale.
   */
  lemma NoSendAfterEndIff(bound: nat)
    ensures SafeFor(bound) <==> bound <= StaleAfter
  {
    if bound <= StaleAfter {
      forall w, run, a | Blank(w) && Timely(w, run, bound) && OnTime(After(w, run), a, bound) ensures !SendsAfterEnd(After(w, run), a) {
        OwnedAlways(w, run, bound);
        hide After, Timely, Blank;
      }
    } else {
      var w, run, a := SlowDelivery(bound);
      hide After, Timely, Blank, OnTime, SendsAfterEnd;
    }
  }

  /** A timely run leads from the one world to the other. */
  ghost predicate Leads(w: World, run: seq<Action>, v: World, bound: nat) { Timely(w, run, bound) && After(w, run) == v }

  lemma Extend(w: World, run: seq<Action>, v: World, a: Action, bound: nat)
    requires Leads(w, run, v, bound) && OnTime(v, a, bound)
    ensures Leads(w, run + [a], Step(v, a), bound)
  {
    assert (run + [a])[..|run + [a]| - 1] == run;
  }

  const Fresh := Item(false, 0, 0, Pending, 0, 0, 0, {}, 0)
  const Taken := Item(false, 0, 0, Sending, 1, 0, 0, {}, 0)
  const Retaken := Item(false, 0, 0, Sending, 2, StaleAfter + 1, 0, {}, 0)
  const First := Timed(0, 1, 0, 0)

  lemma FirstWorkerStalls(bound: nat) returns (run: seq<Action>)
    ensures Leads(World(0, map[0 := Fresh], map[]), run, World(StaleAfter + 1, map[0 := Taken], map[0 := First]), bound)
  {
    var w := World(0, map[0 := Fresh], map[]);
    run := [];
    assert Leads(w, run, w, bound);
    hide Leads;
    var v1 := World(0, map[0 := Taken], map[0 := Held(0, 1, 0)]);
    Extend(w, run, w, Claim(0, 0, 0), bound);
    assert Step(w, Claim(0, 0, 0)) == v1;
    run := run + [Claim(0, 0, 0)];
    var v2 := World(0, map[0 := Taken], map[0 := First]);
    Extend(w, run, v1, ReadClock(0), bound);
    assert Step(v1, ReadClock(0)) == v2;
    run := run + [ReadClock(0)];
    Extend(w, run, v2, Tick(StaleAfter + 1), bound);
    run := run + [Tick(StaleAfter + 1)];
  }

  lemma SecondWorkerFinishes(w: World, before: seq<Action>, bound: nat) returns (run: seq<Action>)
    requires Leads(w, before, World(StaleAfter + 1, map[0 := Taken], map[0 := First]), bound)
    ensures Leads(w, run, World(StaleAfter + 1, map[0 := Retaken.(status := Sent)], map[0 := First]), bound)
  {
    hide Leads, Delay;
    var late := StaleAfter + 1;
    run := before;
    var v0 := World(late, map[0 := Taken], map[0 := First]);
    var v1 := World(late, map[0 := Retaken], map[0 := First, 1 := Held(0, 2, late)]);
    Extend(w, run, v0, Claim(1, 0, late), bound);
    assert Step(v0, Claim(1, 0, late)) == v1;
    run := run + [Claim(1, 0, late)];
    var v2 := World(late, map[0 := Retaken], map[0 := First, 1 := Timed(0, 2, late, late)]);
    Extend(w, run, v1, ReadClock(1), bound);
    assert Step(v1, ReadClock(1)) == v2;
    run := run + [ReadClock(1)];
    var v3 := World(late, map[0 := Retaken], map[0 := First, 1 := Settling(0, 2, late, Complete)]);
    Extend(w, run, v2, Send(1, Delivered), bound);
    assert Step(v2, Send(1, Delivered)) == v3;
    run := run + [Send(1, Delivered)];
    Extend(w, run, v3, Settle(1), bound);
    assert Step(v3, Settle(1)) == World(late, map[0 := Retaken.(status := Sent)], map[0 := First]);
    run := run + [Settle(1)];
  }

  /** One worker is still sending when another finds its claim stale, claims again, sends and completes. */
  lemma SlowDelivery(bound: nat) returns (w: World, run: seq<Action>, a: Action)
    requires bound > StaleAfter
    ensures Blank(w) && Timely(w, run, bound) && OnTime(After(w, run), a, bound) && SendsAfterEnd(After(w, run), a)
  {
    w := World(0, map[0 := Fresh], map[]);
    run := FirstWorkerStalls(bound);
    run := SecondWorkerFinishes(w, run, bound);
    a := Send(0, Delivered);
  }

  // ----- what a delivery leaves, field by field -----

  /** 30 seconds for the first attempt, doubled for each further one, at most an hour. */
  function Wait(attempt: nat): nat
  {
    var doubled := 30 * Pow2(if attempt == 0 then 0 else attempt - 1);
    if doubled < 3600 then doubled else 3600
  }

  lemma WaitTable()
    ensures Wait(1) == 30 && Wait(2) == 60 && Wait(3) == 120 && Wait(4) == 240
    ensures Wait(5) == 480 && Wait(6) == 960 && Wait(7) == 1920
    ensures forall n: nat :: n >= 8 ==> Wait(n) == 3600
  {
    SmallPowers();
    assert Pow2(1) == 2 && Pow2(2) == 4 && Pow2(4) == 16 && Pow2(5) == 32;
    forall n: nat | n >= 8 ensures Wait(n) == 3600 { Pow2Ascends(7, n - 1); }
  }

  /** After a temporary failure another attempt is out of the question. */
  predicate GivenUp(item: Item, attempt: nat, now: int)
  {
    attempt >= 10 || (item.token && item.expiresAt <= now + Wait(attempt))
  }

  /**
   * t is the message item, which was being sent, once the result of the attempt is stored: sent exactly after a delivery,
   * failed exactly after a permanent failure or a temporary one that is given up, else due again after the wait.
   */
  predicate StoredAs(item: Item, attempt: nat, now: int, result: Result, t: Item)
  {
    && (t.status == Sent <==> result == Delivered)
    && (t.status == Failed <==> result == Permanent || (result == Temporary && GivenUp(item, attempt, now)))
    && (t.status == Pending <==> result == Temporary && !GivenUp(item, attempt, now))
    && (t.status == Pending ==> t.nextAt == now + Wait(attempt) && t.rescheduled == item.rescheduled + {attempt})
    && (t.status != Pending ==> t.nextAt == item.nextAt && t.rescheduled == item.rescheduled)
    && t.token == item.token && t.expiresAt == item.expiresAt && t.createdAt == item.createdAt
    && t.attempts == item.attempts && t.claimedAt == item.claimedAt
  }

  lemma WaitIsDelay(attempt: nat)
    ensures Wait(attempt) == Delay(attempt)
  {
  }

  lemma DeliveryStores(item: Item, attempt: nat, now: int, result: Result)
    requires item.status == Sending
    ensures StoredAs(item, attempt, now, result, Updated(item, attempt, Verdict(item, attempt, now, result)))
  {
    WaitIsDelay(attempt);
    hide Wait, Delay;
  }

  /** Nothing of the message that a delivery looks at ever changes. */
  predicate SameMessage(a: Item, b: Item) { a.token == b.token && a.expiresAt == b.expiresAt }

  predicate OfWorker(a: Action, k: nat) { (a.Claim? || a.ReadClock? || a.Send? || a.Settle? || a.Crash?) && a.worker == k }

  /** Whatever the others do, a worker's job waits for it, and messages keep their token and their expiry. */
  lemma {:induction false} JobWaits(w: World, k: nat, between: seq<Action>, id: nat)
    requires k in w.jobs && id in w.items && forall i :: 0 <= i < |between| ==> !OfWorker(between[i], k)
    ensures var u := After(w, between); k in u.jobs && u.jobs[k] == w.jobs[k] && id in u.items && SameMessage(u.items[id], w.items[id])
    decreases |between|
  {
    if between != [] {
      JobWaits(w, k, between[..|between| - 1], id);
      hide Verdict, Delay, Claimable, After;
    }
  }

  /**
   * A send and the update that follows it, whatever other workers do in between: the message is left alone if it is no
   * longer being sent, and otherwise stored as the result of this worker's attempt says.
   */
  lemma SendThenSettle(w: World, k: nat, result: Result, between: seq<Action>)
    requires k in w.jobs && w.jobs[k].Timed? && w.jobs[k].id in w.items
    requires forall i :: 0 <= i < |between| ==> !OfWorker(between[i], k)
    ensures var id := w.jobs[k].id; var u := After(Step(w, Send(k, result)), between); var v := Step(u, Settle(k));
            && id in u.items && v.items.Keys == u.items.Keys && v.jobs == u.jobs - {k}
            && (forall other :: other in u.items && other != id ==> v.items[other] == u.items[other])
            && (if u.items[id].status != Sending then v.items[id] == u.items[id]
                else StoredAs(u.items[id], w.jobs[k].attempt, w.jobs[k].now, result, v.items[id]))
  {
    var job, id := w.jobs[k], w.jobs[k].id;
    var s := Step(w, Send(k, result));
    JobWaits(s, k, between, id);
    var u := After(s, between);
    assert s.jobs[k] == Settling(id, job.attempt, job.claimedAt, Verdict(w.items[id], job.attempt, job.now, result));
    SameVerdict(w.items[id], u.items[id], job.attempt, job.now, result);
    hide After, Verdict, Updated, StoredAs, Wait, Delay;
    if u.items[id].status == Sending { DeliveryStores(u.items[id], job.attempt, job.now, result); } else { NotSending(u.items[id], job.attempt, s.jobs[k].update); }
  }

  lemma SameVerdict(a: Item, b: Item, attempt: nat, now: int, result: Result)
    requires SameMessage(b, a)
    ensures Verdict(a, attempt, now, result) == Verdict(b, attempt, now, result)
  {
    hide Delay;
  }

  lemma NotSending(item: Item, attempt: nat, update: Update)
    requires item.status != Sending
    ensures Updated(item, attempt, update) == item
  {
  }

  // ----- one drain -----

  /** What is left to do at most: a message takes at most its remaining attempts and one more claim. */
  function Weight(item: Item): nat
  {
    if Final(item) then 0 else (if item.attempts < MaxAttempts then MaxAttempts - item.attempts else 0) + 1
  }

  function Work(items: seq<Item>): nat
    decreases |items|
  {
    if items == [] then 0 else Work(items[..|items| - 1]) + Weight(items[|items| - 1])
  }

  lemma {:induction false} WorkDecreases(items: seq<Item>, i: nat, item: Item)
    requires i < |items| && Weight(item) < Weight(items[i])
    ensures Work(items[i := item]) < Work(items)
    decreases |items|
  {
    hide Weight;
    var last := |items| - 1;
    assert items[i := item][..last] == (if i == last then items[..last] else items[..last][i := item]);
    if i < last { WorkDecreases(items[..last], i, item); }
  }

  predicate Earlier(a: Item, b: Item) { a.nextAt < b.nextAt || (a.nextAt == b.nextAt && a.createdAt <= b.createdAt) }

  predicate Candidate(item: Item, at: int, token: bool) { item.token == token && Claimable(item, at) }

  /** One worker alone on a table of messages, ordered by identifier; fit is the recipient check of the claim queries. */
  class Outbox {
    var items: seq<Item>
    const fit: (nat, int) -> bool

    constructor (items: seq<Item>, fit: (nat, int) -> bool)
      ensures this.items == items && this.fit == fit
    {
      this.items, this.fit := items, fit;
    }

    /** ClaimTokenEmailOutbox and ClaimEmailOutbox: the first due candidate in the order of the query. */
    method ClaimNext(at: int, token: bool) returns (found: bool, i: nat)
      modifies this`items
      ensures |items| == |old(items)|
      ensures !found ==> items == old(items) && forall k :: 0 <= k < |items| ==> !(Candidate(items[k], at, token) && fit(k, at))
      ensures found ==>
                && i < |items| && Candidate(old(items)[i], at, token) && fit(i, at)
                && items == old(items)[i := Claimed(old(items)[i], at)]
                && forall k :: 0 <= k < |items| && Candidate(old(items)[k], at, token) && fit(k, at) ==>
                     Earlier(old(items)[i], old(items)[k])
      ensures found ==>
                var o := old(items)[i];
                && o.token == token && (token ==> at < o.expiresAt)
                && ((o.status == Pending && o.nextAt <= at) || (o.status == Sending && o.claimedAt + 300 < at))
                && items[i] == o.(status := Sending, attempts := o.attempts + 1, claimedAt := at)
      ensures forall k :: 0 <= k < |items| && fit(k, at) ==>
                var x := old(items)[k];
                x.token == token && (token ==> at < x.expiresAt)
                && ((x.status == Pending && x.nextAt <= at) || (x.status == Sending && x.claimedAt + 300 < at)) ==>
                  found && (old(items)[i].nextAt < x.nextAt
                            || (old(items)[i].nextAt == x.nextAt && old(items)[i].createdAt <= x.createdAt))
    {
      found, i := false, 0;
      var k := 0;
      while k < |items|
        invariant k <= |items| && items == old(items)
        invariant found ==> i < k && Candidate(items[i], at, token) && fit(i, at)
        invariant forall l :: 0 <= l < k && Candidate(items[l], at, token) && fit(l, at) ==> found && Earlier(items[i], items[l])
      {
        if Candidate(items[k], at, token) && fit(k, at) && (!found || !Earlier(items[i], items[k])) {
          found, i := true, k;
        }
        k := k + 1;
      }
      if found { items := items[i := Claimed(items[i], at)]; }
    }

    /** deliver, with a working store. */
    method Deliver(i: nat, now: int, result: Result)
      requires i < |items| && items[i].status == Sending
      modifies this`items
      ensures items == old(items)[i := Updated(old(items)[i], old(items)[i].attempts, Verdict(old(items)[i], old(items)[i].attempts, now, result))]
      ensures |items| == |old(items)| && (forall k :: 0 <= k < |items| && k != i ==> items[k] == old(items)[k])
      ensures StoredAs(old(items)[i], old(items)[i].attempts, now, result, items[i])
    {
      DeliveryStores(items[i], items[i].attempts, now, result);
      hide StoredAs, Wait;
      var item := items[i];
      if result == Delivered {
        items := items[i := item.(status := Sent)];
        return;
      }
      var delay := RetryDelay(item.attempts);
      var expired := item.token && !(item.expiresAt > now + delay);
      if result == Permanent || item.attempts >= MaxAttempts || expired {
        items := items[i := item.(status := Failed)];
        return;
      }
      items := items[i := item.(status := Pending, nextAt := now + delay,
                                rescheduled := item.rescheduled + {item.attempts}, backoff := item.backoff + delay)];
    }

    /**
     * drain ends after finitely many claims whatever the clock reads, as long as updates succeed. It ends with nothing
     * claimable at its last reading, and leaves every message that had ended as it was.
     */
    method Drain(clock: nat -> int, result: nat -> Result) returns (claims: nat, at: int)
      modifies this`items
      ensures |items| == |old(items)| && claims <= Work(old(items))
      ensures forall k :: 0 <= k < |items| ==> !(Claimable(items[k], at) && fit(k, at))
      ensures forall k :: 0 <= k < |items| && Final(old(items)[k]) ==> items[k] == old(items)[k]
    {
      claims := 0;
      at := clock(0);
      while true
        invariant |items| == |old(items)| && claims + Work(items) <= Work(old(items))
        invariant forall k :: 0 <= k < |items| && Final(old(items)[k]) ==> items[k] == old(items)[k]
        decreases Work(items)
      {
        ghost var before := items;
        var found, i := ClaimNext(at, true);
        if !found {
          found, i := ClaimNext(at, false);
          if !found { return; }
        }
        Deliver(i, clock(2 * claims + 1), result(claims));
        Progress(before[i], at, clock(2 * claims + 1), result(claims));
        assert items == before[i := items[i]];
        WorkDecreases(before, i, items[i]);
        claims := claims + 1;
        at := clock(2 * claims);
      }
    }
  }

  lemma Progress(item: Item, at: int, now: int, result: Result)
    requires Claimable(item, at)
    ensures var c := Claimed(item, at);
            Weight(Updated(c, c.attempts, Verdict(c, c.attempts, now, result))) < Weight(item) && !Final(item)
  {
    hide Delay;
  }
}
