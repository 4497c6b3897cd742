/**
 Billing of one asynchronous task under everything that writes its row at once: any number of
 pollers and timeout sweeps (service/task_polling.go, service/task_billing.go), bulk failures,
 and users who ask for a Gemini or Vertex task and have it fetched on the spot
 (tryRealtimeFetch of relay/relay_task.go). Pollers and sweeps load unfinished rows, and whoever
 moves one to a terminal status by a guarded update (UpdateWithStatus of model/task.go) bills.
 Database operations are steps; between any two of them others may act.
 */
module TaskPolling {
  import opened Options
  import opened VideoBilling

  /** What the winner of the guarded update has to do: settle, refund, forgo the refund of a legacy
      task, or nothing for a task that cost nothing. */
  datatype Bill = Settle(actual: Option<nat>) | Refund | Forgone | NoBill

  datatype Worker = Idle | Loaded(seen: Status) | Fetching(seen: Status, full: bool) | Won(bill: Bill)

  /** A billing done, and whether the funding update succeeded. */
  datatype Done = Done(bill: Bill, charged: bool)

  /** The row's status and whether its progress is 100%; what the user has paid so far; every
      guarded update won and every billing done, in order; and the workers. The row's quota is the
      pre-consumed one throughout: it is the parameter `quota`. */
  datatype World = World(status: Status, full: bool, net: int, wins: seq<Bill>, bills: seq<Done>, workers: seq<Worker>)

  /** A reported progress is only whether it is 100%. */
  datatype Action =
    | Load(w: nat)                                                             // a poller or a sweep loads an unfinished row
    | Answer(w: nat, status: Status, progress: Option<bool>, actual: Option<nat>)
    | TimeOut(w: nat, legacy: bool)
    | BulkFail(w: nat)                                                         // unguarded: channel or upstream id missing
    | DoBill(w: nat, charged: bool)
    | Look(w: nat)                                                             // a user's request loads the row, finished or not
    | Fetch(w: nat, report: Option<Status>, progress: Option<bool>)            // its guarded update, which bills nothing

  predicate Terminal(status: Status) { status == Success || status == Failure }

  function At(s: World, w: nat): Worker { if w < |s.workers| then s.workers[w] else Idle }

  function Become(s: World, w: nat, worker: Worker): World {
    if w < |s.workers| then s.(workers := s.workers[w := worker]) else s
  }

  function Or<T>(a: Option<T>, b: T): T { if a.Some? then a.value else b }

  /** UPDATE ... WHERE status = seen. */
  function Guarded(s: World, w: nat, seen: Status, status: Status, full: bool): World {
    if s.status == seen then Become(s, w, Idle).(status := status, full := full) else Become(s, w, Idle)
  }

  /** The same to a terminal status, by one who then has to bill. */
  function Finish(s: World, w: nat, seen: Status, status: Status, full: bool, bill: Bill): World {
    if s.status == seen && w < |s.workers|
    then Become(s, w, Won(bill)).(status := status, full := full, wins := s.wins + [bill])
    else Become(s, w, Idle)
  }

  function RefundOf(quota: nat): Bill { if quota != 0 then Refund else NoBill }

  /** RecalculateTaskQuota and RefundTaskQuota. */
  function Paid(quota: nat, net: int, d: Done): int {
    if !d.charged then net
    else if d.bill.Refund? then net - quota
    else if d.bill.Settle? && d.bill.actual.Some? && d.bill.actual.value > 0 then net + d.bill.actual.value - quota
    else net
  }

  function AfterAnswer(quota: nat, s: World, w: nat, seen: Status, status: Status, progress: Option<bool>, actual: Option<nat>): World {
    if !Known(status) then Become(s, w, Idle)
    else if status == Success then Finish(s, w, seen, Success, Or(progress, true), Settle(actual))
    else if status == Failure then Finish(s, w, seen, Failure, true, RefundOf(quota))
    else Guarded(s, w, seen, status, Or(progress, false))
  }

  function AfterBill(quota: nat, s: World, w: nat, d: Done): World {
    Become(s, w, Idle).(net := Paid(quota, s.net, d), bills := s.bills + [d])
  }

  function Next(quota: nat, s: World, a: Action): World {
    var worker := At(s, a.w);
    match a
    case Load(w) => if worker.Idle? && !Terminal(s.status) && !s.full then Become(s, w, Loaded(s.status)) else s
    case Answer(w, status, progress, actual) =>
      if worker.Loaded? then AfterAnswer(quota, s, w, worker.seen, status, progress, actual) else s
    case TimeOut(w, legacy) =>
      if worker.Loaded? then Finish(s, w, worker.seen, Failure, true, if legacy then Forgone else RefundOf(quota)) else s
    case BulkFail(w) => if worker.Loaded? then Become(s, w, Idle).(status := Failure, full := true) else s
    case DoBill(w, charged) => if worker.Won? then AfterBill(quota, s, w, Done(worker.bill, charged)) else s
    case Look(w) => if worker.Idle? then Become(s, w, Fetching(s.status, s.full)) else s
    case Fetch(w, report, progress) =>
      if worker.Fetching? then Guarded(s, w, worker.seen, Or(report, worker.seen), Or(progress, worker.full)) else s
  }

  function After(quota: nat, s: World, actions: seq<Action>): World {
    if actions == [] then s else Next(quota, After(quota, s, actions[..|actions| - 1]), actions[|actions| - 1])
  }

  predicate Start(s: World, quota: nat) {
    && !Terminal(s.status) && s.net == quota && s.wins == [] && s.bills == []
    && forall i :: 0 <= i < |s.workers| ==> s.workers[i] == Idle
  }

  // ---------------------------------------------------------------- what every run keeps

  /** Pollers and sweeps have only seen open rows. */
  ghost predicate LoadedOpen(s: World) {
    forall i :: 0 <= i < |s.workers| && s.workers[i].Loaded? ==> !Terminal(s.workers[i].seen)
  }

  function Owing(workers: seq<Worker>): multiset<Bill> {
    if workers == [] then multiset{} else Owing(workers[..|workers| - 1]) + OwedBy(workers[|workers| - 1])
  }

  function OwedBy(worker: Worker): multiset<Bill> { if worker.Won? then multiset{worker.bill} else multiset{} }

  function Bills(bills: seq<Done>): multiset<Bill> {
    if bills == [] then multiset{} else Bills(bills[..|bills| - 1]) + multiset{bills[|bills| - 1].bill}
  }

  function Net(quota: nat, bills: seq<Done>): int {
    if bills == [] then quota else Paid(quota, Net(quota, bills[..|bills| - 1]), bills[|bills| - 1])
  }

  /** Every win is billed or still owed by its winner, and the user's charge is what was billed. */
  ghost predicate Balanced(s: World, quota: nat) {
    multiset(s.wins) == Owing(s.workers) + Bills(s.bills) && s.net == Net(quota, s.bills)
  }

  ghost predicate Inv(s: World, quota: nat) { LoadedOpen(s) && Balanced(s, quota) }

  lemma {:induction false} OwingConcat(a: seq<Worker>, b: seq<Worker>)
    ensures Owing(a + b) == Owing(a) + Owing(b)
  {
    if b == [] {
      assert a + b == a;
    } else {
      assert (a + b)[..|a + b| - 1] == a + b[..|b| - 1];
      OwingConcat(a, b[..|b| - 1]);
    }
  }

  /** What all others owe. */
  function OwedElsewhere(workers: seq<Worker>, w: nat): multiset<Bill>
    requires w < |workers|
  {
    Owing(workers[..w]) + Owing(workers[w + 1..])
  }

  lemma OwingAround(before: seq<Worker>, worker: Worker, behind: seq<Worker>)
    ensures Owing(before + ([worker] + behind)) == (Owing(before) + Owing(behind)) + OwedBy(worker)
  {
    OwingConcat(before, [worker] + behind);
    OwingConcat([worker], behind);
    OwingOne(worker);
    Regroup(Owing(before), OwedBy(worker), Owing(behind));
  }

  lemma OwingOne(worker: Worker)
    ensures Owing([worker]) == OwedBy(worker)
  {
    assert [worker][..0] == [];
  }

  lemma Regroup(a: multiset<Bill>, x: multiset<Bill>, b: multiset<Bill>)
    ensures a + (x + b) == (a + b) + x
  {}

  lemma Around<T>(s: seq<T>, i: nat, x: T)
    requires i < |s|
    ensures s == s[..i] + ([s[i]] + s[i + 1..])
    ensures s[i := x] == s[..i] + ([x] + s[i + 1..])
  {}

  lemma OwingUpdate(workers: seq<Worker>, w: nat, worker: Worker)
    requires w < |workers|
    ensures Owing(workers) == OwedElsewhere(workers, w) + OwedBy(workers[w])
    ensures Owing(workers[w := worker]) == OwedElsewhere(workers, w) + OwedBy(worker)
  {
    Around(workers, w, worker);
    OwingAround(workers[..w], workers[w], workers[w + 1..]);
    OwingAround(workers[..w], worker, workers[w + 1..]);
  }

  lemma {:induction false} OwingNothing(workers: seq<Worker>)
    requires forall i :: 0 <= i < |workers| ==> !workers[i].Won?
    ensures Owing(workers) == multiset{}
  {
    if workers != [] { OwingNothing(workers[..|workers| - 1]); }
  }

  lemma OneMoreWin(wins: seq<Bill>, bill: Bill, rest: multiset<Bill>, bills: multiset<Bill>)
    requires multiset(wins) == (rest + multiset{}) + bills
    ensures multiset(wins + [bill]) == (rest + multiset{bill}) + bills
  {
    assert multiset(wins + [bill]) == multiset(wins) + multiset{bill};
  }

  lemma WinBalanced(s: World, quota: nat, w: nat, status: Status, full: bool, bill: Bill)
    requires Balanced(s, quota) && w < |s.workers| && !s.workers[w].Won?
    ensures Balanced(Become(s, w, Won(bill)).(status := status, full := full, wins := s.wins + [bill]), quota)
  {
    OwingUpdate(s.workers, w, Won(bill));
    OneMoreWin(s.wins, bill, OwedElsewhere(s.workers, w), Bills(s.bills));
  }

  lemma FinishBalanced(s: World, quota: nat, w: nat, seen: Status, status: Status, full: bool, bill: Bill)
    requires Balanced(s, quota) && w < |s.workers| && !s.workers[w].Won?
    ensures Balanced(Finish(s, w, seen, status, full, bill), quota)
  {
    if s.status == seen { WinBalanced(s, quota, w, status, full, bill); } else { MoveBalanced(s, quota, w, Idle, status, full); }
  }

  lemma BillBalanced(s: World, quota: nat, w: nat, charged: bool)
    requires Balanced(s, quota) && w < |s.workers| && s.workers[w].Won?
    ensures Balanced(AfterBill(quota, s, w, Done(s.workers[w].bill, charged)), quota)
  {
    OwingUpdate(s.workers, w, Idle);
    var all := s.bills + [Done(s.workers[w].bill, charged)];
    assert all[..|all| - 1] == s.bills;
  }

  /** Steps that neither win nor bill. */
  lemma MoveBalanced(s: World, quota: nat, w: nat, worker: Worker, status: Status, full: bool)
    requires Balanced(s, quota) && !At(s, w).Won? && !worker.Won?
    ensures Balanced(Become(s, w, worker).(status := status, full := full), quota)
    ensures Balanced(Become(s, w, worker), quota)
  {
    if w < |s.workers| { OwingUpdate(s.workers, w, worker); }
  }

  lemma GuardedBalanced(s: World, quota: nat, w: nat, seen: Status, status: Status, full: bool)
    requires Balanced(s, quota) && !At(s, w).Won?
    ensures Balanced(Guarded(s, w, seen, status, full), quota)
  {
    MoveBalanced(s, quota, w, Idle, status, full);
  }

  lemma AnswerBalanced(quota: nat, s: World, w: nat, seen: Status, status: Status, progress: Option<bool>, actual: Option<nat>)
    requires Balanced(s, quota) && At(s, w) == Loaded(seen)
    ensures Balanced(AfterAnswer(quota, s, w, seen, status, progress, actual), quota)
  {
    if !Known(status) {
      MoveBalanced(s, quota, w, Idle, status, true);
    } else if status == Success {
      FinishBalanced(s, quota, w, seen, Success, Or(progress, true), Settle(actual));
    } else if status == Failure {
      FinishBalanced(s, quota, w, seen, Failure, true, RefundOf(quota));
    } else {
      GuardedBalanced(s, quota, w, seen, status, Or(progress, false));
    }
  }

  lemma LoadBalanced(quota: nat, s: World, w: nat)
    requires Balanced(s, quota)
    ensures Balanced(Next(quota, s, Load(w)), quota) && Balanced(Next(quota, s, Look(w)), quota)
  {
    if At(s, w).Idle? {
      MoveBalanced(s, quota, w, Loaded(s.status), s.status, s.full);
      MoveBalanced(s, quota, w, Fetching(s.status, s.full), s.status, s.full);
    }
  }

  lemma NextBalanced(quota: nat, s: World, a: Action)
    requires Balanced(s, quota)
    ensures Balanced(Next(quota, s, a), quota)
  {
    var worker, w := At(s, a.w), a.w;
    if a.Load? || a.Look? {
      LoadBalanced(quota, s, w);
    } else if worker.Loaded? {
      if a.Answer? {
        AnswerBalanced(quota, s, w, worker.seen, a.status, a.progress, a.actual);
      } else if a.TimeOut? {
        FinishBalanced(s, quota, w, worker.seen, Failure, true, if a.legacy then Forgone else RefundOf(quota));
      } else if a.BulkFail? {
        MoveBalanced(s, quota, w, Idle, Failure, true);
      }
    } else if worker.Won? && a.DoBill? {
      BillBalanced(s, quota, w, a.charged);
    } else if worker.Fetching? && a.Fetch? {
      GuardedBalanced(s, quota, w, worker.seen, Or(a.report, worker.seen), Or(a.progress, worker.full));
    }
  }

  lemma BecomeLoaded(s: World, w: nat, worker: Worker)
    requires LoadedOpen(s) && (worker.Loaded? ==> !Terminal(worker.seen))
    ensures LoadedOpen(Become(s, w, worker))
  {}

  lemma NextLoaded(quota: nat, s: World, a: Action)
    requires LoadedOpen(s)
    ensures LoadedOpen(Next(quota, s, a))
  {
    var worker := NextWorker(quota, s, a);
    BecomeLoaded(s, a.w, worker);
    NextWorkers(quota, s, a);
  }

  /** What the acting worker turns into. */
  function NextWorker(quota: nat, s: World, a: Action): Worker { At(Next(quota, s, a), a.w) }

  lemma NextWorkers(quota: nat, s: World, a: Action)
    ensures Next(quota, s, a).workers == Become(s, a.w, NextWorker(quota, s, a)).workers
    ensures NextWorker(quota, s, a).Loaded? ==>
              NextWorker(quota, s, a) == At(s, a.w) || (NextWorker(quota, s, a) == Loaded(s.status) && !Terminal(s.status))
  {}

  lemma NextKeeps(quota: nat, s: World, a: Action)
    requires Inv(s, quota)
    ensures Inv(Next(quota, s, a), quota)
  {
    NextBalanced(quota, s, a);
    NextLoaded(quota, s, a);
  }

  lemma {:induction false} AlwaysInv(quota: nat, s: World, actions: seq<Action>)
    requires Start(s, quota)
    ensures Inv(After(quota, s, actions), quota)
  {
    if actions == [] {
      OwingNothing(s.workers);
    } else {
      AlwaysInv(quota, s, actions[..|actions| - 1]);
      NextKeeps(quota, After(quota, s, actions[..|actions| - 1]), actions[|actions| - 1]);
    }
  }

  ghost predicate Moves(quota: nat, s: World, a: Action, s': World) {
    || (s'.wins == s.wins && (ClassOf(s'.status) == ClassOf(s.status) || a.Fetch? || (a.BulkFail? && s'.status == Failure)))
    || (exists bill :: s'.wins == s.wins + [bill] && !Terminal(s.status) && Terminal(s'.status) && Fits(quota, bill, s'.status))
  }

  /** What a step can do to the status and the wins: a win closes an open row, a step without one
      changes the class of the status only as a fetch or a bulk failure. */
  lemma StepMoves(quota: nat, s: World, a: Action)
    requires LoadedOpen(s)
    ensures Moves(quota, s, a, Next(quota, s, a))
  {
    var s' := Next(quota, s, a);
    if s'.wins != s.wins {
      var bill := s'.wins[|s.wins|];
      assert s'.wins == s.wins + [bill] && Fits(quota, bill, s'.status);
    }
  }

  /** Open, succeeded or failed. */
  function ClassOf(status: Status): Status { if Terminal(status) then status else InProgress }

  /** A success is settled, a failure refunded if there is anything to refund and the task is not a legacy one. */
  predicate Fits(quota: nat, bill: Bill, status: Status) {
    if status == Success then bill.Settle? else bill.Forgone? || bill == if quota == 0 then NoBill else Refund
  }

  /** In every interleaving the user has paid the pre-consumed quota, adjusted by what was billed; once
      no winner still has to bill, the billings are the guarded updates won. */
  lemma ChargeIsBilled(quota: nat, s: World, actions: seq<Action>)
    requires Start(s, quota)
    ensures var end := After(quota, s, actions);
      && end.net == Net(quota, end.bills)
      && (AtRest(end) ==> Bills(end.bills) == multiset(end.wins))
  {
    AlwaysInv(quota, s, actions);
    var end := After(quota, s, actions);
    if AtRest(end) { OwingNothing(end.workers); }
  }

  ghost predicate AtRest(s: World) { forall i :: 0 <= i < |s.workers| ==> !s.workers[i].Won? }

  lemma {:induction false} BillsCount(bills: seq<Done>)
    ensures |Bills(bills)| == |bills|
    ensures forall d :: d in bills ==> d.bill in Bills(bills)
  {
    if bills != [] {
      BillsCount(bills[..|bills| - 1]);
      assert bills == bills[..|bills| - 1] + [bills[|bills| - 1]];
    }
  }

  // ---------------------------------------------------------------- at most one billing

  function WorldAt(quota: nat, s: World, actions: seq<Action>, k: nat): World
    requires k <= |actions|
  {
    After(quota, s, actions[..k])
  }

  lemma NextWorld(quota: nat, s: World, actions: seq<Action>, k: nat)
    requires k < |actions|
    ensures WorldAt(quota, s, actions, k + 1) == Next(quota, WorldAt(quota, s, actions, k), actions[k])
  {
    assert actions[..k + 1][..k] == actions[..k];
  }

  predicate WinsAt(quota: nat, s: World, actions: seq<Action>, k: nat)
    requires k < |actions|
  {
    |WorldAt(quota, s, actions, k + 1).wins| > |WorldAt(quota, s, actions, k).wins|
  }

  /** Step k takes the row, already won once, out of its terminal status. */
  predicate ReopensAt(quota: nat, s: World, actions: seq<Action>, k: nat)
    requires k < |actions|
  {
    var before := WorldAt(quota, s, actions, k);
    before.wins != [] && Terminal(before.status) && !Terminal(WorldAt(quota, s, actions, k + 1).status)
  }

  /** Only a user's fetch does that. */
  lemma OnlyFetchReopens(quota: nat, s: World, actions: seq<Action>, k: nat)
    requires Start(s, quota) && k < |actions| && ReopensAt(quota, s, actions, k)
    ensures actions[k].Fetch?
  {
    RunMoves(quota, s, actions, k);
  }

  /** One step of a run, as StepMoves says. */
  lemma RunMoves(quota: nat, s: World, actions: seq<Action>, k: nat)
    requires Start(s, quota) && k < |actions|
    ensures Moves(quota, WorldAt(quota, s, actions, k), actions[k], WorldAt(quota, s, actions, k + 1))
  {
    AlwaysInv(quota, s, actions[..k]);
    NextWorld(quota, s, actions, k);
    StepMoves(quota, WorldAt(quota, s, actions, k), actions[k]);
  }

  lemma {:induction false} WinsGrow(quota: nat, s: World, actions: seq<Action>, j: nat, k: nat)
    requires Start(s, quota) && j <= k <= |actions|
    ensures |WorldAt(quota, s, actions, j).wins| <= |WorldAt(quota, s, actions, k).wins|
  {
    if j < k {
      WinsGrow(quota, s, actions, j, k - 1);
      RunMoves(quota, s, actions, k - 1);
    }
  }

  lemma {:induction false} ReopenedBetween(quota: nat, s: World, actions: seq<Action>, j: nat, k: nat)
    requires Start(s, quota) && j <= k <= |actions| && WorldAt(quota, s, actions, j).wins != []
    requires Terminal(WorldAt(quota, s, actions, j).status) && !Terminal(WorldAt(quota, s, actions, k).status)
    ensures exists i :: j <= i < k && ReopensAt(quota, s, actions, i)
  {
    assert j < k;
    var before := WorldAt(quota, s, actions, k - 1);
    WinsGrow(quota, s, actions, j, k - 1);
    if Terminal(before.status) {
      assert before.wins != [] && ReopensAt(quota, s, actions, k - 1);
    } else {
      ReopenedBetween(quota, s, actions, j, k - 1);
    }
  }

  lemma WinCloses(quota: nat, s: World, actions: seq<Action>, k: nat)
    requires Start(s, quota) && k < |actions| && WinsAt(quota, s, actions, k)
    ensures !Terminal(WorldAt(quota, s, actions, k).status) && Terminal(WorldAt(quota, s, actions, k + 1).status)
    ensures |WorldAt(quota, s, actions, k + 1).wins| == |WorldAt(quota, s, actions, k).wins| + 1
  {
    RunMoves(quota, s, actions, k);
  }

  lemma {:induction false} FirstWin(quota: nat, s: World, actions: seq<Action>, k: nat)
    requires Start(s, quota) && k <= |actions| && WorldAt(quota, s, actions, k).wins != []
    ensures exists i :: 0 <= i < k && WinsAt(quota, s, actions, i)
  {
    assert WorldAt(quota, s, actions, 0) == s;
    if !WinsAt(quota, s, actions, k - 1) { FirstWin(quota, s, actions, k - 1); }
  }

  lemma {:induction false} LastWin(quota: nat, s: World, actions: seq<Action>, k: nat)
    requires Start(s, quota) && k <= |actions| && |WorldAt(quota, s, actions, k).wins| > 1
    ensures exists i :: 0 <= i < k && WinsAt(quota, s, actions, i) && WorldAt(quota, s, actions, i).wins != []
  {
    assert WorldAt(quota, s, actions, 0) == s;
    if WinsAt(quota, s, actions, k - 1) {
      WinCloses(quota, s, actions, k - 1);
    } else {
      LastWin(quota, s, actions, k - 1);
    }
  }

  /** A won row is reopened, and a poller or a sweep wins it again later. */
  ghost predicate WonAgain(quota: nat, s: World, actions: seq<Action>) {
    exists i, j :: 0 <= i < j < |actions| && ReopensAt(quota, s, actions, i) && WinsAt(quota, s, actions, j)
  }

  lemma TwoWins(quota: nat, s: World, actions: seq<Action>, f: nat, j: nat)
    requires Start(s, quota) && f < j < |actions| && WinsAt(quota, s, actions, f) && WinsAt(quota, s, actions, j)
    ensures exists i :: 0 <= i < j && ReopensAt(quota, s, actions, i)
  {
    WinCloses(quota, s, actions, f);
    WinCloses(quota, s, actions, j);
    ReopenedBetween(quota, s, actions, f + 1, j);
  }

  lemma TwiceMeansAgain(quota: nat, s: World, actions: seq<Action>, n: nat)
    requires Start(s, quota) && n == |actions| && |WorldAt(quota, s, actions, n).wins| > 1
    ensures WonAgain(quota, s, actions)
  {
    LastWin(quota, s, actions, n);
    var j: nat :| j < n && WinsAt(quota, s, actions, j) && WorldAt(quota, s, actions, j).wins != [];
    FirstWin(quota, s, actions, j);
    var f: nat :| f < j && WinsAt(quota, s, actions, f);
    TwoWins(quota, s, actions, f, j);
  }

  lemma AgainMeansTwice(quota: nat, s: World, actions: seq<Action>, n: nat, i: nat, j: nat)
    requires Start(s, quota) && i < j < n == |actions| && ReopensAt(quota, s, actions, i) && WinsAt(quota, s, actions, j)
    ensures |WorldAt(quota, s, actions, n).wins| > 1
  {
    var first, before, after := WorldAt(quota, s, actions, i).wins, WorldAt(quota, s, actions, j).wins, WorldAt(quota, s, actions, j + 1).wins;
    WinsGrow(quota, s, actions, i, j);
    WinsGrow(quota, s, actions, j + 1, n);
    assert |first| >= 1 && |before| >= |first| && |after| > |before|;
  }

  /** In every interleaving a task is won, and so billed, at most once if and only if no fetch takes a
      won row out of its terminal status before it is won again. */
  lemma BilledAtMostOnceIff(quota: nat, s: World, actions: seq<Action>)
    requires Start(s, quota)
    ensures |After(quota, s, actions).wins| <= 1 <==> !WonAgain(quota, s, actions)
  {
    var n := |actions|;
    assert actions[..n] == actions;
    if |After(quota, s, actions).wins| > 1 {
      TwiceMeansAgain(quota, s, actions, n);
    } else if WonAgain(quota, s, actions) {
      var i: nat, j: nat :| i < j < n && ReopensAt(quota, s, actions, i) && WinsAt(quota, s, actions, j);
      AgainMeansTwice(quota, s, actions, n, i, j);
    }
  }

  // ---------------------------------------------------------------- billed exactly when finished

  /** An open row was never won; a finished one was won once, by one who bills what its status calls for. */
  predicate Settled(quota: nat, s: World) {
    if Terminal(s.status) then |s.wins| == 1 && Fits(quota, s.wins[0], s.status) else s.wins == []
  }

  /** A fetch or a bulk failure opens the row, finishes it, or turns one outcome into the other; neither bills. */
  predicate MovesUnbilled(quota: nat, s: World, a: Action) {
    (a.Fetch? || a.BulkFail?) && ClassOf(Next(quota, s, a).status) != ClassOf(s.status)
  }

  lemma StepSettledIff(quota: nat, s: World, a: Action)
    requires LoadedOpen(s) && Settled(quota, s)
    ensures Settled(quota, Next(quota, s, a)) <==> !MovesUnbilled(quota, s, a)
  {
    StepMoves(quota, s, a);
    if a.Fetch? || a.BulkFail? { assert Next(quota, s, a).wins == s.wins; }
  }

  ghost predicate AlwaysSettled(quota: nat, s: World, actions: seq<Action>) {
    forall k :: 0 <= k <= |actions| ==> Settled(quota, WorldAt(quota, s, actions, k))
  }

  ghost predicate NeverUnbilled(quota: nat, s: World, actions: seq<Action>) {
    forall k :: 0 <= k < |actions| ==> !MovesUnbilled(quota, WorldAt(quota, s, actions, k), actions[k])
  }

  lemma {:induction false} SettledSoFar(quota: nat, s: World, actions: seq<Action>, k: nat)
    requires Start(s, quota) && NeverUnbilled(quota, s, actions) && k <= |actions|
    ensures Settled(quota, WorldAt(quota, s, actions, k))
  {
    if k > 0 {
      SettledSoFar(quota, s, actions, k - 1);
      AlwaysInv(quota, s, actions[..k - 1]);
      NextWorld(quota, s, actions, k - 1);
      StepSettledIff(quota, WorldAt(quota, s, actions, k - 1), actions[k - 1]);
    }
  }

  /** Throughout a run a row is terminal exactly when it was won once, by one who bills what its status
      calls for, if and only if no fetch and no bulk failure ever changes whether or how it is finished. */
  lemma AlwaysSettledIff(quota: nat, s: World, actions: seq<Action>)
    requires Start(s, quota)
    ensures AlwaysSettled(quota, s, actions) <==> NeverUnbilled(quota, s, actions)
  {
    if NeverUnbilled(quota, s, actions) {
      forall k | 0 <= k <= |actions| ensures Settled(quota, WorldAt(quota, s, actions, k)) { SettledSoFar(quota, s, actions, k); }
    } else {
      var k :| 0 <= k < |actions| && MovesUnbilled(quota, WorldAt(quota, s, actions, k), actions[k]);
      AlwaysInv(quota, s, actions[..k]);
      NextWorld(quota, s, actions, k);
      if Settled(quota, WorldAt(quota, s, actions, k)) {
        StepSettledIff(quota, WorldAt(quota, s, actions, k), actions[k]);
        assert !Settled(quota, WorldAt(quota, s, actions, k + 1));
      }
    }
  }

  /** Once no winner still has to bill, settled means billed: once for a finished row, as its status
      calls for, and not at all for an open one. */
  predicate BilledRight(quota: nat, s: World) {
    if Terminal(s.status) then |s.bills| == 1 && Fits(quota, s.bills[0].bill, s.status) else s.bills == []
  }

  lemma SettledMeansBilled(quota: nat, s: World, actions: seq<Action>)
    requires Start(s, quota) && AtRest(After(quota, s, actions))
    ensures Settled(quota, After(quota, s, actions)) <==> BilledRight(quota, After(quota, s, actions))
  {
    var end := After(quota, s, actions);
    ChargeIsBilled(quota, s, actions);
    BillsCount(end.bills);
    assert |multiset(end.wins)| == |end.wins|;
    if |end.wins| == 1 {
      assert end.wins == [end.wins[0]] && end.bills == [end.bills[0]];
      assert end.bills[0].bill in multiset(end.wins);
    }
  }

  ghost predicate NoFetches(actions: seq<Action>) { forall k :: 0 <= k < |actions| ==> !actions[k].Fetch? }

  /** A bulk failure hit a row that had not failed already. */
  ghost predicate BulkFailed(quota: nat, s: World, actions: seq<Action>) {
    exists k :: 0 <= k < |actions| && BulkHits(WorldAt(quota, s, actions, k), actions[k])
  }

  predicate BulkHits(s: World, a: Action) { a.BulkFail? && At(s, a.w).Loaded? && s.status != Failure }

  /** Failed without the refund it calls for, which without fetches is for good. */
  predicate Stranded(quota: nat, s: World) { s.status == Failure && !Settled(quota, s) }

  lemma StrandedStays(quota: nat, s: World, a: Action)
    requires LoadedOpen(s) && Stranded(quota, s) && !a.Fetch?
    ensures Stranded(quota, Next(quota, s, a))
  {
    StepMoves(quota, s, a);
    assert Next(quota, s, a).wins == s.wins;
  }

  lemma BulkStrands(quota: nat, s: World, a: Action)
    requires LoadedOpen(s) && Settled(quota, s) && !a.Fetch?
    ensures BulkHits(s, a) ==> Stranded(quota, Next(quota, s, a))
    ensures !BulkHits(s, a) ==> Settled(quota, Next(quota, s, a))
  {
    StepSettledIff(quota, s, a);
  }

  lemma {:induction false} SettledOrStranded(quota: nat, s: World, actions: seq<Action>, k: nat)
    requires Start(s, quota) && NoFetches(actions) && k <= |actions|
    ensures Settled(quota, WorldAt(quota, s, actions, k)) || Stranded(quota, WorldAt(quota, s, actions, k))
    ensures Settled(quota, WorldAt(quota, s, actions, k)) <==> !BulkFailed(quota, s, actions[..k])
  {
    if k == 0 {
      assert actions[..0] == [];
    } else {
      SettledOrStranded(quota, s, actions, k - 1);
      AlwaysInv(quota, s, actions[..k - 1]);
      NextWorld(quota, s, actions, k - 1);
      BulkFailedSnoc(quota, s, actions, k);
      var before := WorldAt(quota, s, actions, k - 1);
      if Settled(quota, before) {
        BulkStrands(quota, before, actions[k - 1]);
      } else {
        StrandedStays(quota, before, actions[k - 1]);
      }
    }
  }

  lemma BulkFailedSnoc(quota: nat, s: World, actions: seq<Action>, k: nat)
    requires 0 < k <= |actions|
    ensures BulkFailed(quota, s, actions[..k]) <==>
            BulkFailed(quota, s, actions[..k - 1]) || BulkHits(WorldAt(quota, s, actions, k - 1), actions[k - 1])
  {
    var now, before := actions[..k], actions[..k - 1];
    forall i | 0 <= i < k ensures WorldAt(quota, s, now, i) == WorldAt(quota, s, actions, i) && now[i] == actions[i] {
      assert now[..i] == actions[..i];
    }
    forall i | 0 <= i < k - 1 ensures WorldAt(quota, s, before, i) == WorldAt(quota, s, actions, i) && before[i] == actions[i] {
      assert before[..i] == actions[..i];
    }
    if BulkFailed(quota, s, before) {
      var i :| 0 <= i < k - 1 && BulkHits(WorldAt(quota, s, before, i), before[i]);
      assert BulkHits(WorldAt(quota, s, now, i), now[i]);
    }
    if BulkHits(WorldAt(quota, s, actions, k - 1), actions[k - 1]) { assert BulkHits(WorldAt(quota, s, now, k - 1), now[k - 1]); }
    if BulkFailed(quota, s, now) {
      var i :| 0 <= i < k && BulkHits(WorldAt(quota, s, now, i), now[i]);
      assert i < k - 1 ==> BulkHits(WorldAt(quota, s, before, i), before[i]);
    }
  }

  /** Without fetches, at rest, a task is billed exactly when its row is terminal, settled on success and
      on failure refunded or, after a legacy time-out, recorded without a refund, if and only if no bulk
      failure hit a row that had not failed already. */
  lemma BilledExactlyWhenFinishedIff(quota: nat, s: World, actions: seq<Action>)
    requires Start(s, quota) && NoFetches(actions) && AtRest(After(quota, s, actions))
    ensures BilledRight(quota, After(quota, s, actions)) <==> !BulkFailed(quota, s, actions)
  {
    assert actions[..|actions|] == actions;
    SettledOrStranded(quota, s, actions, |actions|);
    SettledMeansBilled(quota, s, actions);
  }

  /** Open, succeeded or failed, as the last win left the row; open when there was none. */
  function LeftBy(quota: nat, s: World, actions: seq<Action>): Status {
    if actions == [] then InProgress
    else
      var init := actions[..|actions| - 1];
      var before, after := After(quota, s, init), After(quota, s, actions);
      if |after.wins| > |before.wins| then ClassOf(after.status) else LeftBy(quota, s, init)
  }

  ghost predicate LeftFits(quota: nat, s: World, left: Status) {
    if s.wins == [] then left == InProgress else Terminal(left) && Fits(quota, s.wins[|s.wins| - 1], left)
  }

  lemma LeftStep(quota: nat, before: World, a: Action, after: World, left: Status)
    requires Moves(quota, before, a, after) && LeftFits(quota, before, left)
    ensures LeftFits(quota, after, if |after.wins| > |before.wins| then ClassOf(after.status) else left)
  {}

  lemma LastMoves(quota: nat, s: World, actions: seq<Action>)
    requires Start(s, quota) && actions != []
    ensures Moves(quota, After(quota, s, actions[..|actions| - 1]), actions[|actions| - 1], After(quota, s, actions))
  {
    AlwaysInv(quota, s, actions[..|actions| - 1]);
    StepMoves(quota, After(quota, s, actions[..|actions| - 1]), actions[|actions| - 1]);
  }

  lemma {:induction false} LeftByFits(quota: nat, s: World, actions: seq<Action>)
    requires Start(s, quota)
    ensures LeftFits(quota, After(quota, s, actions), LeftBy(quota, s, actions))
  {
    if actions != [] {
      var init := actions[..|actions| - 1];
      LeftByFits(quota, s, init);
      LastMoves(quota, s, actions);
      LeftStep(quota, After(quota, s, init), actions[|actions| - 1], After(quota, s, actions), LeftBy(quota, s, init));
    }
  }

  lemma SettledAsLeft(quota: nat, s: World, left: Status)
    requires LeftFits(quota, s, left)
    ensures Settled(quota, s) <==> |s.wins| <= 1 && ClassOf(s.status) == left
  {}

  /** With fetches too, at rest, a task is billed as its row calls for if and only if it was not won
      again after being reopened and whatever fetches and bulk failures did to it since its last win,
      or since the start, has come to nothing. */
  lemma BilledRightIff(quota: nat, s: World, actions: seq<Action>)
    requires Start(s, quota) && AtRest(After(quota, s, actions))
    ensures BilledRight(quota, After(quota, s, actions)) <==>
            !WonAgain(quota, s, actions) && ClassOf(After(quota, s, actions).status) == LeftBy(quota, s, actions)
  {
    SettledMeansBilled(quota, s, actions);
    BilledAtMostOnceIff(quota, s, actions);
    LeftByFits(quota, s, actions);
    SettledAsLeft(quota, After(quota, s, actions), LeftBy(quota, s, actions));
  }

  // ---------------------------------------------------------------- runs that go wrong

  lemma Append(quota: nat, s: World, actions: seq<Action>, a: Action)
    ensures After(quota, s, actions + [a]) == Next(quota, After(quota, s, actions), a)
  {
    var all := actions + [a];
    assert all[..|all| - 1] == actions;
  }

  /** A sweep fails and refunds it; a user's fetch finds it in progress and reopens it; the next
      sweep refunds it again. */
  lemma RefundedTwice(quota: nat, s: World)
    requires Start(s, quota) && !s.full && |s.workers| == 1 && quota > 0
    ensures var swept := [Load(0), TimeOut(0, false), DoBill(0, true)];
            var end := After(quota, s, swept + [Look(0)] + [Fetch(0, Some(InProgress), Some(false))] + swept);
            |end.bills| == 2 && end.net + quota == 0
  {
    var swept := [Load(0), TimeOut(0, false), DoBill(0, true)];
    SweptOnce(quota, s, s, []);
    assert [] + swept == swept;
    var failed := World(Failure, true, 0, [Refund], [Done(Refund, true)], [Idle]);
    assert s.workers == [Idle] && After(quota, s, swept) == failed;
    Append(quota, s, swept, Look(0));
    Append(quota, s, swept + [Look(0)], Fetch(0, Some(InProgress), Some(false)));
    var reopened := failed.(status := InProgress, full := false);
    assert After(quota, s, swept + [Look(0)] + [Fetch(0, Some(InProgress), Some(false))]) == reopened;
    SweptOnce(quota, s, reopened, swept + [Look(0)] + [Fetch(0, Some(InProgress), Some(false))]);
  }

  /** One sweep of an open row, from wherever a run has come to. */
  lemma SweptOnce(quota: nat, s: World, mid: World, before: seq<Action>)
    requires After(quota, s, before) == mid && mid.workers == [Idle] && !Terminal(mid.status) && !mid.full && quota > 0
    ensures After(quota, s, before + [Load(0), TimeOut(0, false), DoBill(0, true)]) ==
            World(Failure, true, mid.net - quota, mid.wins + [Refund], mid.bills + [Done(Refund, true)], [Idle])
  {
    Append(quota, s, before, Load(0));
    assert After(quota, s, before + [Load(0)]) == mid.(workers := [Loaded(mid.status)]);
    Append(quota, s, before + [Load(0)], TimeOut(0, false));
    assert After(quota, s, before + [Load(0)] + [TimeOut(0, false)]) ==
           mid.(workers := [Won(Refund)], status := Failure, full := true, wins := mid.wins + [Refund]);
    Append(quota, s, before + [Load(0)] + [TimeOut(0, false)], DoBill(0, true));
    assert before + [Load(0), TimeOut(0, false), DoBill(0, true)] == before + [Load(0)] + [TimeOut(0, false)] + [DoBill(0, true)];
  }

  /** The fetch itself reports the failure: the row is terminal, and nobody refunds it. */
  lemma FetchedFailureUnbilled(quota: nat, s: World)
    requires Start(s, quota) && |s.workers| == 1
    ensures var end := After(quota, s, [Look(0)] + [Fetch(0, Some(Failure), None)]);
            end.status == Failure && end.bills == [] && AtRest(end) && end.net == quota
  {
    Append(quota, s, [], Look(0));
    assert [] + [Look(0)] == [Look(0)];
    Append(quota, s, [Look(0)], Fetch(0, Some(Failure), None));
    assert s.workers == [Idle] && After(quota, s, [Look(0)]).workers == [Fetching(s.status, s.full)];
  }

  /** A bulk failure by a poller that loaded the row earlier overwrites a success already settled: the
      row says failed and the user has paid. */
  lemma BulkFailureOverwrites(quota: nat, s: World, actual: nat)
    requires Start(s, quota) && !s.full && |s.workers| == 2 && actual > 0
    ensures var end := After(quota, s, [Load(0)] + [Load(1)] + [Answer(1, Success, None, Some(actual))] + [DoBill(1, true)] + [BulkFail(0)]);
            end.status == Failure && end.net == actual
  {
    var settle, seen := Answer(1, Success, None, Some(actual)), Loaded(s.status);
    Append(quota, s, [], Load(0));
    assert [] + [Load(0)] == [Load(0)];
    assert After(quota, s, [Load(0)]) == s.(workers := [seen, Idle]);
    Append(quota, s, [Load(0)], Load(1));
    assert After(quota, s, [Load(0)] + [Load(1)]) == s.(workers := [seen, seen]);
    Append(quota, s, [Load(0)] + [Load(1)], settle);
    var bill := Settle(Some(actual));
    assert After(quota, s, [Load(0)] + [Load(1)] + [settle]) == World(Success, true, quota, [bill], [], [seen, Won(bill)]);
    Append(quota, s, [Load(0)] + [Load(1)] + [settle], DoBill(1, true));
    assert After(quota, s, [Load(0)] + [Load(1)] + [settle] + [DoBill(1, true)]) ==
           World(Success, true, actual, [bill], [Done(bill, true)], [seen, Idle]);
    Append(quota, s, [Load(0)] + [Load(1)] + [settle] + [DoBill(1, true)], BulkFail(0));
  }
}
