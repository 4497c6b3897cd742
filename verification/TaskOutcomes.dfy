/**
 What a polled task costs its user in the end (service/task_polling.go, service/task_billing.go): who
 wins it, what the winner bills, and what the user has paid once every winner has billed, in plain
 figures, over every run of TaskPolling.
 */
module TaskOutcomes {
  import opened Options
  import opened TaskPolling
  import opened VideoBilling

  // ---------------------------------------------------------------- one step

  /** The status an action can finish a task with, and the bill that goes with it. */
  datatype Prize = Prize(status: Status, bill: Bill)

  function PrizeOf(quota: nat, a: Action): Option<Prize> {
    var refund := if quota == 0 then NoBill else Refund;
    match a
    case Answer(_, Success, _, actual) => Some(Prize(Success, Settle(actual)))
    case Answer(_, Failure, _, _) => Some(Prize(Failure, refund))
    case TimeOut(_, legacy) => Some(Prize(Failure, if legacy then Forgone else refund))
    case _ => None
  }

  predicate Current(s: World, w: nat) { At(s, w).Loaded? && At(s, w).seen == s.status }

  /** A task is won if and only if a poller is answered a success or a failure, or a sweep times it out,
      and the row is still as they loaded it; then with the status and the bill it calls for. */
  lemma WinIff(quota: nat, s: World, a: Action)
    ensures var s', prize := Next(quota, s, a), PrizeOf(quota, a);
      if Current(s, a.w) && prize.Some?
      then s'.wins == s.wins + [prize.value.bill] && s'.status == prize.value.status && At(s', a.w) == Won(prize.value.bill)
      else s'.wins == s.wins
  {}

  /** What one billing adds to what the user has paid. */
  function Change(quota: nat, bill: Bill, charged: bool): int {
    match bill
    case Refund => if charged then 0 - quota else 0
    case Settle(Some(actual)) => if charged && actual > 0 then actual - quota else 0
    case _ => 0
  }

  /** Only a winner bills, once, and only that moves money. */
  lemma BillIff(quota: nat, s: World, a: Action)
    ensures var s', worker := Next(quota, s, a), At(s, a.w);
      if a.DoBill? && worker.Won?
      then s'.bills == s.bills + [Done(worker.bill, a.charged)] && s'.net == s.net + Change(quota, worker.bill, a.charged) && At(s', a.w) == Idle
      else s'.bills == s.bills && s'.net == s.net
  {}

  /** Whether an action writes the row, given what its worker holds. */
  predicate Writes(s: World, a: Action) {
    var worker := At(s, a.w);
    match a
    case Answer(_, status, _, _) => Current(s, a.w) && status != NotStart && status != Unknown
    case TimeOut(_, _) => Current(s, a.w)
    case BulkFail(_) => worker.Loaded?
    case Fetch(_, _, _) => worker.Fetching? && worker.seen == s.status
    case _ => false
  }

  /** The row an action leaves: what was reported, complete by default for a success and always for a
      failure, and as it was if the action does not write it. */
  lemma RowAfter(quota: nat, s: World, a: Action)
    ensures var s', worker := Next(quota, s, a), At(s, a.w);
      if !Writes(s, a) then s'.status == s.status && s'.full == s.full
      else match a
        case Answer(_, status, progress, _) =>
          s'.status == status && s'.full == (status == Failure || if progress.Some? then progress.value else status == Success)
        case Fetch(_, report, progress) =>
          && s'.status == (if report.Some? then report.value else s.status)
          && s'.full == (if progress.Some? then progress.value else worker.full)
        case _ => s'.status == Failure && s'.full
  {}

  /** What the acting worker has left to do: nothing once it has written, lost or billed, unless it won;
      nobody else is touched. */
  lemma WorkerAfter(quota: nat, s: World, a: Action)
    ensures var s', worker := Next(quota, s, a), At(s, a.w);
      && |s'.workers| == |s.workers| && (forall w :: 0 <= w < |s.workers| && w != a.w ==> s'.workers[w] == s.workers[w])
      && (worker.Loaded? ==>
            if (a.Answer? || a.TimeOut?) && Current(s, a.w) && PrizeOf(quota, a).Some?
            then At(s', a.w) == Won(PrizeOf(quota, a).value.bill)
            else At(s', a.w) == if a.Answer? || a.TimeOut? || a.BulkFail? then Idle else worker)
      && (worker.Fetching? ==> At(s', a.w) == if a.Fetch? then Idle else worker)
      && (worker.Won? ==> At(s', a.w) == if a.DoBill? then Idle else worker)
      && (worker.Idle? ==> At(s', a.w) == Idle || a.Load? || a.Look?)
  {}

  /** A poller or a sweep loads a row if and only if it is open and not complete; a user any row. */
  lemma LoadsIff(quota: nat, s: World, w: nat)
    requires w < |s.workers| && s.workers[w].Idle?
    ensures At(Next(quota, s, Load(w)), w) ==
            if s.status != Success && s.status != Failure && !s.full then Loaded(s.status) else Idle
    ensures At(Next(quota, s, Look(w)), w) == Fetching(s.status, s.full)
  {}

  // ---------------------------------------------------------------- what is paid, over every run

  function Changes(quota: nat, bills: seq<Done>): int {
    if bills == [] then 0
    else Changes(quota, bills[..|bills| - 1]) + Change(quota, bills[|bills| - 1].bill, bills[|bills| - 1].charged)
  }

  lemma {:induction false} NetIsChanges(quota: nat, bills: seq<Done>)
    ensures Net(quota, bills) == quota + Changes(quota, bills)
  {
    if bills != [] { NetIsChanges(quota, bills[..|bills| - 1]); }
  }

  /** In every run, whatever spoils it, the user has paid the pre-consumed quota, less it for every refund
      that was funded, and for every funded token settlement the difference to what the tokens come to. */
  lemma PaidIs(quota: nat, s: World, actions: seq<Action>)
    requires Start(s, quota)
    ensures var end := After(quota, s, actions); end.net == quota + Changes(quota, end.bills)
  {
    ChargeIsBilled(quota, s, actions);
    NetIsChanges(quota, After(quota, s, actions).bills);
  }

  ghost predicate AllCharged(actions: seq<Action>) { forall i :: 0 <= i < |actions| && actions[i].DoBill? ==> actions[i].charged }

  lemma {:induction false} AllBillsCharged(quota: nat, s: World, actions: seq<Action>)
    requires Start(s, quota) && AllCharged(actions)
    ensures forall d :: d in After(quota, s, actions).bills ==> d.charged
  {
    if actions != [] {
      var init, a := actions[..|actions| - 1], actions[|actions| - 1];
      AllBillsCharged(quota, s, init);
      BillIff(quota, After(quota, s, init), a);
    }
  }

  /** Wins are never taken back. */
  lemma {:induction false} WinsStay(quota: nat, s: World, actions: seq<Action>, j: nat, k: nat)
    requires j <= k <= |actions|
    ensures WorldAt(quota, s, actions, j).wins <= WorldAt(quota, s, actions, k).wins
  {
    if j < k {
      WinsStay(quota, s, actions, j, k - 1);
      NextWorld(quota, s, actions, k - 1);
      WinIff(quota, WorldAt(quota, s, actions, k - 1), actions[k - 1]);
    }
  }

  /** Step k won with the prize of its action. */
  lemma WonPrize(quota: nat, s: World, actions: seq<Action>, k: nat)
    requires k < |actions| && WinsAt(quota, s, actions, k)
    ensures var prize, after := PrizeOf(quota, actions[k]), WorldAt(quota, s, actions, k + 1);
      prize.Some? && after.wins == WorldAt(quota, s, actions, k).wins + [prize.value.bill] && after.status == prize.value.status
  {
    NextWorld(quota, s, actions, k);
    WinIff(quota, WorldAt(quota, s, actions, k), actions[k]);
  }

  /** What a task costs that was finished by this action: the quota its tokens come to if it was billed
      by them, the pre-consumed quota for any other success and for a legacy task that timed out, and
      nothing for any other failure. */
  function Cost(quota: nat, a: Action): int {
    match a
    case Answer(_, Success, _, Some(actual)) => if actual > 0 then actual else quota
    case Answer(_, Success, _, None) => quota
    case TimeOut(_, true) => quota
    case _ => 0
  }

  lemma CostIsChange(quota: nat, a: Action)
    requires PrizeOf(quota, a).Some?
    ensures quota + Change(quota, PrizeOf(quota, a).value.bill, true) == Cost(quota, a)
  {}

  /** Nothing spoils the billing: no fetch, no bulk failure of a row that had not failed, no failing
      funding update, and nobody who still has to bill. */
  ghost predicate Undisturbed(quota: nat, s: World, actions: seq<Action>) {
    NoFetches(actions) && !BulkFailed(quota, s, actions) && AllCharged(actions) && AtRest(After(quota, s, actions))
  }

  /** Then a task that nobody finished is open and has cost its user the pre-consumed quota. */
  lemma OpenCosts(quota: nat, s: World, actions: seq<Action>)
    requires Start(s, quota) && Undisturbed(quota, s, actions)
    requires forall k :: 0 <= k < |actions| ==> !WinsAt(quota, s, actions, k)
    ensures var end := After(quota, s, actions); end.net == quota && end.status != Success && end.status != Failure
  {
    var end := After(quota, s, actions);
    assert actions[..|actions|] == actions;
    if end.wins != [] { FirstWin(quota, s, actions, |actions|); }
    SettledOrStranded(quota, s, actions, |actions|);
    ChargeIsBilled(quota, s, actions);
    NoWinsNoBills(end);
  }

  lemma NoWinsNoBills(s: World)
    requires Bills(s.bills) == multiset(s.wins) && s.wins == []
    ensures s.bills == []
  {
    BillsCount(s.bills);
    assert |multiset(s.wins)| == 0;
  }

  lemma OneWinOneBill(s: World, bill: Bill)
    requires Bills(s.bills) == multiset(s.wins) && s.wins == [bill] && forall d :: d in s.bills ==> d.charged
    ensures s.bills == [Done(bill, true)]
  {
    BillsCount(s.bills);
    assert |multiset(s.wins)| == 1;
    assert s.bills == [s.bills[0]] && s.bills[0].bill in multiset(s.wins);
  }

  lemma OneBillNet(quota: nat, bill: Bill)
    ensures Net(quota, [Done(bill, true)]) == quota + Change(quota, bill, true)
  {
    var bills := [Done(bill, true)];
    assert bills[..0] == [];
    NetIsChanges(quota, bills);
    assert Changes(quota, bills) == Changes(quota, bills[..0]) + Change(quota, bill, true);
  }

  /** One that an action finished was finished by it alone, has that action's outcome and has cost its
      user what that outcome calls for: whatever the interleaving. */
  lemma FinishedCosts(quota: nat, s: World, actions: seq<Action>, k: nat)
    requires Start(s, quota) && Undisturbed(quota, s, actions) && k < |actions| && WinsAt(quota, s, actions, k)
    ensures var end := After(quota, s, actions);
      && PrizeOf(quota, actions[k]).Some? && end.wins == [PrizeOf(quota, actions[k]).value.bill]
      && end.status == PrizeOf(quota, actions[k]).value.status && end.net == Cost(quota, actions[k])
  {
    var n, end := |actions|, After(quota, s, actions);
    assert actions[..n] == actions;
    WonPrize(quota, s, actions, k);
    WinsStay(quota, s, actions, k + 1, n);
    SettledOrStranded(quota, s, actions, n);
    var bill := PrizeOf(quota, actions[k]).value.bill;
    OneWin(end, WorldAt(quota, s, actions, k).wins, bill);
    FinalStatus(quota, s, actions, k + 1, n);
    ChargeIsBilled(quota, s, actions);
    AllBillsCharged(quota, s, actions);
    OneWinOneBill(end, bill);
    OneBillNet(quota, bill);
    CostIsChange(quota, actions[k]);
  }

  lemma OneWin(end: World, before: seq<Bill>, bill: Bill)
    requires before + [bill] <= end.wins && |end.wins| <= 1
    ensures end.wins == [bill]
  {}

  /** Without fetches and bulk failures a finished row keeps its status. */
  lemma FinalStatus(quota: nat, s: World, actions: seq<Action>, j: nat, k: nat)
    requires Start(s, quota) && NoFetches(actions) && !BulkFailed(quota, s, actions) && j <= k <= |actions|
    requires Terminal(WorldAt(quota, s, actions, j).status)
    ensures WorldAt(quota, s, actions, k).status == WorldAt(quota, s, actions, j).status
  {
    var statuses := seq(|actions| + 1, i requires 0 <= i <= |actions| => WorldAt(quota, s, actions, i).status);
    forall i | 0 <= i < |actions| && Terminal(statuses[i]) ensures statuses[i + 1] == statuses[i] {
      FinalNext(quota, s, actions, i);
    }
    LastTerminal(statuses, j, k);
  }

  lemma {:induction false} LastTerminal(statuses: seq<Status>, j: nat, k: nat)
    requires j <= k < |statuses| && Terminal(statuses[j])
    requires forall i :: 0 <= i < |statuses| - 1 && Terminal(statuses[i]) ==> statuses[i + 1] == statuses[i]
    ensures statuses[k] == statuses[j]
  {
    if j < k { LastTerminal(statuses, j, k - 1); }
  }

  lemma FinalNext(quota: nat, s: World, actions: seq<Action>, k: nat)
    requires Start(s, quota) && NoFetches(actions) && !BulkFailed(quota, s, actions) && k < |actions|
    requires Terminal(WorldAt(quota, s, actions, k).status)
    ensures WorldAt(quota, s, actions, k + 1).status == WorldAt(quota, s, actions, k).status
  {
    AlwaysInv(quota, s, actions[..k]);
    NextWorld(quota, s, actions, k);
    assert !BulkHits(WorldAt(quota, s, actions, k), actions[k]);
    FinalStep(quota, WorldAt(quota, s, actions, k), actions[k]);
  }

  lemma FinalStep(quota: nat, s: World, a: Action)
    requires LoadedOpen(s) && Terminal(s.status) && !a.Fetch? && !BulkHits(s, a)
    ensures Next(quota, s, a).status == s.status
  {
    RowAfter(quota, s, a);
  }
}
