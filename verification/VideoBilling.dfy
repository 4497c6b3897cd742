/**
 Billing of asynchronous video tasks by a single poller (updateVideoSingleTask of
 controller/task_video.go). A poll reads its row, applies what the upstream reports and
 writes the row back; which writes succeed and the quota that a token count comes to are
 parameters of the poll.
 */
module VideoBilling {
  import opened Options

  datatype Status = NotStart | Submitted | Queued | InProgress | Success | Failure | Unknown

  /** What the upstream reports; an empty status counts as a failure. */
  datatype Report = Empty | Reported(status: Status)

  /** `actual` is the quota the reported tokens come to, None when it is not billed by token. */
  datatype Poll = Poll(report: Report, actual: Option<nat>, saved: bool, charged: bool)

  /** The row, what the user has paid for it so far, and the number of failure refunds. */
  datatype State = State(status: Status, quota: nat, net: int, refunds: nat)

  function Effective(p: Poll): Status { if p.report.Empty? then Failure else p.report.status }

  predicate Settles(s: State, p: Poll) { p.actual.Some? && p.actual.value != s.quota && p.charged }

  predicate Refunds(s: State, p: Poll) { s.quota != 0 && s.status != Failure && p.saved }

  function Step(s: State, p: Poll): State {
    match Effective(p)
    case Submitted => if p.saved then s.(status := Submitted) else s
    case Queued => if p.saved then s.(status := Queued) else s
    case InProgress => if p.saved then s.(status := InProgress) else s
    case Success =>
      var net := if Settles(s, p) then s.net + p.actual.value - s.quota else s.net;
      var quota := if Settles(s, p) then p.actual.value else s.quota;
      if p.saved then s.(status := Success, quota := quota, net := net) else s.(net := net)
    case Failure =>
      var refunded := Refunds(s, p);
      State(if p.saved then Failure else s.status, s.quota, if refunded && p.charged then s.net - s.quota else s.net,
            if refunded then s.refunds + 1 else s.refunds)
    case NotStart => s
    case Unknown => s
  }

  function Run(s: State, polls: seq<Poll>): State {
    if polls == [] then s else Step(Run(s, polls[..|polls| - 1]), polls[|polls| - 1])
  }

  predicate Works(p: Poll) { p.saved && p.charged }

  ghost predicate AllWork(polls: seq<Poll>) { forall i :: 0 <= i < |polls| ==> Works(polls[i]) }

  /** What the row says the user should have paid. */
  function Owed(s: State): int { if s.status == Failure then 0 else s.quota }

  predicate Known(status: Status) { status != NotStart && status != Unknown }

  /** The upstream takes back a failure it reported, and the row follows. */
  predicate LeavesFailure(s: State, p: Poll) {
    s.status == Failure && Known(Effective(p)) && Effective(p) != Failure && p.saved
  }

  /** The quota of every poll that took back a failure: refunded, and then not charged again. */
  function Lost(s: State, polls: seq<Poll>): nat {
    if polls == [] then 0
    else
      var before := Run(s, polls[..|polls| - 1]);
      Lost(s, polls[..|polls| - 1]) + if LeavesFailure(before, polls[|polls| - 1]) then before.quota else 0
  }

  lemma {:induction false} Conservation(s: State, polls: seq<Poll>)
    requires AllWork(polls)
    ensures Run(s, polls).net + Lost(s, polls) - Owed(Run(s, polls)) == s.net - Owed(s)
  {
    if polls != [] {
      Conservation(s, polls[..|polls| - 1]);
      var p := polls[|polls| - 1];
      assert Works(p);
    }
  }

  /** Poll i takes back a failure of a task that costs something. */
  predicate TakesBackAt(s: State, polls: seq<Poll>, i: nat)
    requires i < |polls|
  {
    LeavesFailure(Run(s, polls[..i]), polls[i]) && Run(s, polls[..i]).quota != 0
  }

  ghost predicate NeverTakesBack(s: State, polls: seq<Poll>) {
    forall i :: 0 <= i < |polls| ==> !TakesBackAt(s, polls, i)
  }

  lemma PrefixTakesBack(s: State, polls: seq<Poll>, n: nat, i: nat)
    requires i < n <= |polls|
    ensures TakesBackAt(s, polls[..n], i) == TakesBackAt(s, polls, i)
  {
    assert polls[..n][..i] == polls[..i];
  }

  lemma NeverTakesBackSnoc(s: State, polls: seq<Poll>, n: nat)
    requires n + 1 == |polls|
    ensures NeverTakesBack(s, polls) <==> NeverTakesBack(s, polls[..n]) && !TakesBackAt(s, polls, n)
  {
    forall i | 0 <= i < n ensures TakesBackAt(s, polls[..n], i) == TakesBackAt(s, polls, i) { PrefixTakesBack(s, polls, n, i); }
  }

  lemma {:induction false} LostIff(s: State, polls: seq<Poll>)
    ensures Lost(s, polls) == 0 <==> NeverTakesBack(s, polls)
  {
    if polls != [] {
      LostIff(s, polls[..|polls| - 1]);
      NeverTakesBackSnoc(s, polls, |polls| - 1);
    }
  }

  /** As long as row and quota updates succeed, the net charge is the row's quota until failure and 0
      afterwards, exactly when the upstream never takes back a failure of a task that costs something. */
  lemma NetChargeIff(s: State, polls: seq<Poll>)
    requires s.net == Owed(s) && AllWork(polls)
    ensures Run(s, polls).net == Owed(Run(s, polls)) <==> NeverTakesBack(s, polls)
  {
    Conservation(s, polls);
    LostIff(s, polls);
  }

  // ---------------------------------------------------------------- the row and the charge, in plain figures

  /** Whether the row takes over the status of a poll. */
  predicate Stores(p: Poll) { p.saved && (p.report.Empty? || (p.report.status != NotStart && p.report.status != Unknown)) }

  /** The status of the last poll that was saved with a known status. */
  function LastStored(status: Status, polls: seq<Poll>): Status {
    if polls == [] then status
    else
      var p := polls[|polls| - 1];
      if Stores(p) then (if p.report.Empty? then Failure else p.report.status) else LastStored(status, polls[..|polls| - 1])
  }

  predicate ByTokens(p: Poll) { p.report == Reported(Success) && p.actual.Some? && p.charged }

  /** What the tokens came to at the last success that was billed by them, funded and saved. */
  function LastActual(quota: nat, polls: seq<Poll>): nat {
    if polls == [] then quota
    else
      var p := polls[|polls| - 1];
      if ByTokens(p) && p.saved then p.actual.value else LastActual(quota, polls[..|polls| - 1])
  }

  /** What one poll costs a user whose row stands like this: a funded token settlement the difference to
      the row's quota, saved or not; a failure of a row that had not failed, saved and funded, minus it. */
  function CostOf(status: Status, quota: nat, p: Poll): int {
    if ByTokens(p) then p.actual.value - quota
    else if (p.report.Empty? || p.report.status == Failure) && status != Failure && p.saved && p.charged then 0 - quota
    else 0
  }

  function Costs(s: State, polls: seq<Poll>): int {
    if polls == [] then 0
    else
      var init, p := polls[..|polls| - 1], polls[|polls| - 1];
      Costs(s, init) + CostOf(LastStored(s.status, init), LastActual(s.quota, init), p)
  }

  /** Over every run, whatever is not saved or not funded: the row's status and quota are those of the
      last polls that could change them, and the user has paid what the polls cost. */
  lemma {:induction false} RowAndCharge(s: State, polls: seq<Poll>)
    ensures Run(s, polls).status == LastStored(s.status, polls)
    ensures Run(s, polls).quota == LastActual(s.quota, polls)
    ensures Run(s, polls).net == s.net + Costs(s, polls)
  {
    if polls != [] { RowAndCharge(s, polls[..|polls| - 1]); }
  }

  /** So a saved and funded success billed by its tokens ends with exactly that quota, and has moved what
      the user has paid by the difference to the old one. */
  lemma SettledSuccess(s: State, p: Poll)
    requires p.report == Reported(Success) && p.saved && p.charged && p.actual.Some?
    ensures Step(s, p) == State(Success, p.actual.value, s.net + p.actual.value - s.quota, s.refunds)
  {
    RowAndCharge(s, [p]);
    OnePoll(s, p);
  }

  lemma OnePoll(s: State, p: Poll)
    ensures Run(s, [p]) == Step(s, p) && Costs(s, [p]) == CostOf(s.status, s.quota, p)
  {
    assert [p][..0] == [];
    assert Costs(s, [p]) == Costs(s, [p][..0]) + CostOf(LastStored(s.status, [p][..0]), LastActual(s.quota, [p][..0]), p);
  }

  /** A failure is refunded if and only if it is saved, the task costs something and had not failed. */
  lemma RefundIff(s: State, p: Poll)
    ensures Step(s, p).refunds == s.refunds +
              if (p.report.Empty? || p.report.status == Failure) && p.saved && s.quota != 0 && s.status != Failure then 1 else 0
  {}

  /** How often a failure was taken back. */
  function TakenBack(s: State, polls: seq<Poll>): nat {
    if polls == [] then 0
    else TakenBack(s, polls[..|polls| - 1]) + if LeavesFailure(Run(s, polls[..|polls| - 1]), polls[|polls| - 1]) then 1 else 0
  }

  /** Whatever fails to be written, there is at most one refund, and one more for every failure the
      upstream takes back; none for a task that has not failed and never had a failure taken back. */
  lemma {:induction false} RefundsBounded(s: State, polls: seq<Poll>)
    requires s.refunds == 0
    ensures Run(s, polls).refunds <= TakenBack(s, polls) + if Run(s, polls).status == Failure then 1 else 0
  {
    if polls != [] { RefundsBounded(s, polls[..|polls| - 1]); }
  }

  /** Failure, progress, failure: refunded twice. */
  lemma TakenBackRefundsTwice(quota: nat, fail: Poll, progress: Poll)
    requires quota > 0 && Works(fail) && Works(progress)
    requires Effective(fail) == Failure && Effective(progress) == InProgress
    ensures var end := Run(State(NotStart, quota, quota, 0), [fail, progress, fail]);
            end.refunds == 2 && end.net + quota == 0
  {
    var polls := [fail, progress, fail];
    var s := State(NotStart, quota, quota, 0);
    assert polls[..2] == [fail, progress] && polls[..2][..1] == [fail] && polls[..2][..1][..0] == [];
    assert Run(s, polls[..2][..1]) == State(Failure, quota, 0, 1);
    assert Run(s, polls[..2]) == State(InProgress, quota, 0, 1);
  }

  /** Polling a success again, with the same tokens and ratios, changes nothing once the row is saved. */
  lemma {:induction false} SuccessIdempotent(s: State, p: Poll, again: nat)
    requires p.saved && Effective(p) == Success
    ensures Run(Step(s, p), seq(again, _ => p)) == Step(s, p)
    decreases again
  {
    if again > 0 {
      var polls := seq(again, _ => p);
      assert polls[..again - 1] == seq(again - 1, _ => p);
      SuccessIdempotent(s, p, again - 1);
    }
  }

  /** When the row is not saved the settlement is charged anew at every poll. */
  lemma {:induction false} UnsavedSettlementRepeats(s: State, p: Poll, times: nat)
    requires p.charged && !p.saved && Effective(p) == Success && p.actual.Some?
    ensures Run(s, seq(times, _ => p)) == s.(net := s.net + times * (p.actual.value - s.quota))
    decreases times
  {
    if times > 0 {
      var polls := seq(times, _ => p);
      assert polls[..times - 1] == seq(times - 1, _ => p);
      UnsavedSettlementRepeats(s, p, times - 1);
      assert times * (p.actual.value - s.quota) == (times - 1) * (p.actual.value - s.quota) + (p.actual.value - s.quota);
    }
  }

  lemma {:induction false} NothingToSettle(s: State, p: Poll, again: nat)
    requires !p.saved && Effective(p) == Success && !Settles(s, p)
    ensures Run(s, seq(again, _ => p)) == s
    decreases again
  {
    if again > 0 {
      var polls := seq(again, _ => p);
      assert polls[..again - 1] == seq(again - 1, _ => p);
      NothingToSettle(s, p, again - 1);
    }
  }

  /** However often a success is polled again, with the same tokens and ratios, it charges nothing more
      if and only if the row was saved or there was nothing to charge in the first place. */
  lemma RepeatedSuccessIff(s: State, p: Poll, again: nat)
    requires Effective(p) == Success && again > 0
    ensures Run(Step(s, p), seq(again, _ => p)).net == Step(s, p).net <==> p.saved || !Settles(s, p)
  {
    if p.saved {
      SuccessIdempotent(s, p, again);
    } else if Settles(s, p) {
      var delta := p.actual.value - s.quota;
      UnsavedSettlementRepeats(Step(s, p), p, again);
      assert again * delta != 0;
    } else {
      NothingToSettle(Step(s, p), p, again);
    }
  }

  // ---------------------------------------------------------------- in place

  class Task {
    var status: Status
    var quota: nat

    constructor (preConsumed: nat)
      ensures status == NotStart && quota == preConsumed
    {
      status, quota := NotStart, preConsumed;
    }
  }

  /** The stored row, and the quota account the poll moves money on. */
  class Billing {
    var status: Status
    var quota: nat
    var net: int
    var refunds: nat

    function AsState(): State
      reads this
    {
      State(status, quota, net, refunds)
    }

    constructor (preConsumed: nat)
      ensures AsState() == State(NotStart, preConsumed, preConsumed, 0)
    {
      status, quota, net, refunds := NotStart, preConsumed, preConsumed, 0;
    }

    /** Token settlement: charge or return the difference, and note the new quota on its record. */
    method Settle(task: Task, p: Poll)
      requires p.actual.Some?
      modifies this`net, task`quota
      ensures net == old(net) + if p.charged then p.actual.value - old(task.quota) else 0
      ensures task.quota == if p.charged then p.actual.value else old(task.quota)
    {
      var delta := p.actual.value - task.quota;
      if delta > 0 {
        if p.charged {
          net := net + delta;
          task.quota := p.actual.value;
        }
      } else if delta < 0 {
        if p.charged {
          net := net - (-delta);
          task.quota := p.actual.value;
        }
      }
    }

    method UpdateVideoSingleTask(p: Poll)
      modifies this
      ensures AsState() == Step(old(AsState()), p)
    {
      var task := new Task(quota);
      task.status := status;
      var shouldRefund := false;
      var before := task.quota;
      var preStatus := task.status;
      var result := Effective(p);
      task.status := result;
      if result == Success {
        if p.actual.Some? { Settle(task, p); }
      } else if result == Failure {
        if before != 0 && preStatus != Failure { shouldRefund := true; }
      } else if result == NotStart || result == Unknown {
        return;
      }
      if p.saved {
        status, quota := task.status, task.quota;
      } else {
        shouldRefund := false;
      }
      if shouldRefund {
        if p.charged { net := net - before; }
        refunds := refunds + 1;
      }
    }
  }
}
