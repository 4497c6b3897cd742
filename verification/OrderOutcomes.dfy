/**
 What the payment callbacks of OrderLock bring about, whatever happens beside them: once a callback
 has its order's lock, which row and which credit it leaves, in plain figures, for every order, every
 statement that succeeds or fails and every interleaving with other goroutines and requests.
 */
module OrderOutcomes {
  import opened OrderLock

  // ---------------------------------------------------------------- one order's credits

  function CreditsOf(credits: seq<Credit>, t: string): seq<Credit> {
    if credits == [] then []
    else
      var last := credits[|credits| - 1];
      CreditsOf(credits[..|credits| - 1], t) + if last.trade == t then [last] else []
  }

  lemma CreditsOfMore(credits: seq<Credit>, c: Credit, t: string)
    ensures CreditsOf(credits + [c], t) == CreditsOf(credits, t) + if c.trade == t then [c] else []
  {
    assert (credits + [c])[..|credits|] == credits;
  }

  lemma {:induction false} NoCredits(d: Database, t: string)
    requires Uncredited(d, t)
    ensures CreditsOf(d.credits, t) == []
    decreases |d.credits|
  {
    var n := |d.credits|;
    if n > 0 {
      assert d.credits[n - 1].trade != t;
      NoCredits(d.(credits := d.credits[..n - 1]), t);
    }
  }

  // ---------------------------------------------------------------- one step of somebody else

  predicate Mine(a: Action, p: nat) { a.Run? && a.p == p }

  /** Nobody has anything left to write for this order: it is not pending, and no callback is past its
      reading of it. */
  ghost predicate Closed(s: State, t: string) {
    && t in s.db.orders && s.db.orders[t].status != Pending
    && forall q :: q in s.procs && s.procs[q].job.trade == t ==> !s.procs[q].pc.WriteRow? && !s.procs[q].pc.AddQuota?
  }

  /** A callback for another order, or one that is not in its body, leaves this order alone. */
  lemma ElsewhereLeaves(s: State, q: nat, ok: bool, t: string)
    requires q in s.procs && CanRun(s.lock, s.procs[q]) && t in s.db.orders
    requires s.procs[q].job.trade != t || !(s.procs[q].pc.ReadRow? || s.procs[q].pc.WriteRow? || s.procs[q].pc.AddQuota?)
    ensures var d' := RunStep(s, q, s.procs[q], ok).db;
            t in d'.orders && d'.orders[t] == s.db.orders[t] && CreditsOf(d'.credits, t) == CreditsOf(s.db.credits, t)
  {
    var x := s.procs[q];
    var d, d' := s.db, RunStep(s, q, x, ok).db;
    if d'.credits != d.credits {
      assert d'.credits == d.credits + [d'.credits[|d.credits|]];
      CreditsOfMore(d.credits, d'.credits[|d.credits|], t);
    }
  }

  /** Of what is written without the lock, only giving up touches an order that is not Waffo's. */
  lemma OutsideLeaves(s: State, a: Action, t: string)
    requires Inv(s) && Enabled(s, a) && !a.Run? && t in s.db.orders
    requires a != GiveUp(t) && (a == WaffoFail(t) ==> s.db.orders[t].provider != Waffo || s.db.orders[t].status != Pending)
    ensures var d' := Next(s, a).db;
            t in d'.orders && d'.orders[t] == s.db.orders[t] && d'.credits == s.db.credits
  {}

  lemma OthersStay(s: State, a: Action, p: nat)
    requires Enabled(s, a) && p in s.procs && !Mine(a, p)
    ensures p in Next(s, a).procs && Next(s, a).procs[p] == s.procs[p]
  {}

  /** While a callback holds its order nobody else writes it. */
  lemma OthersLeave(s: State, a: Action, p: nat, t: string)
    requires Inv(s) && Enabled(s, a) && p in s.procs && !Mine(a, p) && t == s.procs[p].job.trade
    requires Holding(s.procs[p]) && t in s.db.orders && !Overwrites(s.db.orders[t].provider)
    ensures var s' := Next(s, a);
            && p in s'.procs && s'.procs[p] == s.procs[p] && t in s'.db.orders && s'.db.orders[t] == s.db.orders[t]
            && CreditsOf(s'.db.credits, t) == CreditsOf(s.db.credits, t)
  {
    OthersStay(s, a, p);
    if a.Run? {
      if s.procs[a.p].job.trade == t && Holding(s.procs[a.p]) { HoldersDiffer(s, p, a.p); }
      ElsewhereLeaves(s, a.p, a.ok, t);
    } else {
      GivesUp(s, a, t);
      OutsideLeaves(s, a, t);
    }
  }

  lemma GivesUp(s: State, a: Action, t: string)
    requires Inv(s) && Enabled(s, a)
    ensures a == GiveUp(t) ==> t in s.db.orders && Overwrites(s.db.orders[t].provider)
  {
    if a == GiveUp(t) { assert RequestOk(s.db, t); }
  }

  // ---------------------------------------------------------------- an order that is done with

  lemma ReadsClosed(s: State, q: nat, ok: bool, t: string)
    requires Closed(s, t) && q in s.procs && s.procs[q].job.trade == t && s.procs[q].pc.ReadRow?
    ensures ReadStep(s, q, s.procs[q], ok).db == s.db && ReadStep(s, q, s.procs[q], ok).procs[q].pc.UnlockLoad?
  {}

  lemma RunsClosed(s: State, q: nat, ok: bool, t: string)
    requires Inv(s) && Closed(s, t) && q in s.procs && CanRun(s.lock, s.procs[q])
    ensures var s' := RunStep(s, q, s.procs[q], ok);
            Closed(s', t) && s'.db.orders[t] == s.db.orders[t] && CreditsOf(s'.db.credits, t) == CreditsOf(s.db.credits, t)
  {
    var x := s.procs[q];
    if x.job.trade == t && x.pc.ReadRow? {
      ReadsClosed(s, q, ok, t);
    } else {
      ElsewhereLeaves(s, q, ok, t);
    }
    StaysOut(s, q, ok, t);
  }

  lemma StaysOut(s: State, q: nat, ok: bool, t: string)
    requires Closed(s, t) && q in s.procs && CanRun(s.lock, s.procs[q])
    ensures var s' := RunStep(s, q, s.procs[q], ok);
            s'.procs == s.procs[q := s'.procs[q]] && s'.procs[q].job == s.procs[q].job
            && (s.procs[q].job.trade == t ==> !s'.procs[q].pc.WriteRow? && !s'.procs[q].pc.AddQuota?)
  {}

  /** Such an order keeps its credits for good, and its row too, unless its creating request gives up. */
  lemma ClosedStays(s: State, a: Action, t: string)
    requires Inv(s) && Enabled(s, a) && Closed(s, t)
    ensures var s' := Next(s, a);
      && Closed(s', t) && CreditsOf(s'.db.credits, t) == CreditsOf(s.db.credits, t)
      && s'.db.orders[t] == if a == GiveUp(t) then s.db.orders[t].(status := Failed) else s.db.orders[t]
  {
    if a.Run? {
      RunsClosed(s, a.p, a.ok, t);
    } else if a == GiveUp(t) {
      assert RequestOk(s.db, t);
    } else {
      OutsideLeaves(s, a, t);
    }
  }

  lemma {:induction false} ClosedForGood(states: seq<State>, acts: seq<Action>, i: nat, j: nat, t: string)
    requires IsRun(states, acts) && i <= j < |states| && Closed(states[i], t)
    ensures Closed(states[j], t) && CreditsOf(states[j].db.credits, t) == CreditsOf(states[i].db.credits, t)
    ensures states[j].db.orders[t] == if GivenUp(acts, i, j, t) then states[i].db.orders[t].(status := Failed) else states[i].db.orders[t]
  {
    if i < j {
      ClosedForGood(states, acts, i, j - 1, t);
      RunInv(states, acts, j - 1);
      ClosedStays(states[j-1], acts[j-1], t);
      GivenUpMore(acts, i, j, t);
    }
  }

  lemma GivenUpMore(acts: seq<Action>, i: nat, j: nat, t: string)
    requires i < j <= |acts|
    ensures GivenUp(acts, i, j, t) <==> GivenUp(acts, i, j - 1, t) || acts[j-1] == GiveUp(t)
  {
    if acts[j-1] == GiveUp(t) { assert GivenUp(acts, i, j, t); }
    if k :| i <= k < j - 1 && acts[k] == GiveUp(t) { assert GivenUp(acts, i, j, t); }
  }

  lemma {:induction false} OverwriterOnly(states: seq<State>, acts: seq<Action>, i: nat, j: nat, t: string)
    requires IsRun(states, acts) && i <= j < |states| && t in states[i].db.orders && !Overwrites(states[i].db.orders[t].provider)
    ensures !GivenUp(acts, i, j, t)
  {
    RunIsRowRun(states, acts);
    OnlyOverwriters(states, acts, i, j, t);
  }

  // ---------------------------------------------------------------- callbacks of several statements

  /** How the statements of goroutine p between states i and j went. */
  function Oks(acts: seq<Action>, p: nat, i: nat, j: nat): seq<bool>
    requires i <= j <= |acts|
  {
    if i == j then [] else MoreOks(Oks(acts, p, i, j - 1), acts[j-1], p)
  }

  /** A callback of this job has its order's lock and the order is as given, without a credit. */
  ghost predicate Poised(s: State, p: nat, pc: PC, job: Job, o: Order) {
    && p in s.procs && s.procs[p].pc == pc && s.procs[p].job == job
    && job.trade in s.db.orders && s.db.orders[job.trade] == o && CreditsOf(s.db.credits, job.trade) == []
  }

  /** Where an Epay callback and its pending order stand after those statements: read, stored, credited. */
  ghost predicate EpayAfter(s: State, p: nat, job: Job, o: Order, oks: seq<bool>)
    requires job.EpayNotify?
  {
    var t, paid := job.trade, o.(status := Success, paymentMethod := job.paidWith);
    if oks == [] then Poised(s, p, ReadRow, job, o)
    else if !oks[0] then |oks| == 1 ==> Poised(s, p, UnlockLoad, job, o)
    else if |oks| == 1 then Poised(s, p, WriteRow, job, o)
    else if !oks[1] then |oks| == 2 ==> Poised(s, p, UnlockLoad, job, o)
    else if |oks| == 2 then Poised(s, p, AddQuota, job, paid)
    else
      && Closed(s, t) && s.db.orders[t] == paid
      && CreditsOf(s.db.credits, t) == if oks[2] && o.amount >= 0 then [Credit(t, o.userId, (o.amount * 500000) as real)] else []
  }

  lemma EpayReads(s: State, p: nat, job: Job, o: Order, oks: seq<bool>, ok: bool)
    requires job.EpayNotify? && o.provider == Epay && o.status == Pending && EpayAfter(s, p, job, o, oks)
    requires oks == [] && Enabled(s, Run(p, ok))
    ensures EpayAfter(Next(s, Run(p, ok)), p, job, o, oks + [ok])
  {
    assert Next(s, Run(p, ok)) == ReadStep(s, p, s.procs[p], ok);
  }

  lemma EpayStores(s: State, p: nat, job: Job, o: Order, oks: seq<bool>, ok: bool)
    requires Inv(s) && job.EpayNotify? && EpayAfter(s, p, job, o, oks) && oks == [true] && Enabled(s, Run(p, ok))
    ensures EpayAfter(Next(s, Run(p, ok)), p, job, o, oks + [ok])
  {
    assert RowInv(s.db, s.procs[p]);
    assert Next(s, Run(p, ok)) == WriteStep(s, p, s.procs[p], ok);
  }

  lemma EpayCredits(s: State, p: nat, job: Job, o: Order, oks: seq<bool>, ok: bool)
    requires Inv(s) && job.EpayNotify? && o.provider == Epay && EpayAfter(s, p, job, o, oks)
    requires oks == [true, true] && Enabled(s, Run(p, ok))
    ensures EpayAfter(Next(s, Run(p, ok)), p, job, o, oks + [ok])
  {
    assert RowInv(s.db, s.procs[p]);
    assert Next(s, Run(p, ok)) == CreditStep(s, p, s.procs[p], ok);
    EpayIncrease(s.db, job.trade, s.procs[p].row, ok);
    CreditCloses(s, p, ok, job.trade);
  }

  lemma EpayIncrease(d: Database, t: string, row: Order, ok: bool)
    requires row.provider == Epay && CreditsOf(d.credits, t) == []
    ensures Increase(d, t, row, ok).orders == d.orders
    ensures CreditsOf(Increase(d, t, row, ok).credits, t) ==
            if ok && row.amount >= 0 then [Credit(t, row.userId, (row.amount * 500000) as real)] else []
  {
    CreditsOfMore(d.credits, Credit(t, row.userId, (row.amount * 500000) as real), t);
  }

  lemma CreditCloses(s: State, p: nat, ok: bool, t: string)
    requires Inv(s) && p in s.procs && s.procs[p].pc.AddQuota? && s.procs[p].job.trade == t
    ensures Closed(CreditStep(s, p, s.procs[p], ok), t)
  {
    assert RowInv(s.db, s.procs[p]);
    BodyAlone(s, p, t);
  }

  /** Nobody else is past reading the order a callback holds. */
  lemma BodyAlone(s: State, p: nat, t: string)
    requires Inv(s) && p in s.procs && Holding(s.procs[p]) && s.procs[p].job.trade == t
    ensures forall q :: q in s.procs && q != p && s.procs[q].job.trade == t ==> !Holding(s.procs[q])
  {
    forall q | q in s.procs && q != p && s.procs[q].job.trade == t ensures !Holding(s.procs[q]) {
      if Holding(s.procs[q]) { HoldersDiffer(s, p, q); }
    }
  }

  lemma EpayMoves(s: State, p: nat, job: Job, o: Order, oks: seq<bool>, ok: bool)
    requires Inv(s) && job.EpayNotify? && o.provider == Epay && o.status == Pending && EpayAfter(s, p, job, o, oks)
    requires Enabled(s, Run(p, ok))
    ensures EpayAfter(Next(s, Run(p, ok)), p, job, o, oks + [ok])
  {
    if oks == [] {
      EpayReads(s, p, job, o, oks, ok);
    } else if oks == [true] {
      EpayStores(s, p, job, o, oks, ok);
    } else if oks == [true, true] {
      EpayCredits(s, p, job, o, oks, ok);
    } else if |oks| >= 3 && oks[0] && oks[1] {
      EpayDone(s, Run(p, ok), p, job, o, oks, oks + [ok]);
    } else {
      EpayFailed(s, Run(p, ok), p, job, o, oks, ok);
    }
  }

  /** After a failing statement there is nothing more to say. */
  lemma EpayFailed(s: State, a: Action, p: nat, job: Job, o: Order, oks: seq<bool>, ok: bool)
    requires job.EpayNotify? && Enabled(s, a) && |oks| >= 1 && (!oks[0] || (|oks| >= 2 && !oks[1]))
    ensures EpayAfter(Next(s, a), p, job, o, oks + [ok])
  {
    var more := oks + [ok];
    assert |more| >= 2 && more[0] == oks[0] && (|oks| >= 2 ==> more[1] == oks[1]);
  }

  lemma EpayDone(s: State, a: Action, p: nat, job: Job, o: Order, oks: seq<bool>, more: seq<bool>)
    requires Inv(s) && job.EpayNotify? && o.provider == Epay && EpayAfter(s, p, job, o, oks) && Enabled(s, a)
    requires |oks| >= 3 && oks[0] && oks[1] && oks <= more
    ensures EpayAfter(Next(s, a), p, job, o, more)
  {
    GivesUp(s, a, job.trade);
    ClosedStays(s, a, job.trade);
  }

  lemma EpayWaits(s: State, a: Action, p: nat, job: Job, o: Order, oks: seq<bool>)
    requires Inv(s) && job.EpayNotify? && o.provider == Epay && EpayAfter(s, p, job, o, oks) && Enabled(s, a) && !Mine(a, p)
    ensures EpayAfter(Next(s, a), p, job, o, oks)
  {
    var t := job.trade;
    if |oks| >= 3 && oks[0] && oks[1] {
      EpayDone(s, a, p, job, o, oks, oks);
    } else if oks == [] || |oks| == 1 || (|oks| == 2 && oks[0]) {
      OthersLeave(s, a, p, t);
    }
  }

  function MoreOks(oks: seq<bool>, a: Action, p: nat): seq<bool> { oks + if Mine(a, p) then [a.ok] else [] }

  lemma EpayStep(s: State, a: Action, p: nat, job: Job, o: Order, oks: seq<bool>)
    requires Inv(s) && job.EpayNotify? && o.provider == Epay && o.status == Pending && EpayAfter(s, p, job, o, oks) && Enabled(s, a)
    ensures EpayAfter(Next(s, a), p, job, o, MoreOks(oks, a, p))
  {
    if Mine(a, p) {
      EpayMoves(s, p, job, o, oks, a.ok);
    } else {
      EpayWaits(s, a, p, job, o, oks);
      assert oks + [] == oks;
    }
  }

  lemma EpayStarts(s: State, p: nat, job: Job, o: Order)
    requires Inv(s) && job.EpayNotify? && p in s.procs && s.procs[p].pc.ReadRow? && s.procs[p].job == job
    requires PendingAt(s.db, job.trade, Epay) && o == s.db.orders[job.trade]
    ensures EpayAfter(s, p, job, o, [])
  {
    PendingUncredited(s.db, job.trade);
  }

  /** An Epay callback that finds its order pending: whatever others do meanwhile, once its statements
      have succeeded the order is stored as successful under the method it was paid with and its user
      has been credited its amount times 500000, exactly once and for good. A failing read or store
      leaves the order pending and uncredited; an amount below zero, or a failing credit, a successful
      order without one. */
  lemma {:induction false} EpayOutcome(states: seq<State>, acts: seq<Action>, i: nat, j: nat, p: nat)
    requires IsRun(states, acts) && i <= j < |states| && p in states[i].procs
    requires var x, d := states[i].procs[p], states[i].db; x.pc.ReadRow? && x.job.EpayNotify? && PendingAt(d, x.job.trade, Epay)
    ensures var job := states[i].procs[p].job;
            EpayAfter(states[j], p, job, states[i].db.orders[job.trade], Oks(acts, p, i, j))
  {
    var job := states[i].procs[p].job;
    var o := states[i].db.orders[job.trade];
    if i == j {
      RunInv(states, acts, i);
      EpayStarts(states[i], p, job, o);
    } else {
      EpayOutcome(states, acts, i, j - 1, p);
      RunInv(states, acts, j - 1);
      EpayStep(states[j-1], acts[j-1], p, job, o, Oks(acts, p, i, j - 1));
    }
  }

  lemma PendingUncredited(d: Database, t: string)
    requires Ledger(d) && t in d.orders && d.orders[t].status == Pending
    ensures CreditsOf(d.credits, t) == []
  {
    forall k | 0 <= k < |d.credits| ensures d.credits[k].trade != t { assert Booked(d, d.credits[k]); }
    NoCredits(d, t);
  }

  // ---------------------------------------------------------------- a failed Stripe payment

  /** Where a callback for a failed Stripe payment stands after those statements: read, stored. */
  ghost predicate StripeFailedAfter(s: State, p: nat, job: Job, o: Order, oks: seq<bool>) {
    var t := job.trade;
    if oks == [] then Poised(s, p, ReadRow, job, o)
    else if !oks[0] then |oks| == 1 ==> Poised(s, p, UnlockLoad, job, o)
    else if |oks| == 1 then Poised(s, p, WriteRow, job, o)
    else if !oks[1] then |oks| == 2 ==> Poised(s, p, UnlockLoad, job, o)
    else Closed(s, t) && s.db.orders[t] == o.(status := Failed) && CreditsOf(s.db.credits, t) == []
  }

  lemma FailureReads(s: State, p: nat, job: Job, o: Order, oks: seq<bool>, ok: bool)
    requires job.StripeFailed? && o.provider == Stripe && o.status == Pending && StripeFailedAfter(s, p, job, o, oks)
    requires oks == [] && Enabled(s, Run(p, ok))
    ensures StripeFailedAfter(Next(s, Run(p, ok)), p, job, o, oks + [ok])
  {
    assert Next(s, Run(p, ok)) == ReadStep(s, p, s.procs[p], ok);
  }

  lemma FailureStores(s: State, p: nat, job: Job, o: Order, oks: seq<bool>, ok: bool)
    requires Inv(s) && job.StripeFailed? && StripeFailedAfter(s, p, job, o, oks) && oks == [true] && Enabled(s, Run(p, ok))
    ensures StripeFailedAfter(Next(s, Run(p, ok)), p, job, o, oks + [ok])
  {
    assert RowInv(s.db, s.procs[p]);
    assert Next(s, Run(p, ok)) == WriteStep(s, p, s.procs[p], ok);
    BodyAlone(s, p, job.trade);
  }

  lemma FailureMoves(s: State, p: nat, job: Job, o: Order, oks: seq<bool>, ok: bool)
    requires Inv(s) && job.StripeFailed? && o.provider == Stripe && o.status == Pending
    requires StripeFailedAfter(s, p, job, o, oks) && Enabled(s, Run(p, ok))
    ensures StripeFailedAfter(Next(s, Run(p, ok)), p, job, o, oks + [ok])
  {
    if oks == [] {
      FailureReads(s, p, job, o, oks, ok);
    } else if oks == [true] {
      FailureStores(s, p, job, o, oks, ok);
    } else if |oks| >= 2 && oks[0] && oks[1] {
      FailureDone(s, Run(p, ok), p, job, o, oks, oks + [ok]);
    } else {
      var more := oks + [ok];
      assert |more| >= 2 && more[0] == oks[0] && (|oks| >= 2 ==> more[1] == oks[1]);
    }
  }

  lemma FailureDone(s: State, a: Action, p: nat, job: Job, o: Order, oks: seq<bool>, more: seq<bool>)
    requires Inv(s) && o.provider == Stripe && StripeFailedAfter(s, p, job, o, oks) && Enabled(s, a)
    requires |oks| >= 2 && oks[0] && oks[1] && oks <= more
    ensures StripeFailedAfter(Next(s, a), p, job, o, more)
  {
    GivesUp(s, a, job.trade);
    ClosedStays(s, a, job.trade);
  }

  lemma FailureWaits(s: State, a: Action, p: nat, job: Job, o: Order, oks: seq<bool>)
    requires Inv(s) && o.provider == Stripe && StripeFailedAfter(s, p, job, o, oks) && Enabled(s, a) && !Mine(a, p)
    ensures StripeFailedAfter(Next(s, a), p, job, o, oks)
  {
    if |oks| >= 2 && oks[0] && oks[1] {
      FailureDone(s, a, p, job, o, oks, oks);
    } else if |oks| <= 1 || (|oks| == 2 && oks[0]) {
      OthersLeave(s, a, p, job.trade);
    }
  }

  lemma FailureStep(s: State, a: Action, p: nat, job: Job, o: Order, oks: seq<bool>)
    requires Inv(s) && job.StripeFailed? && o.provider == Stripe && o.status == Pending
    requires StripeFailedAfter(s, p, job, o, oks) && Enabled(s, a)
    ensures StripeFailedAfter(Next(s, a), p, job, o, MoreOks(oks, a, p))
  {
    if Mine(a, p) {
      FailureMoves(s, p, job, o, oks, a.ok);
    } else {
      FailureWaits(s, a, p, job, o, oks);
      assert oks + [] == oks;
    }
  }

  lemma FailureStarts(s: State, p: nat, job: Job, o: Order)
    requires Inv(s) && p in s.procs && s.procs[p].pc.ReadRow? && s.procs[p].job == job
    requires PendingAt(s.db, job.trade, Stripe) && o == s.db.orders[job.trade]
    ensures StripeFailedAfter(s, p, job, o, [])
  {
    PendingUncredited(s.db, job.trade);
  }

  /** A callback for a failed Stripe payment that finds its order pending stores it as failed, for good
      and without a credit, once both its statements have succeeded. */
  lemma {:induction false} StripeFailedOutcome(states: seq<State>, acts: seq<Action>, i: nat, j: nat, p: nat)
    requires IsRun(states, acts) && i <= j < |states| && p in states[i].procs
    requires var x, d := states[i].procs[p], states[i].db; x.pc.ReadRow? && x.job.StripeFailed? && PendingAt(d, x.job.trade, Stripe)
    ensures var job := states[i].procs[p].job;
            StripeFailedAfter(states[j], p, job, states[i].db.orders[job.trade], Oks(acts, p, i, j))
  {
    var job := states[i].procs[p].job;
    var o := states[i].db.orders[job.trade];
    if i == j {
      RunInv(states, acts, i);
      FailureStarts(states[i], p, job, o);
    } else {
      StripeFailedOutcome(states, acts, i, j - 1, p);
      RunInv(states, acts, j - 1);
      FailureStep(states[j-1], acts[j-1], p, job, o, Oks(acts, p, i, j - 1));
    }
  }

  // ---------------------------------------------------------------- callbacks of one transaction

  /** What a pending order becomes, and the quotas its user is credited. */
  datatype Due = Nothing | Becomes(status: Status, quotas: seq<real>)

  /** What each callback owes a pending order, in the order's own figures. */
  function DueFor(job: Job, o: Order): Due {
    match job
    case StripeExpired(_) => if o.provider == Stripe then Becomes(Expired, []) else Nothing
    case Recharge(_, provider) =>
      if o.provider != provider then Nothing
      else if provider == Stripe then Becomes(Success, [o.money * 500000.0])
      else if provider == Creem then Becomes(Success, [o.amount as real])
      else if o.amount > 0 then Becomes(Success, [(o.amount * 500000) as real])
      else Nothing
    case AdminComplete(_) =>
      var quota := if o.provider == Stripe then (o.money * 500000.0).Floor else o.amount * 500000;
      if quota > 0 then Becomes(Success, [quota as real]) else Nothing
    case _ => Nothing
  }

  function Credits(t: string, userId: int, quotas: seq<real>): seq<Credit> {
    seq(|quotas|, k requires 0 <= k < |quotas| => Credit(t, userId, quotas[k]))
  }

  predicate OneTransaction(job: Job) { job.StripeExpired? || job.Recharge? || job.AdminComplete? }

  /** The order became what was due. */
  ghost predicate Done(d: Database, t: string, o: Order, due: Due) {
    && due.Becomes? && t in d.orders && d.orders[t] == o.(status := due.status)
    && CreditsOf(d.credits, t) == Credits(t, o.userId, due.quotas)
  }

  lemma SettleDone(d: Database, t: string, o: Order, quota: real, positive: bool)
    requires t in d.orders && d.orders[t] == o && CreditsOf(d.credits, t) == []
    ensures if positive && quota <= 0.0 then Settle(d, t, quota, positive) == d
            else Done(Settle(d, t, quota, positive), t, o, Becomes(Success, [quota]))
  {
    CreditsOfMore(d.credits, Credit(t, o.userId, quota), t);
    assert Credits(t, o.userId, [quota]) == [Credit(t, o.userId, quota)];
  }

  lemma ExpiryDone(d: Database, t: string, o: Order)
    requires t in d.orders && d.orders[t] == o && o.status == Pending && o.provider == Stripe && CreditsOf(d.credits, t) == []
    ensures Done(MarkPending(d, t, Stripe, Expired), t, o, Becomes(Expired, []))
  {}

  lemma RechargeDue(job: Job, o: Order)
    requires job.Recharge?
    ensures DueFor(job, o) == if o.provider != job.provider || (job.provider !in {Stripe, Creem} && QuotaFor(o) <= 0.0) then Nothing
                              else Becomes(Success, [QuotaFor(o)])
  {}

  lemma DueTransacts(d: Database, job: Job, o: Order)
    requires OneTransaction(job) && job.trade in d.orders && d.orders[job.trade] == o && o.status == Pending
    requires CreditsOf(d.credits, job.trade) == []
    ensures var d', due := Transact(d, job, true), DueFor(job, o); if due.Nothing? then d' == d else Done(d', job.trade, o, due)
  {
    match job
    case StripeExpired(t) => if o.provider == Stripe { ExpiryDone(d, t, o); }
    case Recharge(_, _) => RechargeTransacts(d, job, o);
    case AdminComplete(_) => CompletionTransacts(d, job, o);
  }

  lemma RechargeTransacts(d: Database, job: Job, o: Order)
    requires job.Recharge? && job.trade in d.orders && d.orders[job.trade] == o && o.status == Pending
    requires CreditsOf(d.credits, job.trade) == []
    ensures var d', due := Transact(d, job, true), DueFor(job, o); if due.Nothing? then d' == d else Done(d', job.trade, o, due)
  {
    RechargeDue(job, o);
    SettleDone(d, job.trade, o, QuotaFor(o), job.provider !in {Stripe, Creem});
    if o.provider == job.provider {
      assert Transact(d, job, true) == Settle(d, job.trade, QuotaFor(o), job.provider !in {Stripe, Creem});
    }
  }

  lemma CompletionTransacts(d: Database, job: Job, o: Order)
    requires job.AdminComplete? && job.trade in d.orders && d.orders[job.trade] == o && o.status == Pending
    requires CreditsOf(d.credits, job.trade) == []
    ensures var d', due := Transact(d, job, true), DueFor(job, o); if due.Nothing? then d' == d else Done(d', job.trade, o, due)
  {
    CompletionDue(job, o);
    SettleDone(d, job.trade, o, AdminQuota(o), true);
    assert Transact(d, job, true) == Settle(d, job.trade, AdminQuota(o), true);
  }

  lemma CompletionDue(job: Job, o: Order)
    requires job.AdminComplete?
    ensures DueFor(job, o) == if AdminQuota(o) <= 0.0 then Nothing else Becomes(Success, [AdminQuota(o)])
  {
    assert o.provider != Stripe ==> Worth(o).Floor == o.amount * QuotaPerUnit;
  }

  lemma TransactionStep(s: State, p: nat, job: Job, o: Order)
    requires Inv(s) && Poised(s, p, ReadRow, job, o) && OneTransaction(job) && o.status == Pending && Enabled(s, Run(p, true))
    ensures var s', due := Next(s, Run(p, true)), DueFor(job, o);
            if due.Nothing? then s'.db == s.db else Closed(s', job.trade) && Done(s'.db, job.trade, o, due)
  {
    assert Next(s, Run(p, true)) == ReadStep(s, p, s.procs[p], true);
    DueTransacts(s.db, job, o);
    TransactionLeaves(s, p);
    if DueFor(job, o).Becomes? { TransactionCloses(s, p, job.trade); }
  }

  lemma TransactionCloses(s: State, p: nat, t: string)
    requires Inv(s) && p in s.procs && s.procs[p].pc.ReadRow? && s.procs[p].job.trade == t && OneTransaction(s.procs[p].job)
    requires var d' := Transact(s.db, s.procs[p].job, true); t in d'.orders && d'.orders[t].status != Pending
    ensures Closed(ReadStep(s, p, s.procs[p], true), t)
  {
    BodyAlone(s, p, t);
    TransactionLeaves(s, p);
  }

  lemma TransactionLeaves(s: State, p: nat)
    requires p in s.procs && OneTransaction(s.procs[p].job)
    ensures ReadStep(s, p, s.procs[p], true).procs == s.procs[p := s.procs[p].(pc := UnlockLoad)]
  {}

  /** A callback that does its work in one transaction and finds its order pending: once that succeeds
      the order is stored and its user credited as DueFor says, exactly once and for good, but for a
      creating request that gives up; if nothing is due, nothing is changed. */
  lemma TransactionOutcome(states: seq<State>, acts: seq<Action>, i: nat, j: nat, p: nat)
    requires IsRun(states, acts) && i < j < |states| && p in states[i].procs && acts[i] == Run(p, true)
    requires var x, d := states[i].procs[p], states[i].db;
             x.pc.ReadRow? && OneTransaction(x.job) && x.job.trade in d.orders && d.orders[x.job.trade].status == Pending
    ensures var job, d := states[i].procs[p].job, states[j].db; var t := job.trade;
      var o := states[i].db.orders[t]; var due := DueFor(job, o);
      if due.Nothing? then states[i+1].db == states[i].db
      else && t in d.orders && d.orders[t] == o.(status := if GivenUp(acts, i + 1, j, t) then Failed else due.status)
           && CreditsOf(d.credits, t) == Credits(t, o.userId, due.quotas)
  {
    var job := states[i].procs[p].job;
    var o := states[i].db.orders[job.trade];
    RunInv(states, acts, i);
    PendingUncredited(states[i].db, job.trade);
    TransactionStep(states[i], p, job, o);
    if DueFor(job, o).Becomes? { ClosedForGood(states, acts, i + 1, j, job.trade); }
  }

  // ---------------------------------------------------------------- callbacks that change nothing

  predicate Concerns(job: Job, o: Order) {
    && o.status == Pending
    && match job
       case EpayNotify(_, _) => o.provider == Epay
       case StripeFailed(_) => o.provider == Stripe
       case _ => DueFor(job, o).Becomes?
  }

  lemma SettleChanges(d: Database, t: string, quota: real, positive: bool)
    requires t in d.orders && d.orders[t].status == Pending
    ensures Settle(d, t, quota, positive) == d <==> positive && quota <= 0.0
  {
    var d' := Settle(d, t, quota, positive);
    if !(positive && quota <= 0.0) { assert |d'.credits| == |d.credits| + 1; }
  }

  /** A callback goes away leaving everything as it was if and only if its first statement fails, or it
      finds no order, or one that is not pending or does not concern it. */
  lemma IgnoredIff(s: State, p: nat, ok: bool)
    requires p in s.procs && s.procs[p].pc.ReadRow?
    ensures var job, s' := s.procs[p].job, RunStep(s, p, s.procs[p], ok);
      (s'.db == s.db && s'.procs[p].pc.UnlockLoad?) <==>
      !ok || job.trade !in s.db.orders || !Concerns(job, s.db.orders[job.trade])
  {
    var job, d := s.procs[p].job, s.db;
    var t := job.trade;
    assert RunStep(s, p, s.procs[p], ok) == ReadStep(s, p, s.procs[p], ok);
    if ok && t in d.orders && d.orders[t].status == Pending {
      var o := d.orders[t];
      if job.Recharge? { SettleChanges(d, t, QuotaFor(o), job.provider !in {Stripe, Creem}); }
      if job.AdminComplete? { SettleChanges(d, t, AdminQuota(o), true); }
      if job.StripeExpired? && o.provider == Stripe { assert Transact(d, job, ok).orders[t].status == Expired; }
    }
  }

  // ---------------------------------------------------------------- what is written without the lock

  /** Waffo's webhook for a failed payment fails a pending Waffo order and does nothing else. */
  lemma WebhookFails(s: State, t: string)
    ensures var d' := Next(s, WaffoFail(t)).db;
      && d'.credits == s.db.credits && d'.requests == s.db.requests && d'.orders.Keys == s.db.orders.Keys
      && (forall u :: u in d'.orders && u != t ==> d'.orders[u] == s.db.orders[u])
      && (t in d'.orders ==>
            var o := s.db.orders[t];
            d'.orders[t] == if o.provider == Waffo && o.status == Pending then o.(status := Failed) else o)
  {}

  /** A new order is stored as it is, and its creating request noted if it may write again; an answer only
      ends that. */
  lemma InsertStores(s: State, t: string, o: Order)
    ensures var d' := Outside(s.db, Insert(t, o));
      && d'.orders == s.db.orders[t := o] && d'.credits == s.db.credits
      && d'.requests == (if o.provider == Waffo || o.provider == Pancake then s.db.requests[t := o] else s.db.requests)
    ensures Outside(s.db, Answered(t)) == Database(s.db.orders, s.db.credits, s.db.requests - {t})
  {}

  /** A creating request that was answered, or gave up, does not give up any more. */
  lemma {:induction false} AnsweredForGood(states: seq<State>, acts: seq<Action>, i: nat, j: nat, t: string)
    requires IsRun(states, acts) && i < j < |states| && acts[i] in {Answered(t), GiveUp(t)}
    ensures t in states[j].db.orders && t !in states[j].db.requests && !GivenUp(acts, i + 1, j, t)
  {
    RunInv(states, acts, j - 1);
    if i + 1 == j {
      assert RequestOk(states[i].db, t);
      assert states[j].db == Outside(states[i].db, acts[i]);
    } else {
      AnsweredForGood(states, acts, i, j - 1, t);
      RequestsGo(states[j-1], acts[j-1], t);
      GivenUpMore(acts, i + 1, j, t);
    }
  }

  lemma RequestsGo(s: State, a: Action, t: string)
    requires Inv(s) && Enabled(s, a) && t in s.db.orders && t !in s.db.requests
    ensures t in Next(s, a).db.orders && t !in Next(s, a).db.requests && a != GiveUp(t)
  {
    if a.Run? {
      RunKeepsRest(s, a.p, a.ok);
      assert RowInv(s.db, s.procs[a.p]);
      RunChanges(s, a.p, a.ok, t);
    }
  }

  // ---------------------------------------------------------------- every callback gets its turn

  /** How far a goroutine has come. */
  function Rank(pc: PC): nat {
    match pc
    case Start => 0 case LookUp => 1 case Create => 2 case Register => 3 case Release => 4 case Acquire => 5
    case ReadRow => 6 case WriteRow => 7 case AddQuota => 8
    case UnlockLoad => 9 case UnlockMutex => 10 case Relock => 11 case Deregister => 12 case Retire => 13 case Unwind => 14
    case Done => 15
  }

  /** Every step of its own takes a goroutine further, and none passes over its body. */
  lemma RankGrows(s: State, p: nat, ok: bool)
    requires p in s.procs && CanRun(s.lock, s.procs[p])
    ensures var x, x' := s.procs[p], RunStep(s, p, s.procs[p], ok).procs[p];
      && x'.job == x.job && Rank(x.pc) < Rank(x'.pc)
      && (Rank(x.pc) < 6 ==> Rank(x'.pc) <= 6)
  {}

  lemma {:induction false} Advances(states: seq<State>, acts: seq<Action>, i: nat, j: nat, p: nat)
    requires IsRun(states, acts) && i <= j < |states| && p in states[i].procs
    ensures p in states[j].procs && states[j].procs[p].job == states[i].procs[p].job
    ensures Rank(states[i].procs[p].pc) + |Oks(acts, p, i, j)| <= Rank(states[j].procs[p].pc)
  {
    if i < j {
      Advances(states, acts, i, j - 1, p);
      if Mine(acts[j-1], p) {
        RankGrows(states[j-1], p, acts[j-1].ok);
      } else {
        OthersStay(states[j-1], acts[j-1], p);
      }
    }
  }

  /** A goroutine takes at most fifteen steps of its own. */
  lemma AtMostFifteenSteps(states: seq<State>, acts: seq<Action>, i: nat, j: nat, p: nat)
    requires IsRun(states, acts) && i <= j < |states| && p in states[i].procs
    ensures |Oks(acts, p, i, j)| <= 15
  {
    Advances(states, acts, i, j, p);
  }

  /** A goroutine that is past its body went through its first statement, once. */
  lemma {:induction false} BodyRan(states: seq<State>, acts: seq<Action>, j: nat, p: nat) returns (i: nat)
    requires IsRun(states, acts) && j < |states| && p in states[j].procs && Rank(states[j].procs[p].pc) > 6
    ensures i < j && p in states[i].procs && states[i].procs[p].pc.ReadRow? && Mine(acts[i], p)
    ensures states[i].procs[p].job == states[j].procs[p].job
    ensures forall k :: 0 <= k < |acts| && k != i && Mine(acts[k], p) ==> !(p in states[k].procs && states[k].procs[p].pc.ReadRow?)
  {
    if Mine(acts[j-1], p) {
      RankGrows(states[j-1], p, acts[j-1].ok);
      if Rank(states[j-1].procs[p].pc) > 6 {
        i := BodyRan(states, acts, j - 1, p);
      } else {
        i := j - 1;
        ReadsOnce(states, acts, i, p);
      }
    } else {
      EarlierProc(states[j-1], acts[j-1], p);
      i := BodyRan(states, acts, j - 1, p);
    }
  }

  lemma EarlierProc(s: State, a: Action, p: nat)
    requires Enabled(s, a) && !Mine(a, p) && p in Next(s, a).procs && Rank(Next(s, a).procs[p].pc) > 0
    ensures p in s.procs && Next(s, a).procs[p] == s.procs[p]
  {}

  lemma ReadsOnce(states: seq<State>, acts: seq<Action>, i: nat, p: nat)
    requires IsRun(states, acts) && i < |acts| && p in states[i].procs && states[i].procs[p].pc.ReadRow? && Mine(acts[i], p)
    ensures forall k :: 0 <= k < |acts| && k != i && Mine(acts[k], p) ==> !(p in states[k].procs && states[k].procs[p].pc.ReadRow?)
  {
    forall k | 0 <= k < |acts| && k != i && Mine(acts[k], p) && p in states[k].procs ensures !states[k].procs[p].pc.ReadRow? {
      var a, b := if k < i then k else i, if k < i then i else k;
      RankGrows(states[a], p, acts[a].ok);
      Advances(states, acts, a + 1, b, p);
    }
  }

  /** And nothing keeps it waiting once it has the order's lock. */
  lemma BodyNeverWaits(states: seq<State>, acts: seq<Action>, k: nat, p: nat, ok: bool)
    requires IsRun(states, acts) && k < |states| && p in states[k].procs && Holding(states[k].procs[p])
    ensures Enabled(states[k], Run(p, ok))
  {
    UnlockFindsOwnMutex(states, acts, k, p);
  }
}
