/**
 The per-order lock of controller/topup.go and the payment callbacks that run under it.

 Goroutines are processes with a program counter; every action below is one atomic
 operation of the Go code: one mutex operation, one access to the concurrent map,
 one increment, one database statement or transaction. Go mutexes do not know their
 owner, so a mutex here is only a bit, and unlocking a free one is a fatal error.
 */
module OrderLock {

  // ---------------------------------------------------------------- data

  datatype Provider = Epay | Stripe | Creem | Waffo | Pancake | Balance
  datatype Status = Pending | Success | Failed | Expired
  datatype Order = Order(provider: Provider, status: Status, paymentMethod: string,
                         userId: int, amount: int, money: real)

  /** One successful addition to a user's quota, as it stands in the update statement. */
  datatype Credit = Credit(trade: string, userId: int, quota: real)

  /** What a callback goroutine does between LockOrder and UnlockOrder. */
  datatype Job =
    | EpayNotify(trade: string, paidWith: string)
    | StripeFailed(trade: string)
    | StripeExpired(trade: string)
    | Recharge(trade: string, provider: Provider)
    | AdminComplete(trade: string)

  datatype PC =
    | Start | LookUp | Create | Register | Release | Acquire          // LockOrder
    | ReadRow | WriteRow | AddQuota                                   // the callback's body
    | UnlockLoad | UnlockMutex | Relock | Deregister | Retire | Unwind // UnlockOrder
    | Done

  /** `mid` is LockOrder's local rcm, `found` UnlockOrder's, `row` the local copy of the order. */
  datatype Proc = Proc(pc: PC, job: Job, mid: nat, found: nat, row: Order)

  datatype RefCountedMutex = RefCountedMutex(locked: bool, refCount: int)

  /** `mutexes` is the heap of allocated refCountedMutex objects, `locks` the map orderLocks; `fatal` says
      that a free mutex was unlocked. */
  datatype LockTable = LockTable(createLocked: bool, locks: map<string, nat>, mutexes: seq<RefCountedMutex>, fatal: bool)

  /** `requests` holds the local row of every Waffo and Pancake order whose creating request still waits
      for the provider. */
  datatype Database = Database(orders: map<string, Order>, credits: seq<Credit>, requests: map<string, Order>)

  datatype State = State(procs: map<nat, Proc>, lock: LockTable, db: Database)

  datatype Action =
    | Spawn(p: nat, job: Job)
    | Insert(trade: string, order: Order)
    | WaffoFail(trade: string)   // Waffo's webhook for a failed payment, which takes no order lock
    | GiveUp(trade: string)      // the provider call fails: the creating request saves its own row as failed, unlocked
    | Answered(trade: string)    // the provider call returns, or that save fails
    | Run(p: nat, ok: bool)      // ok: whether the database statement of this step succeeds

  const NoRow := Order(Balance, Pending, "", 0, 0, 0.0)
  const QuotaPerUnit := 500000

  /** What a provider's own callback credits for an order; Stripe's does not round. */
  function QuotaFor(o: Order): real {
    if o.provider == Creem then o.amount as real else Worth(o)
  }

  function Worth(o: Order): real {
    if o.provider == Stripe then o.money * QuotaPerUnit as real else (o.amount * QuotaPerUnit) as real
  }

  /** What manual completion credits: whole quota, and it scales Creem orders as well. */
  function AdminQuota(o: Order): real { Worth(o).Floor as real }

  predicate Whole(x: real) { x == x.Floor as real }

  /** The providers whose creating request writes its row a second time. */
  predicate Overwrites(provider: Provider) { provider == Waffo || provider == Pancake }

  // ---------------------------------------------------------------- transitions

  predicate Enabled(s: State, a: Action) {
    match a
    case Spawn(p, _) => p !in s.procs
    case Insert(t, o) => t !in s.db.orders && o.status == Pending
    case WaffoFail(_) => true
    case GiveUp(t) => t in s.db.requests
    case Answered(t) => t in s.db.requests
    case Run(p, _) => p in s.procs && CanRun(s.lock, s.procs[p]) && !s.lock.fatal
  }

  predicate CanRun(l: LockTable, x: Proc) {
    match x.pc
    case Start => !l.createLocked
    case Relock => !l.createLocked
    case Acquire => x.mid < |l.mutexes| && !l.mutexes[x.mid].locked
    case Register => x.mid < |l.mutexes|
    case UnlockMutex => x.found < |l.mutexes|
    case Deregister => x.found < |l.mutexes|
    case Retire => x.found < |l.mutexes|
    case Done => false
    case _ => true
  }

  function Next(s: State, a: Action): State
    requires Enabled(s, a)
  {
    match a
    case Spawn(p, job) => s.(procs := s.procs[p := Proc(Start, job, 0, 0, NoRow)])
    case Run(p, ok) => RunStep(s, p, s.procs[p], ok)
    case _ => s.(db := Outside(s.db, a))
  }

  /** What is written without the order lock. */
  function Outside(d: Database, a: Action): Database {
    match a
    case Insert(t, o) =>
      d.(orders := d.orders[t := o], requests := if Overwrites(o.provider) then d.requests[t := o] else d.requests)
    case WaffoFail(t) => MarkPending(d, t, Waffo, Failed)
    case GiveUp(t) =>
      if t in d.requests
      then d.(orders := d.orders[t := d.requests[t].(status := Failed)], requests := d.requests - {t}) else d
    case Answered(t) => d.(requests := d.requests - {t})
    case _ => d
  }

  function RunStep(s: State, p: nat, x: Proc, ok: bool): State
    requires CanRun(s.lock, x)
  {
    match x.pc
    case ReadRow => ReadStep(s, p, x, ok)
    case WriteRow => WriteStep(s, p, x, ok)
    case AddQuota => CreditStep(s, p, x, ok)
    case _ => LockStep(s, p, x)
  }

  /** LockOrder and UnlockOrder, one atomic operation at a time. */
  function LockStep(s: State, p: nat, x: Proc): State
    requires CanRun(s.lock, x)
  {
    State(s.procs[p := After(s.lock, x)], Shared(s.lock, x), s.db)
  }

  /** The goroutine's own state after its next operation. */
  function After(l: LockTable, x: Proc): Proc
    requires CanRun(l, x)
  {
    var t := x.job.trade;
    match x.pc
    case Start => x.(pc := LookUp)
    case LookUp => if t in l.locks then x.(pc := Register, mid := l.locks[t]) else x.(pc := Create)
    case Create => x.(pc := Register, mid := |l.mutexes|)
    case Register => x.(pc := Release)
    case Release => x.(pc := Acquire)
    case Acquire => x.(pc := ReadRow)
    case UnlockLoad => if t in l.locks then x.(pc := UnlockMutex, found := l.locks[t]) else x.(pc := Done)
    case UnlockMutex => x.(pc := Relock)
    case Relock => x.(pc := Deregister)
    case Deregister => x.(pc := Retire)
    case Retire => x.(pc := Unwind)
    case Unwind => x.(pc := Done)
    case _ => x
  }

  /** The lock table after the goroutine's next operation. */
  function Shared(l: LockTable, x: Proc): LockTable
    requires CanRun(l, x)
  {
    match x.pc
    case Start => l.(createLocked := true)
    case Create => l.(mutexes := l.mutexes + [RefCountedMutex(false, 0)], locks := l.locks[x.job.trade := |l.mutexes|])
    case Register => l.(mutexes := AddRef(l.mutexes, x.mid, 1))
    case Release => l.(createLocked := false)
    case Acquire => l.(mutexes := SetLocked(l.mutexes, x.mid, true))
    case UnlockMutex =>
      if l.mutexes[x.found].locked then l.(mutexes := SetLocked(l.mutexes, x.found, false)) else l.(fatal := true)
    case Relock => l.(createLocked := true)
    case Deregister => l.(mutexes := AddRef(l.mutexes, x.found, -1))
    case Retire => if l.mutexes[x.found].refCount == 0 then l.(locks := l.locks - {x.job.trade}) else l
    case Unwind => l.(createLocked := false)
    case _ => l
  }

  function SetLocked(ms: seq<RefCountedMutex>, m: nat, locked: bool): seq<RefCountedMutex>
    requires m < |ms|
  {
    ms[m := ms[m].(locked := locked)]
  }

  function AddRef(ms: seq<RefCountedMutex>, m: nat, d: int): seq<RefCountedMutex>
    requires m < |ms|
  {
    ms[m := ms[m].(refCount := ms[m].refCount + d)]
  }

  /** A callback's first database access after LockOrder: a plain read, or its whole transaction. */
  function ReadStep(s: State, p: nat, x: Proc, ok: bool): State {
    s.(procs := s.procs[p := AfterRead(s.db, x, ok)], db := Transact(s.db, x.job, ok))
  }

  function AfterRead(d: Database, x: Proc, ok: bool): Proc {
    var t := x.job.trade;
    if ok && x.job.EpayNotify? && PendingAt(d, t, Epay)
    then x.(row := d.orders[t].(paymentMethod := x.job.paidWith, status := Success), pc := WriteRow)
    else if ok && x.job.StripeFailed? && PendingAt(d, t, Stripe)
    then x.(row := d.orders[t].(status := Failed), pc := WriteRow)
    else x.(pc := UnlockLoad)
  }

  /** The callbacks that do their work in one transaction. */
  function Transact(d: Database, job: Job, ok: bool): Database {
    var t := job.trade;
    if !ok then d
    else if job.StripeExpired? then MarkPending(d, t, Stripe, Expired)
    else if job.Recharge? && PendingAt(d, t, job.provider) then Settle(d, t, QuotaFor(d.orders[t]), job.provider !in {Stripe, Creem})
    else if job.AdminComplete? && t in d.orders && d.orders[t].status == Pending then Settle(d, t, AdminQuota(d.orders[t]), true)
    else d
  }

  /** topUp.Update(): the whole local row is written back. */
  function WriteStep(s: State, p: nat, x: Proc, ok: bool): State {
    s.(procs := s.procs[p := x.(pc := if ok && x.job.EpayNotify? then AddQuota else UnlockLoad)],
       db := if ok then s.db.(orders := s.db.orders[x.job.trade := x.row]) else s.db)
  }

  /** IncreaseUserQuota, which refuses a negative amount. */
  function CreditStep(s: State, p: nat, x: Proc, ok: bool): State {
    s.(procs := s.procs[p := x.(pc := UnlockLoad)], db := Increase(s.db, x.job.trade, x.row, ok))
  }

  function Increase(d: Database, t: string, row: Order, ok: bool): Database {
    if ok && QuotaFor(row) >= 0.0 then d.(credits := d.credits + [Credit(t, row.userId, QuotaFor(row))]) else d
  }

  predicate PendingAt(d: Database, t: string, provider: Provider) {
    t in d.orders && d.orders[t].provider == provider && d.orders[t].status == Pending
  }

  /** UpdatePendingTopUpStatus: one transaction with a row lock. */
  function MarkPending(d: Database, t: string, provider: Provider, target: Status): Database {
    if PendingAt(d, t, provider) then d.(orders := d.orders[t := d.orders[t].(status := target)]) else d
  }

  /** The crediting transactions: status and quota change together; some first test for a positive quota. */
  function Settle(d: Database, t: string, quota: real, positive: bool): Database
    requires t in d.orders
  {
    var o := d.orders[t];
    if positive && quota <= 0.0 then d
    else d.(orders := d.orders[t := o.(status := Success)], credits := d.credits + [Credit(t, o.userId, quota)])
  }

  const NoLocks := LockTable(false, map[], [], false)

  ghost predicate Init(s: State) {
    s.procs == map[] && s.lock == NoLocks && s.db.credits == [] && s.db.requests == map[]
  }

  /** `states` is a run from an initial state in which `acts[i]` leads from `states[i]` to `states[i+1]`. */
  ghost predicate IsRun(states: seq<State>, acts: seq<Action>) {
    && |states| == |acts| + 1
    && Init(states[0])
    && forall i :: 0 <= i < |acts| ==> Enabled(states[i], acts[i]) && states[i+1] == Next(states[i], acts[i])
  }

  // ---------------------------------------------------------------- invariant

  predicate Holding(x: Proc) {
    x.pc.ReadRow? || x.pc.WriteRow? || x.pc.AddQuota? || x.pc.UnlockLoad? || x.pc.UnlockMutex?
  }
  predicate Counted(x: Proc) {
    Holding(x) || x.pc.Release? || x.pc.Acquire? || x.pc.Relock? || x.pc.Deregister?
  }
  predicate HasMid(x: Proc) { Counted(x) || x.pc.Register? || x.pc.Retire? }
  predicate HasFound(x: Proc) { x.pc.UnlockMutex? || x.pc.Relock? || x.pc.Deregister? || x.pc.Retire? }
  predicate InCreate(x: Proc) {
    x.pc.LookUp? || x.pc.Create? || x.pc.Register? || x.pc.Release? || x.pc.Deregister? || x.pc.Retire? || x.pc.Unwind?
  }

  /** The goroutines registered on mutex `m` and not yet deregistered. */
  function Users(procs: map<nat, Proc>, m: nat): set<nat> {
    set p | p in procs && Counted(procs[p]) && procs[p].mid == m
  }

  ghost predicate TableInv(s: State) {
    && (forall t :: t in s.lock.locks ==> s.lock.locks[t] < |s.lock.mutexes|)
    && (forall t, u :: t in s.lock.locks && u in s.lock.locks && s.lock.locks[t] == s.lock.locks[u] ==> t == u)
    && (forall p :: p in s.procs ==> TableOk(s.lock.locks, s.procs[p]))
  }

  /** A goroutine that has looked its mutex up still finds that very mutex in the map. */
  predicate TableOk(locks: map<string, nat>, x: Proc) {
    && (HasMid(x) ==> x.job.trade in locks && locks[x.job.trade] == x.mid)
    && (HasFound(x) ==> x.found == x.mid)
    && (x.pc.Create? ==> x.job.trade !in locks)
  }

  ghost predicate CreateInv(s: State) {
    && (forall p, q :: p in s.procs && q in s.procs && InCreate(s.procs[p]) && InCreate(s.procs[q]) ==> p == q)
    && (s.lock.createLocked <==> exists p :: p in s.procs && InCreate(s.procs[p]))
  }

  ghost predicate CountInv(s: State) {
    && (forall m :: 0 <= m < |s.lock.mutexes| ==> s.lock.mutexes[m].refCount == |Users(s.procs, m)|)
    && (forall t :: t in s.lock.locks ==> Named(s, t))
  }

  ghost predicate MutexInv(s: State) {
    && !s.lock.fatal
    && (forall p, q | p in s.procs && q in s.procs && Holding(s.procs[p]) && Holding(s.procs[q]) ::
          s.procs[p].mid == s.procs[q].mid ==> p == q)
    && (forall p :: p in s.procs && Holding(s.procs[p]) ==>
          s.procs[p].mid < |s.lock.mutexes| && s.lock.mutexes[s.procs[p].mid].locked)
    && (forall m :: 0 <= m < |s.lock.mutexes| && s.lock.mutexes[m].locked ==>
          exists p :: p in s.procs && Holding(s.procs[p]) && s.procs[p].mid == m)
  }

  /** What a callback knows of the stored row while it holds the order. */
  ghost predicate RowInv(d: Database, x: Proc) {
    var t := x.job.trade;
    && (x.pc == WriteRow ==>
          && (x.job.EpayNotify? || x.job.StripeFailed?)
          && PendingAt(d, t, if x.job.EpayNotify? then Epay else Stripe)
          && x.row == if x.job.EpayNotify? then d.orders[t].(paymentMethod := x.job.paidWith, status := Success)
                      else d.orders[t].(status := Failed))
    && (x.pc == AddQuota ==>
          && x.job.EpayNotify? && t in d.orders && d.orders[t] == x.row
          && x.row.provider == Epay && x.row.status == Success && x.row.paymentMethod == x.job.paidWith
          && Uncredited(d, t))
  }

  ghost predicate Uncredited(d: Database, t: string) { forall i :: 0 <= i < |d.credits| ==> d.credits[i].trade != t }

  /** No order is credited twice, and every credit is booked. */
  ghost predicate Ledger(d: Database) {
    && (forall i, j :: 0 <= i < j < |d.credits| ==> d.credits[i].trade != d.credits[j].trade)
    && (forall i :: 0 <= i < |d.credits| ==> Booked(d, d.credits[i]))
  }

  /** A credit belongs to a stored order that is settled: same user, and the quota that order is worth. */
  predicate Booked(d: Database, c: Credit) {
    c.trade in d.orders && d.orders[c.trade].status != Pending
    && d.orders[c.trade].userId == c.userId && c.quota in {QuotaFor(d.orders[c.trade]), AdminQuota(d.orders[c.trade])}
  }

  ghost predicate PayInv(s: State) {
    Ledger(s.db) && forall p :: p in s.procs ==> RowInv(s.db, s.procs[p])
  }

  ghost predicate Core(s: State) {
    TableInv(s) && CreateInv(s) && CountInv(s) && MutexInv(s) && PayInv(s)
  }

  /** A creating request's row is the stored one but for the status. */
  ghost predicate RequestInv(d: Database) {
    forall t :: t in d.requests ==> RequestOk(d, t)
  }

  predicate RequestOk(d: Database, t: string)
    requires t in d.requests
  {
    t in d.orders && Overwrites(d.requests[t].provider) && d.orders[t] == d.requests[t].(status := d.orders[t].status)
  }

  ghost predicate Inv(s: State) { Core(s) && RequestInv(s.db) }

  // ---------------------------------------------------------------- preservation

  ghost predicate Moves(s: State, s': State, p: nat, x': Proc) {
    s'.procs == s.procs[p := x']
  }

  predicate Was(s: State, p: nat, property: Proc -> bool) {
    p in s.procs && property(s.procs[p])
  }

  lemma CreateKeeps(s: State, s': State, p: nat, x': Proc)
    requires CreateInv(s) && Moves(s, s', p, x')
    requires s'.lock.createLocked == (InCreate(x') || (s.lock.createLocked && !Was(s, p, InCreate)))
    requires InCreate(x') && !Was(s, p, InCreate) ==> !s.lock.createLocked
    ensures CreateInv(s')
  {
    if s'.lock.createLocked && !InCreate(x') {
      var q :| q in s.procs && InCreate(s.procs[q]);
      assert q in s'.procs && InCreate(s'.procs[q]);
    }
    if InCreate(x') {
      assert p in s'.procs && InCreate(s'.procs[p]);
    }
  }

  lemma TableKeeps(s: State, s': State, p: nat, x': Proc)
    requires TableInv(s) && Moves(s, s', p, x')
    requires s'.lock.locks == s.lock.locks && |s'.lock.mutexes| == |s.lock.mutexes| && TableOk(s.lock.locks, x')
    ensures TableInv(s')
  {}

  function Uses(x: Proc, m: nat): int { if Counted(x) && x.mid == m then 1 else 0 }

  function Used(s: map<nat, Proc>, p: nat, m: nat): int { if p in s then Uses(s[p], m) else 0 }

  lemma UsersSplit(procs: map<nat, Proc>, p: nat, m: nat)
    ensures Users(procs, m) == if Used(procs, p, m) == 1 then Users(procs, m) - {p} + {p} else Users(procs, m) - {p}
    ensures |Users(procs, m)| == |Users(procs, m) - {p}| + Used(procs, p, m)
  {
    assert p in Users(procs, m) <==> Used(procs, p, m) == 1;
  }

  lemma OtherUsers(procs: map<nat, Proc>, p: nat, x': Proc, m: nat)
    ensures Users(procs[p := x'], m) - {p} == Users(procs, m) - {p}
  {}

  /** How a step of `p` changes the users of every mutex. */
  lemma UsersMove(procs: map<nat, Proc>, p: nat, x': Proc, m: nat)
    ensures |Users(procs[p := x'], m)| == |Users(procs, m)| + Uses(x', m) - Used(procs, p, m)
  {
    UsersSplit(procs, p, m);
    UsersSplit(procs[p := x'], p, m);
    OtherUsers(procs, p, x', m);
  }

  ghost predicate Named(s: State, t: string) {
    exists p :: p in s.procs && HasMid(s.procs[p]) && s.procs[p].job.trade == t
  }

  lemma CountKeeps(s: State, s': State, p: nat, x': Proc)
    requires CountInv(s) && Moves(s, s', p, x')
    requires s'.lock.locks == s.lock.locks && |s'.lock.mutexes| == |s.lock.mutexes|
    requires forall m :: 0 <= m < |s.lock.mutexes| ==>
               s'.lock.mutexes[m].refCount == s.lock.mutexes[m].refCount + Uses(x', m) - Used(s.procs, p, m)
    requires Was(s, p, HasMid) ==> HasMid(x') && x'.job == s.procs[p].job
    ensures CountInv(s')
  {
    forall m | 0 <= m < |s.lock.mutexes| ensures s'.lock.mutexes[m].refCount == |Users(s'.procs, m)| {
      UsersMove(s.procs, p, x', m);
    }
    forall t | t in s.lock.locks ensures Named(s', t) {
      var q :| q in s.procs && HasMid(s.procs[q]) && s.procs[q].job.trade == t;
      assert q in s'.procs && HasMid(s'.procs[q]) && s'.procs[q].job.trade == t;
    }
  }

  /** What a step of `p` may do to the mutexes: it takes a free one, or lets its own go, or neither. */
  ghost predicate LocksMove(s: State, s': State, p: nat, x': Proc) {
    && |s'.lock.mutexes| == |s.lock.mutexes|
    && (Holding(x') ==> x'.mid < |s.lock.mutexes| && s'.lock.mutexes[x'.mid].locked)
    && (Holding(x') && !HeldBy(s, p, x'.mid) ==> !s.lock.mutexes[x'.mid].locked)
    && (forall m :: 0 <= m < |s.lock.mutexes| ==>
          s'.lock.mutexes[m].locked == ((Holding(x') && x'.mid == m) || (s.lock.mutexes[m].locked && !HeldBy(s, p, m))))
  }

  predicate HeldBy(s: State, p: nat, m: nat) { Was(s, p, Holding) && s.procs[p].mid == m }

  lemma HeldAreLocked(s: State, s': State, p: nat, x': Proc)
    requires MutexInv(s) && Moves(s, s', p, x') && LocksMove(s, s', p, x')
    ensures forall q :: q in s'.procs && Holding(s'.procs[q]) ==>
              s'.procs[q].mid < |s'.lock.mutexes| && s'.lock.mutexes[s'.procs[q].mid].locked
  {
    forall q | q in s'.procs && Holding(s'.procs[q])
      ensures s'.procs[q].mid < |s'.lock.mutexes| && s'.lock.mutexes[s'.procs[q].mid].locked
    {
      if q != p { assert q in s.procs && s.procs[q] == s'.procs[q]; }
    }
  }

  lemma HeldOnce(s: State, s': State, p: nat, x': Proc)
    requires MutexInv(s) && Moves(s, s', p, x') && LocksMove(s, s', p, x')
    ensures forall q, r | q in s'.procs && r in s'.procs && Holding(s'.procs[q]) && Holding(s'.procs[r]) ::
              s'.procs[q].mid == s'.procs[r].mid ==> q == r
  {
    forall q | q in s'.procs && q != p && Holding(s'.procs[q]) && Holding(x') ensures s'.procs[q].mid != x'.mid {
      assert q in s.procs && s.procs[q] == s'.procs[q];
    }
  }

  lemma LockedAreHeld(s: State, s': State, p: nat, x': Proc)
    requires MutexInv(s) && Moves(s, s', p, x') && LocksMove(s, s', p, x')
    ensures forall m :: 0 <= m < |s'.lock.mutexes| && s'.lock.mutexes[m].locked ==>
              exists q :: q in s'.procs && Holding(s'.procs[q]) && s'.procs[q].mid == m
  {
    forall m | 0 <= m < |s.lock.mutexes| && s'.lock.mutexes[m].locked
      ensures exists q :: q in s'.procs && Holding(s'.procs[q]) && s'.procs[q].mid == m
    {
      if Holding(x') && x'.mid == m {
        assert p in s'.procs;
      } else {
        var q :| q in s.procs && Holding(s.procs[q]) && s.procs[q].mid == m;
        assert q in s'.procs && Holding(s'.procs[q]) && s'.procs[q].mid == m;
      }
    }
  }

  lemma MutexKeeps(s: State, s': State, p: nat, x': Proc)
    requires MutexInv(s) && Moves(s, s', p, x') && !s'.lock.fatal && LocksMove(s, s', p, x')
    ensures MutexInv(s')
  {
    HeldAreLocked(s, s', p, x');
    HeldOnce(s, s', p, x');
    LockedAreHeld(s, s', p, x');
  }

  /** A step that leaves the database alone and starts no write. */
  lemma PayKeeps(s: State, s': State, p: nat, x': Proc)
    requires PayInv(s) && Moves(s, s', p, x')
    requires s'.db == s.db && !x'.pc.WriteRow? && !x'.pc.AddQuota?
    ensures PayInv(s')
  {
    forall q | q in s'.procs ensures RowInv(s'.db, s'.procs[q]) {
      if q != p { assert RowInv(s.db, s.procs[q]); }
    }
  }

  // LockOrder and UnlockOrder keep each part of the invariant.

  predicate Quiet(x: Proc) {
    !x.pc.Create? && !x.pc.Retire? && !x.pc.ReadRow? && !x.pc.WriteRow? && !x.pc.AddQuota?
  }

  lemma LockCreate(s: State, p: nat)
    requires CreateInv(s) && p in s.procs && CanRun(s.lock, s.procs[p])
    ensures CreateInv(LockStep(s, p, s.procs[p]))
  {
    CreateKeeps(s, LockStep(s, p, s.procs[p]), p, After(s.lock, s.procs[p]));
  }

  lemma QuietTable(s: State, p: nat)
    requires TableInv(s) && p in s.procs && CanRun(s.lock, s.procs[p]) && Quiet(s.procs[p])
    ensures TableInv(LockStep(s, p, s.procs[p]))
  {
    assert TableOk(s.lock.locks, s.procs[p]);
    TableKeeps(s, LockStep(s, p, s.procs[p]), p, After(s.lock, s.procs[p]));
  }

  /** A reference count moves exactly when its goroutine starts or stops being counted. */
  lemma QuietRefs(l: LockTable, x: Proc, m: nat)
    requires CanRun(l, x) && Quiet(x) && TableOk(l.locks, x) && m < |l.mutexes|
    ensures var l' := Shared(l, x);
            && |l'.mutexes| == |l.mutexes| && l'.locks == l.locks
            && l'.mutexes[m].refCount == l.mutexes[m].refCount + Uses(After(l, x), m) - Uses(x, m)
  {
    if x.pc.Register? {
    } else if x.pc.Deregister? {
    } else if x.pc.LookUp? {
    } else {
      assert After(l, x).mid == x.mid;
      assert Counted(After(l, x)) == Counted(x);
    }
  }

  lemma QuietCount(s: State, p: nat)
    requires CountInv(s) && p in s.procs && CanRun(s.lock, s.procs[p]) && Quiet(s.procs[p]) && TableOk(s.lock.locks, s.procs[p])
    ensures CountInv(LockStep(s, p, s.procs[p]))
  {
    var s' := LockStep(s, p, s.procs[p]);
    forall m | 0 <= m < |s.lock.mutexes|
      ensures s'.lock.mutexes[m].refCount == s.lock.mutexes[m].refCount + Uses(After(s.lock, s.procs[p]), m) - Used(s.procs, p, m)
    {
      QuietRefs(s.lock, s.procs[p], m);
    }
    CountKeeps(s, s', p, After(s.lock, s.procs[p]));
  }

  /** A mutex is locked by its goroutine's Acquire and unlocked by its UnlockMutex, and not otherwise. */
  lemma QuietLocked(l: LockTable, x: Proc, m: nat)
    requires CanRun(l, x) && Quiet(x) && TableOk(l.locks, x) && m < |l.mutexes|
    requires Holding(x) ==> x.mid < |l.mutexes| && l.mutexes[x.mid].locked
    ensures var x' := After(l, x);
            && |Shared(l, x).mutexes| == |l.mutexes| && !l.fatal == !Shared(l, x).fatal
            && (Shared(l, x).mutexes[m].locked <==> (Holding(x') && x'.mid == m) || (l.mutexes[m].locked && !(Holding(x) && x.mid == m)))
  {}

  lemma QuietHolding(l: LockTable, x: Proc)
    requires CanRun(l, x) && Quiet(x) && TableOk(l.locks, x)
    requires Holding(x) ==> x.mid < |l.mutexes| && l.mutexes[x.mid].locked
    ensures var x' := After(l, x);
            Holding(x') ==> x'.mid == x.mid && x.mid < |l.mutexes| && (!Holding(x) ==> !l.mutexes[x.mid].locked)
    ensures |Shared(l, x).mutexes| == |l.mutexes| && Shared(l, x).fatal == l.fatal
  {}

  lemma QuietMutex(s: State, p: nat)
    requires MutexInv(s) && p in s.procs && CanRun(s.lock, s.procs[p]) && Quiet(s.procs[p]) && TableOk(s.lock.locks, s.procs[p])
    ensures MutexInv(LockStep(s, p, s.procs[p]))
  {
    var x := s.procs[p];
    QuietHolding(s.lock, x);
    forall m | 0 <= m < |s.lock.mutexes|
      ensures Shared(s.lock, x).mutexes[m].locked ==
              ((Holding(After(s.lock, x)) && After(s.lock, x).mid == m) || (s.lock.mutexes[m].locked && !HeldBy(s, p, m)))
    {
      QuietLocked(s.lock, x, m);
    }
    MutexKeeps(s, LockStep(s, p, x), p, After(s.lock, x));
  }

  // The two operations that change the map.

  lemma StoreTable(s: State, p: nat)
    requires TableInv(s) && CreateInv(s) && p in s.procs && s.procs[p].pc.Create?
    ensures TableInv(LockStep(s, p, s.procs[p]))
  {
    var s' := LockStep(s, p, s.procs[p]);
    forall q | q in s'.procs ensures TableOk(s'.lock.locks, s'.procs[q]) {
      if q != p {
        assert TableOk(s.lock.locks, s.procs[q]) && TableOk(s.lock.locks, s.procs[p]);
        assert InCreate(s.procs[p]) && !InCreate(s.procs[q]);
      }
    }
  }

  /** A freshly allocated mutex is free and has no users. */
  lemma FreshMutex(s: State)
    requires TableInv(s) && CountInv(s) && MutexInv(s)
    ensures var grown := s.(lock := s.lock.(mutexes := s.lock.mutexes + [RefCountedMutex(false, 0)])); CountInv(grown) && MutexInv(grown)
  {
    var grown := s.(lock := s.lock.(mutexes := s.lock.mutexes + [RefCountedMutex(false, 0)]));
    forall q | q in s.procs && Counted(s.procs[q]) ensures s.procs[q].mid != |s.lock.mutexes| {
      assert TableOk(s.lock.locks, s.procs[q]);
    }
    assert Users(s.procs, |s.lock.mutexes|) == {};
    forall t | t in grown.lock.locks ensures Named(grown, t) {
      assert Named(s, t);
    }
  }

  lemma StoreMutex(s: State, p: nat)
    requires TableInv(s) && CountInv(s) && MutexInv(s) && p in s.procs && s.procs[p].pc.Create?
    ensures MutexInv(LockStep(s, p, s.procs[p]))
  {
    var s' := LockStep(s, p, s.procs[p]);
    FreshMutex(s);
    MutexKeeps(s.(lock := s.lock.(mutexes := s'.lock.mutexes)), s', p, After(s.lock, s.procs[p]));
  }

  lemma StoreCount(s: State, p: nat)
    requires TableInv(s) && CountInv(s) && MutexInv(s) && p in s.procs && s.procs[p].pc.Create?
    ensures CountInv(LockStep(s, p, s.procs[p]))
  {
    var s', x' := LockStep(s, p, s.procs[p]), After(s.lock, s.procs[p]);
    FreshMutex(s);
    CountKeeps(s.(lock := s.lock.(mutexes := s'.lock.mutexes)), s'.(lock := s'.lock.(locks := s.lock.locks)), p, x');
    assert p in s'.procs && HasMid(s'.procs[p]);
    forall t | t in s'.lock.locks ensures Named(s', t) {
      if t != x'.job.trade { assert Named(s'.(lock := s'.lock.(locks := s.lock.locks)), t); }
    }
  }

  /** At the last deregistration nobody else refers to the entry that is about to go. */
  lemma RetiredAlone(s: State, p: nat, q: nat)
    requires TableInv(s) && CreateInv(s) && CountInv(s) && p in s.procs && q in s.procs && q != p
    requires s.procs[p].pc.Retire? && s.procs[p].found < |s.lock.mutexes|
    requires s.lock.mutexes[s.procs[p].found].refCount == 0
    ensures TableOk(s.lock.locks - {s.procs[p].job.trade}, s.procs[q])
  {
    var x, y := s.procs[p], s.procs[q];
    assert TableOk(s.lock.locks, x) && TableOk(s.lock.locks, y);
    assert InCreate(x) && !InCreate(y);
    assert q !in Users(s.procs, x.mid);
  }

  lemma DeleteTable(s: State, p: nat)
    requires TableInv(s) && CreateInv(s) && CountInv(s)
    requires p in s.procs && s.procs[p].pc.Retire? && CanRun(s.lock, s.procs[p])
    ensures TableInv(LockStep(s, p, s.procs[p]))
  {
    var s' := LockStep(s, p, s.procs[p]);
    forall q | q in s'.procs ensures TableOk(s'.lock.locks, s'.procs[q]) {
      if q != p {
        assert TableOk(s.lock.locks, s.procs[q]);
        if s.lock.mutexes[s.procs[p].found].refCount == 0 { RetiredAlone(s, p, q); }
      }
    }
  }

  lemma DeleteNamed(s: State, p: nat, t: string)
    requires TableInv(s) && CountInv(s)
    requires p in s.procs && s.procs[p].pc.Retire? && CanRun(s.lock, s.procs[p])
    requires t in LockStep(s, p, s.procs[p]).lock.locks
    ensures Named(LockStep(s, p, s.procs[p]), t)
  {
    var x, s' := s.procs[p], LockStep(s, p, s.procs[p]);
    assert TableOk(s.lock.locks, x);
    if t == x.job.trade {
      assert |Users(s.procs, x.mid)| != 0;
      var q :| q in Users(s.procs, x.mid);
      assert TableOk(s.lock.locks, s.procs[q]);
      assert q in s'.procs && HasMid(s'.procs[q]) && s'.procs[q].job.trade == t;
    } else {
      assert Named(s, t);
      var q :| q in s.procs && HasMid(s.procs[q]) && s.procs[q].job.trade == t;
      assert q in s'.procs && HasMid(s'.procs[q]) && s'.procs[q].job.trade == t;
    }
  }

  lemma DeleteCount(s: State, p: nat)
    requires TableInv(s) && CountInv(s) && MutexInv(s)
    requires p in s.procs && s.procs[p].pc.Retire? && CanRun(s.lock, s.procs[p])
    ensures CountInv(LockStep(s, p, s.procs[p])) && MutexInv(LockStep(s, p, s.procs[p]))
  {
    var s', x' := LockStep(s, p, s.procs[p]), After(s.lock, s.procs[p]);
    forall m | 0 <= m < |s.lock.mutexes| ensures s'.lock.mutexes[m].refCount == |Users(s'.procs, m)| {
      UsersMove(s.procs, p, x', m);
    }
    forall t | t in s'.lock.locks ensures Named(s', t) { DeleteNamed(s, p, t); }
    MutexKeeps(s, s', p, x');
  }

  lemma LockPay(s: State, p: nat)
    requires PayInv(s) && p in s.procs && CanRun(s.lock, s.procs[p])
    requires !s.procs[p].pc.WriteRow? && !s.procs[p].pc.AddQuota?
    ensures PayInv(LockStep(s, p, s.procs[p]))
  {
    PayKeeps(s, LockStep(s, p, s.procs[p]), p, After(s.lock, s.procs[p]));
  }

  lemma LockStepKeeps(s: State, p: nat)
    requires Core(s) && p in s.procs && CanRun(s.lock, s.procs[p])
    requires !s.procs[p].pc.ReadRow? && !s.procs[p].pc.WriteRow? && !s.procs[p].pc.AddQuota?
    ensures Core(LockStep(s, p, s.procs[p]))
  {
    var x := s.procs[p];
    LockCreate(s, p);
    LockPay(s, p);
    if x.pc.Create? {
      StoreTable(s, p);
      StoreCount(s, p);
      StoreMutex(s, p);
    } else if x.pc.Retire? {
      DeleteTable(s, p);
      DeleteCount(s, p);
    } else {
      assert TableOk(s.lock.locks, x);
      QuietTable(s, p);
      QuietCount(s, p);
      QuietMutex(s, p);
    }
  }

  // The callback bodies.

  /** A step inside the critical section: the goroutine keeps its job and its mutex, and nobody's locks change. */
  ghost predicate InsideStep(s: State, s': State, p: nat, x': Proc) {
    && p in s.procs && Moves(s, s', p, x') && s'.lock == s.lock
    && Holding(s.procs[p]) && !s.procs[p].pc.UnlockMutex? && Holding(x') && !x'.pc.UnlockMutex?
    && x'.mid == s.procs[p].mid && x'.job == s.procs[p].job
  }

  lemma InsideTable(s: State, s': State, p: nat, x': Proc)
    requires TableInv(s) && CreateInv(s) && InsideStep(s, s', p, x')
    ensures TableInv(s') && CreateInv(s')
  {
    assert TableOk(s.lock.locks, s.procs[p]);
    CreateKeeps(s, s', p, x');
    TableKeeps(s, s', p, x');
  }

  lemma InsideMutex(s: State, s': State, p: nat, x': Proc)
    requires MutexInv(s) && InsideStep(s, s', p, x')
    ensures MutexInv(s')
  {
    MutexKeeps(s, s', p, x');
  }

  /** It leaves the lock protocol as it was. */
  lemma BodyLocks(s: State, s': State, p: nat, x': Proc)
    requires TableInv(s) && CreateInv(s) && CountInv(s) && MutexInv(s) && InsideStep(s, s', p, x')
    ensures TableInv(s') && CreateInv(s') && CountInv(s') && MutexInv(s')
  {
    InsideTable(s, s', p, x');
    InsideMutex(s, s', p, x');
    CountKeeps(s, s', p, x');
  }

  /** Two goroutines never hold the same trade number. */
  lemma HoldersDiffer(s: State, p: nat, q: nat)
    requires TableInv(s) && MutexInv(s) && p in s.procs && q in s.procs && p != q
    requires Holding(s.procs[p]) && Holding(s.procs[q])
    ensures s.procs[p].job.trade != s.procs[q].job.trade
  {
    assert TableOk(s.lock.locks, s.procs[p]) && TableOk(s.lock.locks, s.procs[q]);
  }

  /** Rows other than `t` are untouched, and credits only grow by the order `t`. */
  ghost predicate OwnRowOnly(d: Database, d': Database, t: string) {
    && (forall u :: u != t ==> (u in d.orders <==> u in d'.orders) && (u in d.orders ==> d'.orders[u] == d.orders[u]))
    && d.credits <= d'.credits
    && (forall i :: |d.credits| <= i < |d'.credits| ==> d'.credits[i].trade == t)
  }

  lemma OtherRow(d: Database, d': Database, t: string, y: Proc)
    requires RowInv(d, y) && OwnRowOnly(d, d', t) && y.job.trade != t
    ensures RowInv(d', y)
  {}

  lemma OthersRows(s: State, s': State, p: nat, x': Proc)
    requires TableInv(s) && MutexInv(s) && PayInv(s) && p in s.procs && Moves(s, s', p, x') && Holding(s.procs[p])
    requires OwnRowOnly(s.db, s'.db, s.procs[p].job.trade) && RowInv(s'.db, x')
    ensures forall q :: q in s'.procs ==> RowInv(s'.db, s'.procs[q])
  {
    forall q | q in s'.procs ensures RowInv(s'.db, s'.procs[q]) {
      if q != p {
        var y := s.procs[q];
        assert RowInv(s.db, y);
        if y.pc.WriteRow? || y.pc.AddQuota? {
          HoldersDiffer(s, p, q);
          OtherRow(s.db, s'.db, s.procs[p].job.trade, y);
        }
      }
    }
  }

  /** Every credited order is settled, so a pending order has no credit. */
  lemma PendingUncredited(d: Database, t: string)
    requires Ledger(d) && t in d.orders && d.orders[t].status == Pending
    ensures Uncredited(d, t)
  {
    forall i | 0 <= i < |d.credits| ensures d.credits[i].trade != t {
      assert Booked(d, d.credits[i]);
    }
  }

  /** Crediting `t` once, or not at all, when it had no credit keeps the ledger sound. */
  lemma LedgerKeeps(d: Database, d': Database, t: string)
    requires Ledger(d) && OwnRowOnly(d, d', t) && |d'.credits| <= |d.credits| + 1 && Uncredited(d, t)
    requires |d'.credits| > |d.credits| ==> Booked(d', d'.credits[|d.credits|])
    ensures Ledger(d')
  {
    forall i | 0 <= i < |d.credits| ensures d'.credits[i] == d.credits[i] && Booked(d', d'.credits[i]) {
      assert Booked(d, d.credits[i]);
    }
  }

  /** What a body step does to the database: nothing, or it acts on its own order, uncredited so far. */
  ghost predicate BodyEffect(d: Database, d': Database, t: string) {
    || d' == d
    || (&& Uncredited(d, t) && OwnRowOnly(d, d', t) && |d'.credits| <= |d.credits| + 1
        && (|d'.credits| > |d.credits| ==> Booked(d', d'.credits[|d.credits|])))
  }

  lemma BodyPay(s: State, s': State, p: nat, x': Proc)
    requires TableInv(s) && MutexInv(s) && PayInv(s) && InsideStep(s, s', p, x')
    requires RowInv(s'.db, x') && BodyEffect(s.db, s'.db, x'.job.trade)
    ensures PayInv(s')
  {
    OthersRows(s, s', p, x');
    if s'.db != s.db { LedgerKeeps(s.db, s'.db, x'.job.trade); }
  }

  lemma BodyKeeps(s: State, s': State, p: nat, x': Proc)
    requires Core(s) && InsideStep(s, s', p, x')
    requires RowInv(s'.db, x') && BodyEffect(s.db, s'.db, x'.job.trade)
    ensures Core(s')
  {
    BodyLocks(s, s', p, x');
    BodyPay(s, s', p, x');
  }

  /** The first database access works on a pending order or does nothing. */
  lemma ReadEffect(d: Database, x: Proc, ok: bool)
    requires Ledger(d)
    ensures BodyEffect(d, Transact(d, x.job, ok), x.job.trade) && RowInv(Transact(d, x.job, ok), AfterRead(d, x, ok))
  {
    var t := x.job.trade;
    if t in d.orders && d.orders[t].status == Pending { PendingUncredited(d, t); }
  }

  lemma ReadKeeps(s: State, p: nat, ok: bool)
    requires Core(s) && p in s.procs && s.procs[p].pc.ReadRow?
    ensures Core(ReadStep(s, p, s.procs[p], ok))
  {
    ReadEffect(s.db, s.procs[p], ok);
    BodyKeeps(s, ReadStep(s, p, s.procs[p], ok), p, AfterRead(s.db, s.procs[p], ok));
  }

  lemma WriteKeeps(s: State, p: nat, ok: bool)
    requires Core(s) && p in s.procs && s.procs[p].pc.WriteRow?
    ensures Core(WriteStep(s, p, s.procs[p], ok))
  {
    var x := s.procs[p];
    var s' := WriteStep(s, p, x, ok);
    assert RowInv(s.db, x);
    PendingUncredited(s.db, x.job.trade);
    BodyKeeps(s, s', p, s'.procs[p]);
  }

  lemma CreditKeeps(s: State, p: nat, ok: bool)
    requires Core(s) && p in s.procs && s.procs[p].pc.AddQuota?
    ensures Core(CreditStep(s, p, s.procs[p], ok))
  {
    var x := s.procs[p];
    assert RowInv(s.db, x);
    BodyKeeps(s, CreditStep(s, p, x, ok), p, x.(pc := UnlockLoad));
  }

  lemma OutsideKeeps(s: State, a: Action)
    requires Core(s) && RequestInv(s.db) && Enabled(s, a) && !a.Run?
    ensures Core(Next(s, a))
  {
    match a
    case Spawn(p, job) =>
      var s', x' := Next(s, a), Proc(Start, job, 0, 0, NoRow);
      CreateKeeps(s, s', p, x');
      TableKeeps(s, s', p, x');
      CountKeeps(s, s', p, x');
      MutexKeeps(s, s', p, x');
      PayKeeps(s, s', p, x');
    case Insert(t, _) => ForeignRow(s, Outside(s.db, a), t);
    case WaffoFail(t) => ForeignRow(s, Outside(s.db, a), t);
    case GiveUp(t) =>
      assert RequestOk(s.db, t);
      ForeignRow(s, Outside(s.db, a), t);
    case Answered(t) => ForeignRow(s, Outside(s.db, a), t);
  }

  lemma LocksAside(s: State, d': Database)
    requires TableInv(s) && CreateInv(s) && CountInv(s) && MutexInv(s)
    ensures var s' := s.(db := d'); TableInv(s') && CreateInv(s') && CountInv(s') && MutexInv(s')
  {
    var s' := s.(db := d');
    forall u | u in s'.lock.locks ensures Named(s', u) { assert Named(s, u); }
  }

  /** A new row, or the status of a Waffo or Pancake order. */
  ghost predicate ForeignChange(d: Database, d': Database, t: string) {
    && d'.credits == d.credits && OwnRowOnly(d, d', t)
    && (t in d.orders ==> t in d'.orders)
    && (t in d.orders && d'.orders[t] != d.orders[t] ==>
          Overwrites(d.orders[t].provider) && d'.orders[t] == d.orders[t].(status := Failed))
  }

  lemma ForeignLedger(d: Database, d': Database, t: string)
    requires Ledger(d) && ForeignChange(d, d', t)
    ensures Ledger(d')
  {
    forall i | 0 <= i < |d'.credits| ensures Booked(d', d'.credits[i]) {
      assert Booked(d, d.credits[i]);
    }
  }

  lemma ForeignRowInv(d: Database, d': Database, t: string, x: Proc)
    requires RowInv(d, x) && ForeignChange(d, d', t)
    ensures RowInv(d', x)
  {}

  /** Changing a row that no callback is between reading and writing. */
  lemma ForeignRow(s: State, d': Database, t: string)
    requires Core(s) && ForeignChange(s.db, d', t)
    ensures Core(s.(db := d'))
  {
    LocksAside(s, d');
    ForeignLedger(s.db, d', t);
    forall q | q in s.procs ensures RowInv(d', s.procs[q]) {
      ForeignRowInv(s.db, d', t, s.procs[q]);
    }
  }

  /** A callback's step changes the row of a waiting request in its status only. */
  lemma RunKeepsRequests(s: State, p: nat, ok: bool)
    requires Inv(s) && p in s.procs && CanRun(s.lock, s.procs[p])
    ensures RequestInv(RunStep(s, p, s.procs[p], ok).db)
  {
    var x := s.procs[p];
    var d' := RunStep(s, p, x, ok).db;
    assert RowInv(s.db, x);
    RunKeepsRest(s, p, ok);
    forall t | t in d'.requests ensures RequestOk(d', t) {
      assert RequestOk(s.db, t);
      RunChanges(s, p, ok, t);
    }
  }

  lemma OutsideKeepsRequests(d: Database, a: Action)
    requires RequestInv(d) && (a.Insert? ==> a.trade !in d.orders)
    ensures RequestInv(Outside(d, a))
  {
    var d' := Outside(d, a);
    forall t | t in d'.requests ensures RequestOk(d', t) {
      assert t in d.requests ==> RequestOk(d, t);
    }
  }

  lemma RunKeeps(s: State, p: nat, ok: bool)
    requires Core(s) && p in s.procs && CanRun(s.lock, s.procs[p])
    ensures Core(RunStep(s, p, s.procs[p], ok))
  {
    if s.procs[p].pc.ReadRow? {
      ReadKeeps(s, p, ok);
    } else if s.procs[p].pc.WriteRow? {
      WriteKeeps(s, p, ok);
    } else if s.procs[p].pc.AddQuota? {
      CreditKeeps(s, p, ok);
    } else {
      LockStepKeeps(s, p);
    }
  }

  /** Every action keeps the invariant. */
  lemma NextKeeps(s: State, a: Action)
    requires Inv(s) && Enabled(s, a)
    ensures Inv(Next(s, a))
  {
    if a.Run? {
      RunKeeps(s, a.p, a.ok);
      RunKeepsRequests(s, a.p, a.ok);
    } else {
      OutsideKeeps(s, a);
      if !a.Spawn? { OutsideKeepsRequests(s.db, a); }
    }
  }

  lemma {:induction false} RunInv(states: seq<State>, acts: seq<Action>, k: nat)
    requires IsRun(states, acts) && k < |states|
    ensures Inv(states[k])
  {
    if k > 0 {
      RunInv(states, acts, k - 1);
      NextKeeps(states[k-1], acts[k-1]);
    }
  }

  // ---------------------------------------------------------------- what every run guarantees

  /** At most one goroutine is between LockOrder's return and UnlockOrder's release of a trade number. */
  lemma MutualExclusion(states: seq<State>, acts: seq<Action>, k: nat, p: nat, q: nat)
    requires IsRun(states, acts) && k < |states|
    requires Was(states[k], p, Holding) && Was(states[k], q, Holding)
    requires states[k].procs[p].job.trade == states[k].procs[q].job.trade
    ensures p == q
  {
    RunInv(states, acts, k);
    if p != q { HoldersDiffer(states[k], p, q); }
  }

  function Registered(s: State, t: string): set<nat> {
    set p | p in s.procs && Counted(s.procs[p]) && s.procs[p].job.trade == t
  }

  /** An entry's count is the number of goroutines registered for the trade number; whenever
      createLock is free, the entry exists exactly while that number is positive. */
  lemma EntryCountsUsers(states: seq<State>, acts: seq<Action>, k: nat, t: string)
    requires IsRun(states, acts) && k < |states|
    ensures var s := states[k];
      && (t in s.lock.locks ==> s.lock.locks[t] < |s.lock.mutexes| && s.lock.mutexes[s.lock.locks[t]].refCount == |Registered(s, t)|)
      && (!s.lock.createLocked ==> (t in s.lock.locks <==> Registered(s, t) != {}))
  {
    RunInv(states, acts, k);
    var s := states[k];
    forall p | p in s.procs ensures TableOk(s.lock.locks, s.procs[p]) {}
    if t in s.lock.locks {
      assert Registered(s, t) == Users(s.procs, s.lock.locks[t]);
      assert Named(s, t);
      var p :| p in s.procs && HasMid(s.procs[p]) && s.procs[p].job.trade == t;
      assert InCreate(s.procs[p]) || p in Registered(s, t);
    }
  }

  /** UnlockOrder reads the map without createLock, yet always finds the very mutex its caller
      locked, and that mutex is locked: the early return and the fatal unlock never happen. */
  lemma UnlockFindsOwnMutex(states: seq<State>, acts: seq<Action>, k: nat, p: nat)
    requires IsRun(states, acts) && k < |states|
    requires p in states[k].procs && Holding(states[k].procs[p])
    ensures var s, x := states[k], states[k].procs[p];
      && x.job.trade in s.lock.locks && s.lock.locks[x.job.trade] == x.mid
      && x.mid < |s.lock.mutexes| && s.lock.mutexes[x.mid].locked && !s.lock.fatal
      && (x.pc.UnlockMutex? ==> x.found == x.mid)
  {
    RunInv(states, acts, k);
    assert TableOk(states[k].lock.locks, states[k].procs[p]);
  }

  /** The protocol never deadlocks: while some goroutine is unfinished, some goroutine can move. */
  lemma NoDeadlock(states: seq<State>, acts: seq<Action>, k: nat, p: nat)
    requires IsRun(states, acts) && k < |states|
    requires p in states[k].procs && !states[k].procs[p].pc.Done?
    ensures exists q :: Enabled(states[k], Run(q, true))
  {
    RunInv(states, acts, k);
    var s := states[k];
    var q := Mover(s, p);
    assert TableOk(s.lock.locks, s.procs[q]);
    assert Enabled(s, Run(q, true));
  }

  ghost function Mover(s: State, p: nat): (q: nat)
    requires CreateInv(s) && MutexInv(s) && p in s.procs && !s.procs[p].pc.Done?
    ensures q in s.procs && !s.procs[q].pc.Done?
    ensures InCreate(s.procs[q]) || Holding(s.procs[q]) || CanRun(s.lock, s.procs[q]) ||
            (s.procs[q].pc.Acquire? && |s.lock.mutexes| <= s.procs[q].mid)
  {
    if s.lock.createLocked then
      var q :| q in s.procs && InCreate(s.procs[q]); q
    else if s.procs[p].pc.Acquire? && s.procs[p].mid < |s.lock.mutexes| && s.lock.mutexes[s.procs[p].mid].locked then
      var q :| q in s.procs && Holding(s.procs[q]) && s.procs[q].mid == s.procs[p].mid; q
    else p
  }

  /** No order is ever credited twice, and every credit is the quota of a settled order of that user. */
  lemma CreditedAtMostOnce(states: seq<State>, acts: seq<Action>, k: nat)
    requires IsRun(states, acts) && k < |states|
    ensures var s := states[k];
      && (forall i, j :: 0 <= i < j < |s.db.credits| ==> s.db.credits[i].trade != s.db.credits[j].trade)
      && (forall i :: 0 <= i < |s.db.credits| ==> Booked(s.db, s.db.credits[i]))
  {
    RunInv(states, acts, k);
  }

  /** One callback step leaves the credits alone, or adds one: for the order it holds, the quota its
      callback computes, manual completion in its own way; and Epay's only for an order already stored
      as successful under the payment method of the callback. */
  ghost predicate CreditsHeld(d: Database, d': Database, x: Proc) {
    d'.credits == d.credits || (CreditsOrder(d, x) && d'.credits == d.credits + [CreditFor(d, x.job)])
  }

  predicate CreditsOrder(d: Database, x: Proc) {
    && Holding(x) && x.job.trade in d.orders && d.orders[x.job.trade].status != Failed
    && (x.job.EpayNotify? ==> PaidBy(d, x.job))
  }

  function CreditFor(d: Database, job: Job): Credit
    requires job.trade in d.orders
  {
    var o := d.orders[job.trade];
    Credit(job.trade, o.userId, if job.AdminComplete? then AdminQuota(o) else QuotaFor(o))
  }

  lemma StepCreditsHeldOrder(s: State, p: nat, ok: bool)
    requires p in s.procs && RowInv(s.db, s.procs[p]) && CanRun(s.lock, s.procs[p])
    ensures CreditsHeld(s.db, RunStep(s, p, s.procs[p], ok).db, s.procs[p])
  {}

  predicate PaidBy(d: Database, job: Job)
    requires job.EpayNotify?
  {
    job.trade in d.orders && d.orders[job.trade].status == Success
    && d.orders[job.trade].provider == Epay && d.orders[job.trade].paymentMethod == job.paidWith
  }

  lemma EpayCreditsAfterSuccess(states: seq<State>, acts: seq<Action>, k: nat)
    requires IsRun(states, acts) && k < |acts| && states[k+1].db.credits != states[k].db.credits
    ensures acts[k].Run? && acts[k].p in states[k].procs
    ensures CreditsOrder(states[k].db, states[k].procs[acts[k].p])
    ensures states[k+1].db.credits == states[k].db.credits + [CreditFor(states[k].db, states[k].procs[acts[k].p].job)]
  {
    RunInv(states, acts, k);
    OutsideCredits(states[k].db, acts[k]);
    if acts[k].Run? {
      assert RowInv(states[k].db, states[k].procs[acts[k].p]);
      StepCreditsHeldOrder(states[k], acts[k].p, acts[k].ok);
    }
  }

  lemma OutsideCredits(d: Database, a: Action)
    ensures Outside(d, a).credits == d.credits
  {}

  /** Manual completion credits something else than the provider's own callback. */
  predicate CreditsOtherwise(job: Job, o: Order) {
    job.AdminComplete? && ((o.provider == Creem && o.amount != 0) || (o.provider == Stripe && !Whole(Worth(o))))
  }

  /** So a step credits what the provider's own callback would, if and only if it is not a manual
      completion of a Creem order for a non-zero amount, nor of a Stripe order worth a fraction. */
  lemma CreditsAsCallbackIff(states: seq<State>, acts: seq<Action>, k: nat)
    requires IsRun(states, acts) && k < |acts| && states[k+1].db.credits != states[k].db.credits
    ensures acts[k].Run? && acts[k].p in states[k].procs && states[k].procs[acts[k].p].job.trade in states[k].db.orders
    ensures var job := states[k].procs[acts[k].p].job; var o := states[k].db.orders[job.trade];
      && |states[k+1].db.credits| == |states[k].db.credits| + 1
      && (states[k+1].db.credits[|states[k].db.credits|].quota == QuotaFor(o) <==>
            !CreditsOtherwise(job, o))
  {
    EpayCreditsAfterSuccess(states, acts, k);
    var job := states[k].procs[acts[k].p].job;
    QuotasDifferIff(job, states[k].db.orders[job.trade]);
  }

  lemma QuotasDifferIff(job: Job, o: Order)
    ensures (if job.AdminComplete? then AdminQuota(o) else QuotaFor(o)) == QuotaFor(o) <==> !CreditsOtherwise(job, o)
  {
    assert o.provider != Stripe ==> Worth(o).Floor == o.amount * QuotaPerUnit;
  }

  /** Whom a job may act for. */
  predicate MayChange(job: Job, provider: Provider) {
    match job
    case EpayNotify(_, _) => provider == Epay
    case StripeFailed(_) => provider == Stripe
    case StripeExpired(_) => provider == Stripe
    case Recharge(_, own) => provider == own
    case AdminComplete(_) => true
  }

  /** An allowed change of a row: from pending to a terminal status, everything else as it was, but
      for the payment method of an Epay order. */
  predicate Settles(o: Order, o': Order) {
    && o.status == Pending && o'.status != Pending
    && o' == o.(status := o'.status, paymentMethod := o'.paymentMethod)
    && (o.provider != Epay ==> o'.paymentMethod == o.paymentMethod)
  }

  ghost predicate ChangesOwn(d: Database, d': Database, job: Job, t: string)
    requires t in d.orders
  {
    && t in d'.orders
    && (d'.orders[t] != d.orders[t] ==>
          job.trade == t && MayChange(job, d.orders[t].provider) && Settles(d.orders[t], d'.orders[t]))
  }

  lemma RunChanges(s: State, p: nat, ok: bool, t: string)
    requires p in s.procs && RowInv(s.db, s.procs[p]) && CanRun(s.lock, s.procs[p]) && t in s.db.orders
    ensures ChangesOwn(s.db, RunStep(s, p, s.procs[p], ok).db, s.procs[p].job, t)
  {}

  lemma RunKeepsRest(s: State, p: nat, ok: bool)
    requires p in s.procs && CanRun(s.lock, s.procs[p])
    ensures RunStep(s, p, s.procs[p], ok).db.requests == s.db.requests
  {}

  /** One step changes at most the order its callback names, of its own provider, and only from
      pending to a terminal status; user, provider, amount and money never change. The exception is
      a creating request that gives up, which stores its order as failed whatever it was. */
  ghost predicate StepChange(s: State, a: Action, d': Database, t: string)
    requires t in s.db.orders && (a.Run? ==> a.p in s.procs)
  {
    && t in d'.orders
    && (a == GiveUp(t) ==> Overwrites(s.db.orders[t].provider) && d'.orders[t] == s.db.orders[t].(status := Failed))
    && (a != GiveUp(t) && d'.orders[t] != s.db.orders[t] ==>
          && Settles(s.db.orders[t], d'.orders[t])
          && (a.WaffoFail? || a.Run?)
          && (a.WaffoFail? ==> s.db.orders[t].provider == Waffo)
          && (a.Run? ==> s.procs[a.p].job.trade == t && MayChange(s.procs[a.p].job, s.db.orders[t].provider)))
  }

  lemma StepChangesOwnPending(s: State, a: Action, t: string)
    requires Inv(s) && Enabled(s, a) && t in s.db.orders
    ensures StepChange(s, a, Next(s, a).db, t)
  {
    if a.Run? {
      assert RowInv(s.db, s.procs[a.p]);
      RunChanges(s, a.p, a.ok, t);
    } else if a.GiveUp? {
      assert RequestOk(s.db, a.trade);
    }
  }

  /** What a run does to rows, step by step. */
  ghost predicate RowRun(states: seq<State>, acts: seq<Action>) {
    && |states| == |acts| + 1
    && (forall k | 0 <= k < |acts| :: RowsStep(states[k].db, acts[k], states[k+1].db))
  }

  ghost predicate RowsStep(d: Database, a: Action, d': Database) {
    (a.GiveUp? ==> a.trade in d.orders) && forall t | t in d.orders :: RowStep(d, a, d', t)
  }

  predicate RowStep(d: Database, a: Action, d': Database, t: string)
    requires t in d.orders
  {
    && t in d'.orders
    && (a == GiveUp(t) ==> Overwrites(d.orders[t].provider) && d'.orders[t] == d.orders[t].(status := Failed))
    && (a != GiveUp(t) && d'.orders[t] != d.orders[t] ==> Settles(d.orders[t], d'.orders[t]))
  }

  lemma RunIsRowRun(states: seq<State>, acts: seq<Action>)
    requires IsRun(states, acts)
    ensures RowRun(states, acts)
  {
    forall k | 0 <= k < |acts| ensures RowsStep(states[k].db, acts[k], states[k+1].db) {
      RunInv(states, acts, k);
      NextRows(states[k], acts[k]);
    }
  }

  lemma NextRows(s: State, a: Action)
    requires Inv(s) && Enabled(s, a)
    ensures RowsStep(s.db, a, Next(s, a).db)
  {
    forall t | t in s.db.orders ensures RowStep(s.db, a, Next(s, a).db, t) { StepChangesOwnPending(s, a, t); }
    if a.GiveUp? { assert RequestOk(s.db, a.trade); }
  }

  ghost predicate GivenUp(acts: seq<Action>, i: nat, j: nat, t: string)
    requires j <= |acts|
  {
    exists k :: i <= k < j && acts[k] == GiveUp(t)
  }

  /** A failed order stays as it is. */
  lemma {:induction false} FailedStays(states: seq<State>, acts: seq<Action>, i: nat, j: nat, t: string)
    requires RowRun(states, acts) && i <= j < |states|
    requires t in states[i].db.orders && states[i].db.orders[t].status == Failed
    ensures t in states[j].db.orders && states[j].db.orders[t] == states[i].db.orders[t]
  {
    if i < j {
      FailedStays(states, acts, i, j - 1, t);
      assert RowsStep(states[j-1].db, acts[j-1], states[j].db);
    }
  }

  lemma GivenUpFails(states: seq<State>, acts: seq<Action>, k: nat, j: nat, t: string)
    requires RowRun(states, acts) && k < j < |states| && acts[k] == GiveUp(t)
    ensures t in states[j].db.orders && states[j].db.orders[t].status == Failed && Overwrites(states[j].db.orders[t].provider)
  {
    assert RowsStep(states[k].db, acts[k], states[k+1].db);
    FailedStays(states, acts, k + 1, j, t);
  }

  lemma {:induction false} UnlessGivenUp(states: seq<State>, acts: seq<Action>, i: nat, j: nat, t: string)
    requires RowRun(states, acts) && i <= j < |states| && !GivenUp(acts, i, j, t)
    requires t in states[i].db.orders && states[i].db.orders[t].status != Pending
    ensures t in states[j].db.orders && states[j].db.orders[t] == states[i].db.orders[t]
  {
    if i < j {
      UnlessGivenUp(states, acts, i, j - 1, t);
      assert RowsStep(states[j-1].db, acts[j-1], states[j].db);
    }
  }

  /** Over a whole run a settled order is final, its row never changing again, if and only if it
      failed or its creating request does not give up afterwards. */
  lemma SettledIsFinalIff(states: seq<State>, acts: seq<Action>, i: nat, j: nat, t: string)
    requires IsRun(states, acts) && i <= j < |states|
    requires t in states[i].db.orders && states[i].db.orders[t].status != Pending
    ensures t in states[j].db.orders
    ensures states[j].db.orders[t] == states[i].db.orders[t] <==> states[i].db.orders[t].status == Failed || !GivenUp(acts, i, j, t)
  {
    RunIsRowRun(states, acts);
    FinalIff(states, acts, i, j, t);
  }

  lemma FinalIff(states: seq<State>, acts: seq<Action>, i: nat, j: nat, t: string)
    requires RowRun(states, acts) && i <= j < |states|
    requires t in states[i].db.orders && states[i].db.orders[t].status != Pending
    ensures t in states[j].db.orders
    ensures states[j].db.orders[t] == states[i].db.orders[t] <==> states[i].db.orders[t].status == Failed || !GivenUp(acts, i, j, t)
  {
    if states[i].db.orders[t].status == Failed {
      FailedStays(states, acts, i, j, t);
    } else if GivenUp(acts, i, j, t) {
      var k :| i <= k < j && acts[k] == GiveUp(t);
      GivenUpFails(states, acts, k, j, t);
    } else {
      UnlessGivenUp(states, acts, i, j, t);
    }
  }

  /** So orders of every other provider are final without further ado. */
  lemma SettledIsFinal(states: seq<State>, acts: seq<Action>, i: nat, j: nat, t: string)
    requires IsRun(states, acts) && i <= j < |states|
    requires t in states[i].db.orders && states[i].db.orders[t].status != Pending && !Overwrites(states[i].db.orders[t].provider)
    ensures t in states[j].db.orders && states[j].db.orders[t] == states[i].db.orders[t]
  {
    RunIsRowRun(states, acts);
    OnlyOverwriters(states, acts, i, j, t);
    FinalIff(states, acts, i, j, t);
  }

  lemma {:induction false} ProviderStays(states: seq<State>, acts: seq<Action>, i: nat, j: nat, t: string)
    requires RowRun(states, acts) && i <= j < |states| && t in states[i].db.orders
    ensures t in states[j].db.orders && states[j].db.orders[t].provider == states[i].db.orders[t].provider
  {
    if i < j {
      ProviderStays(states, acts, i, j - 1, t);
      assert RowsStep(states[j-1].db, acts[j-1], states[j].db);
    }
  }

  lemma OnlyOverwriters(states: seq<State>, acts: seq<Action>, i: nat, j: nat, t: string)
    requires RowRun(states, acts) && i <= j < |states| && t in states[i].db.orders && !Overwrites(states[i].db.orders[t].provider)
    ensures !GivenUp(acts, i, j, t)
  {
    if GivenUp(acts, i, j, t) {
      var k :| i <= k < j && acts[k] == GiveUp(t);
      ProviderStays(states, acts, i, j, t);
      GivenUpFails(states, acts, k, j, t);
    }
  }

  // ---------------------------------------------------------------- credits and the rows behind them

  /** The order a credit was given for is stored as successful. */
  predicate Backed(d: Database, c: Credit) { Booked(d, c) && d.orders[c.trade].status == Success }

  lemma SettleBacked(d: Database, t: string, quota: real, positive: bool, c: Credit)
    requires t in d.orders && quota in {QuotaFor(d.orders[t]), AdminQuota(d.orders[t])}
    requires Settle(d, t, quota, positive).credits == d.credits + [c]
    ensures Backed(Settle(d, t, quota, positive), c)
  {
    var d' := Settle(d, t, quota, positive);
    assert d'.credits[|d.credits|] == c;
  }

  lemma TransactBacked(d: Database, job: Job, ok: bool, c: Credit)
    requires Transact(d, job, ok).credits == d.credits + [c]
    ensures Backed(Transact(d, job, ok), c)
  {
    var t := job.trade;
    assert |Transact(d, job, ok).credits| != |d.credits|;
    if job.Recharge? {
      SettleBacked(d, t, QuotaFor(d.orders[t]), job.provider !in {Stripe, Creem}, c);
    } else {
      SettleBacked(d, t, AdminQuota(d.orders[t]), true, c);
    }
  }

  /** A new credit is backed. */
  lemma NewCreditBacked(s: State, p: nat, ok: bool, c: Credit)
    requires p in s.procs && RowInv(s.db, s.procs[p]) && CanRun(s.lock, s.procs[p])
    requires RunStep(s, p, s.procs[p], ok).db.credits == s.db.credits + [c]
    ensures Backed(RunStep(s, p, s.procs[p], ok).db, c)
  {
    var x := s.procs[p];
    assert |RunStep(s, p, x, ok).db.credits| != |s.db.credits|;
    if x.pc.ReadRow? {
      TransactBacked(s.db, x.job, ok, c);
    } else {
      var d' := Increase(s.db, x.job.trade, x.row, ok);
      assert d'.credits[|s.db.credits|] == c;
    }
  }

  /** What a run does to credits: it keeps them, booked; a new one is backed. */
  ghost predicate CreditRun(states: seq<State>, acts: seq<Action>) {
    && RowRun(states, acts) && states[0].db.credits == []
    && (forall k | 0 <= k < |states| :: Ledger(states[k].db))
    && (forall k | 0 <= k < |acts| :: CreditStepOk(states[k].db, states[k+1].db))
  }

  ghost predicate CreditStepOk(d: Database, d': Database) {
    d'.credits == d.credits || exists c :: d'.credits == d.credits + [c] && Backed(d', c)
  }

  lemma RunIsCreditRun(states: seq<State>, acts: seq<Action>)
    requires IsRun(states, acts)
    ensures CreditRun(states, acts)
  {
    RunIsRowRun(states, acts);
    forall k | 0 <= k < |states| ensures Ledger(states[k].db) { RunInv(states, acts, k); }
    forall k | 0 <= k < |acts| ensures CreditStepOk(states[k].db, states[k+1].db) { NewCreditsBacked(states, acts, k); }
  }

  lemma NewCreditsBacked(states: seq<State>, acts: seq<Action>, k: nat)
    requires IsRun(states, acts) && k < |acts|
    ensures CreditStepOk(states[k].db, states[k+1].db)
  {
    if states[k+1].db.credits != states[k].db.credits {
      EpayCreditsAfterSuccess(states, acts, k);
      RunInv(states, acts, k);
      var p := acts[k].p;
      assert RowInv(states[k].db, states[k].procs[p]);
      NewCreditBacked(states[k], p, acts[k].ok, CreditFor(states[k].db, states[k].procs[p].job));
    }
  }

  lemma BackedAfter(d: Database, a: Action, d': Database, c: Credit)
    requires Booked(d, c) && RowStep(d, a, d', c.trade)
    ensures Backed(d', c) <==> Backed(d, c) && a != GiveUp(c.trade)
  {}

  /** A credit stands behind an order stored as successful if and only if the order's creating request
      did not give up: not before, when it could not have been credited, and not since. */
  lemma BackedIff(states: seq<State>, acts: seq<Action>, k: nat, i: nat)
    requires IsRun(states, acts) && k < |states| && i < |states[k].db.credits|
    ensures Backed(states[k].db, states[k].db.credits[i]) <==> !GivenUp(acts, 0, k, states[k].db.credits[i].trade)
  {
    RunIsCreditRun(states, acts);
    BackedSoFar(states, acts, k, i);
  }

  lemma {:induction false} BackedSoFar(states: seq<State>, acts: seq<Action>, k: nat, i: nat)
    requires CreditRun(states, acts) && k < |states| && i < |states[k].db.credits|
    ensures Backed(states[k].db, states[k].db.credits[i]) <==> !GivenUp(acts, 0, k, states[k].db.credits[i].trade)
  {
    if k > 0 {
      var d, d', c := states[k-1].db, states[k].db, states[k].db.credits[i];
      assert CreditStepOk(d, d') && Ledger(d) && Ledger(d');
      if i < |d.credits| {
        assert d.credits[i] == c && Booked(d, c) && RowsStep(d, acts[k-1], d');
        BackedSoFar(states, acts, k - 1, i);
        BackedAfter(d, acts[k-1], d', c);
      } else {
        NotGivenUp(states, acts, k, c);
      }
    }
  }

  lemma NotGivenUp(states: seq<State>, acts: seq<Action>, k: nat, c: Credit)
    requires RowRun(states, acts) && k < |states| && Backed(states[k].db, c)
    ensures !GivenUp(acts, 0, k, c.trade)
  {
    if GivenUp(acts, 0, k, c.trade) {
      var j :| 0 <= j < k && acts[j] == GiveUp(c.trade);
      GivenUpFails(states, acts, j, k, c.trade);
    }
  }

  /** Credits of every other provider's orders are backed in every state of every run. */
  lemma CreditBacked(states: seq<State>, acts: seq<Action>, k: nat, i: nat)
    requires IsRun(states, acts) && k < |states| && i < |states[k].db.credits|
    requires var c := states[k].db.credits[i]; c.trade in states[k].db.orders && !Overwrites(states[k].db.orders[c.trade].provider)
    ensures Backed(states[k].db, states[k].db.credits[i])
  {
    var t := states[k].db.credits[i].trade;
    RunIsRowRun(states, acts);
    BackedIff(states, acts, k, i);
    if GivenUp(acts, 0, k, t) {
      var j :| 0 <= j < k && acts[j] == GiveUp(t);
      GivenUpFails(states, acts, j, k, t);
    }
  }

  // ---------------------------------------------------------------- a run that ends in a failed, credited order

  /** A run goes on with one more action. */
  lemma Extend(states: seq<State>, acts: seq<Action>, a: Action, s': State) returns (states': seq<State>, acts': seq<Action>)
    requires IsRun(states, acts) && Enabled(states[|acts|], a) && s' == Next(states[|acts|], a)
    ensures IsRun(states', acts') && states'[|acts'|] == s'
  {
    states', acts' := states + [s'], acts + [a];
  }

  /** A lone goroutine through the create section of LockOrder. */
  lemma CreateAlone(states: seq<State>, acts: seq<Action>, job: Job, d: Database) returns (states': seq<State>, acts': seq<Action>)
    requires IsRun(states, acts) && states[|acts|] == State(map[], NoLocks, d)
    ensures IsRun(states', acts')
    ensures states'[|acts'|] == Alone(Register, job, LockTable(true, map[job.trade := 0], [RefCountedMutex(false, 0)], false), d)
  {
    states', acts' := Extend(states, acts, Spawn(0, job), Alone(Start, job, NoLocks, d));
    var taken := LockTable(true, map[], [], false);
    states', acts' := Extend(states', acts', Run(0, true), Alone(LookUp, job, taken, d));
    states', acts' := Extend(states', acts', Run(0, true), Alone(Create, job, taken, d));
    states', acts' := Extend(states', acts', Run(0, true), Alone(Register, job, LockTable(true, map[job.trade := 0], [RefCountedMutex(false, 0)], false), d));
  }

  function Alone(pc: PC, job: Job, l: LockTable, d: Database): State { State(map[0 := Proc(pc, job, 0, 0, NoRow)], l, d) }

  /** A lone goroutine through LockOrder. */
  lemma LockAlone(states: seq<State>, acts: seq<Action>, job: Job, d: Database) returns (states': seq<State>, acts': seq<Action>)
    requires IsRun(states, acts) && states[|acts|] == State(map[], NoLocks, d)
    ensures IsRun(states', acts')
    ensures states'[|acts'|] == Locked(d, job)
  {
    var locks := map[job.trade := 0];
    states', acts' := CreateAlone(states, acts, job, d);
    states', acts' := Extend(states', acts', Run(0, true), Alone(Release, job, LockTable(true, locks, [RefCountedMutex(false, 1)], false), d));
    states', acts' := Extend(states', acts', Run(0, true), Alone(Acquire, job, LockTable(false, locks, [RefCountedMutex(false, 1)], false), d));
    states', acts' := Extend(states', acts', Run(0, true), Locked(d, job));
  }

  function Locked(d: Database, job: Job): State {
    Alone(ReadRow, job, LockTable(false, map[job.trade := 0], [RefCountedMutex(true, 1)], false), d)
  }

  /** A run that inserts an order and completes it by hand. */
  lemma CompletedByHand(t: string, o: Order) returns (states: seq<State>, acts: seq<Action>)
    requires o.status == Pending && AdminQuota(o) > 0.0
    ensures IsRun(states, acts)
    ensures var d := states[|acts|].db; d.credits == [Credit(t, o.userId, AdminQuota(o))] && t in d.orders
    ensures t in states[|acts|].db.requests <==> Overwrites(o.provider)
  {
    var start := State(map[], NoLocks, Database(map[], [], map[]));
    var inserted := Outside(start.db, Insert(t, o));
    states, acts := [start], [];
    states, acts := Extend(states, acts, Insert(t, o), State(map[], NoLocks, inserted));
    states, acts := LockAlone(states, acts, AdminComplete(t), inserted);
    var s := Locked(inserted, AdminComplete(t));
    states, acts := Extend(states, acts, Run(0, true), ReadStep(s, 0, s.procs[0], true));
  }

  /** An administrator completes a Waffo or Pancake order while its creating request waits for the
      provider; the provider call then fails. The user has the quota and the order is stored as failed. */
  lemma CreditedThenFailed(t: string, o: Order) returns (states: seq<State>, acts: seq<Action>)
    requires Overwrites(o.provider) && o.status == Pending && o.amount > 0
    ensures IsRun(states, acts)
    ensures var d := states[|acts|].db;
      d.credits == [Credit(t, o.userId, AdminQuota(o))] && t in d.orders && d.orders[t].status == Failed
  {
    states, acts := CompletedByHand(t, o);
    var credited := states[|acts|];
    states, acts := Extend(states, acts, GiveUp(t), credited.(db := Outside(credited.db, GiveUp(t))));
  }

  /** One unit bought through Stripe at a group ratio of 0.333333: Stripe's callback credits half a unit
      of quota more than an administrator. */
  lemma StripeByHand(t: string, userId: int) returns (states: seq<State>, acts: seq<Action>)
    ensures IsRun(states, acts)
    ensures var o := Order(Stripe, Pending, "stripe", userId, 1, 0.333333);
      states[|acts|].db.credits == [Credit(t, userId, 166666.0)] && QuotaFor(o) == 166666.5
  {
    states, acts := CompletedByHand(t, Order(Stripe, Pending, "stripe", userId, 1, 0.333333));
  }
}
