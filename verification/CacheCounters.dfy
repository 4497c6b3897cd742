/**
 The global cache counters (common/disk_cache_config.go) under concurrent creation and closing
 of storages (common/body_storage.go) and the removal of old files (common/disk_cache.go). Every
 atomic operation is one step; each storage's creator or closer, and each removal, may be stopped
 between any two of them while others proceed.
 */
module CacheCounters {

  /** Where a storage stands between its creation and the end of its first Close. */
  datatype Phase =
    | Created          // no counter touched yet
    | Counted          // file counted, bytes not yet
    | Open
    | Closing          // the closed flag is ours, nothing subtracted yet
    | FilesNegative    // the subtraction left a negative count, which is to be stored as 0
    | FilesDropped
    | BytesNegative
    | Gone

  datatype Storage = Storage(disk: bool, size: nat, phase: Phase)

  datatype Counters = Counters(files: int, bytes: int)

  /** A sweep removes a file by its age and subtracts it as a close would, though no storage is closed. */
  datatype State = State(storages: seq<Storage>, sweeps: seq<Storage>, disk: Counters, memory: Counters)

  datatype Action = Create(disk: bool, size: nat) | Advance(i: nat) | Close(i: nat) | Sweep(size: nat) | AdvanceSweep(i: nat)

  const Start := State([], [], Counters(0, 0), Counters(0, 0))

  function Of(s: State, disk: bool): Counters { if disk then s.disk else s.memory }

  function With(s: State, disk: bool, c: Counters): State { if disk then s.(disk := c) else s.(memory := c) }

  /** The counters' next value and the storage's next phase. Only the disk counters are clamped. */
  function Stepped(st: Storage, c: Counters): (Counters, Phase) {
    match st.phase
    case Created => (c.(files := c.files + 1), Counted)
    case Counted => (c.(bytes := c.bytes + st.size), Open)
    case Open => (c, Open)
    case Closing => (c.(files := c.files - 1), if st.disk && c.files - 1 < 0 then FilesNegative else FilesDropped)
    case FilesNegative => (c.(files := 0), FilesDropped)
    case FilesDropped => (c.(bytes := c.bytes - st.size), if st.disk && c.bytes - st.size < 0 then BytesNegative else Gone)
    case BytesNegative => (c.(bytes := 0), Gone)
    case Gone => (c, Gone)
  }

  function InPhase(s: State, i: nat, p: Phase): State
    requires i < |s.storages|
  {
    s.(storages := s.storages[i := s.storages[i].(phase := p)])
  }

  function Next(s: State, a: Action): State {
    match a
    case Create(disk, size) => s.(storages := s.storages + [Storage(disk, size, Created)])
    case Advance(i) =>
      if i >= |s.storages| then s
      else
        var st := s.storages[i];
        var (c, p) := Stepped(st, Of(s, st.disk));
        With(InPhase(s, i, p), st.disk, c)
    case Close(i) =>
      // the compare-and-swap succeeds for the first close only
      if i < |s.storages| && s.storages[i].phase == Open then InPhase(s, i, Closing) else s
    case Sweep(size) => s.(sweeps := s.sweeps + [Storage(true, size, Closing)])
    case AdvanceSweep(i) =>
      if i >= |s.sweeps| then s
      else
        var (c, p) := Stepped(s.sweeps[i], s.disk);
        s.(sweeps := s.sweeps[i := s.sweeps[i].(phase := p)], disk := c)
  }

  function Run(actions: seq<Action>): State {
    if actions == [] then Start else Next(Run(actions[..|actions| - 1]), actions[|actions| - 1])
  }

  // ---------------------------------------------------------------- weights

  function Weigh(storages: seq<Storage>, weight: Storage -> int): int {
    if storages == [] then 0 else Weigh(storages[..|storages| - 1], weight) + weight(storages[|storages| - 1])
  }

  /** What a storage accounts for in the file count and the byte count of its kind. */
  function Files(disk: bool): Storage -> int {
    (st: Storage) => if st.disk == disk && (st.phase == Counted || st.phase == Open || st.phase == Closing) then 1 else 0
  }

  function Bytes(disk: bool): Storage -> int {
    (st: Storage) =>
      if st.disk == disk && (st.phase == Open || st.phase == Closing || st.phase == FilesNegative || st.phase == FilesDropped)
      then st.size else 0
  }

  /** The storages a caller holds open. */
  function OpenFiles(disk: bool): Storage -> int { (st: Storage) => if st.disk == disk && st.phase == Open then 1 else 0 }

  function OpenBytes(disk: bool): Storage -> int { (st: Storage) => if st.disk == disk && st.phase == Open then st.size else 0 }

  lemma {:induction false} WeighUpdate(storages: seq<Storage>, weight: Storage -> int, i: nat, st: Storage)
    requires i < |storages|
    ensures Weigh(storages[i := st], weight) == Weigh(storages, weight) - weight(storages[i]) + weight(st)
  {
    var n := |storages| - 1;
    if i == n {
      assert storages[i := st][..n] == storages[..n];
    } else {
      assert storages[i := st][..n] == storages[..n][i := st];
      WeighUpdate(storages[..n], weight, i, st);
    }
  }

  lemma WeighAppend(storages: seq<Storage>, weight: Storage -> int, st: Storage)
    ensures Weigh(storages + [st], weight) == Weigh(storages, weight) + weight(st)
  {
    assert (storages + [st])[..|storages|] == storages;
  }

  lemma {:induction false} WeighAtLeast(storages: seq<Storage>, weight: Storage -> int, i: nat)
    requires i < |storages| && forall st :: weight(st) >= 0
    ensures Weigh(storages, weight) >= weight(storages[i])
  {
    var n := |storages| - 1;
    if i < n { WeighAtLeast(storages[..n], weight, i); } else { WeighPositive(storages[..n], weight); }
  }

  lemma {:induction false} WeighPositive(storages: seq<Storage>, weight: Storage -> int)
    requires forall st :: weight(st) >= 0
    ensures Weigh(storages, weight) >= 0
  {
    if storages != [] { WeighPositive(storages[..|storages| - 1], weight); }
  }

  lemma {:induction false} WeighSame(storages: seq<Storage>, a: Storage -> int, b: Storage -> int)
    requires forall st :: st in storages ==> a(st) == b(st)
    ensures Weigh(storages, a) == Weigh(storages, b)
  {
    if storages != [] { WeighSame(storages[..|storages| - 1], a, b); }
  }

  // ---------------------------------------------------------------- the invariant

  ghost predicate Balanced(s: State, disk: bool) {
    && Of(s, disk).files == Weigh(s.storages, Files(disk))
    && Of(s, disk).bytes == Weigh(s.storages, Bytes(disk))
  }

  ghost predicate NeverNegative(s: State) {
    forall i :: 0 <= i < |s.storages| ==> s.storages[i].phase != FilesNegative && s.storages[i].phase != BytesNegative
  }

  ghost predicate Inv(s: State) { Balanced(s, true) && Balanced(s, false) && NeverNegative(s) && s.sweeps == [] }

  lemma PhaseChange(s: State, i: nat, p: Phase, disk: bool)
    requires i < |s.storages|
    ensures var st := s.storages[i]; var after := InPhase(s, i, p).storages;
            && Weigh(after, Files(disk)) == Weigh(s.storages, Files(disk)) - Files(disk)(st) + Files(disk)(st.(phase := p))
            && Weigh(after, Bytes(disk)) == Weigh(s.storages, Bytes(disk)) - Bytes(disk)(st) + Bytes(disk)(st.(phase := p))
  {
    var st := s.storages[i];
    WeighUpdate(s.storages, Files(disk), i, st.(phase := p));
    WeighUpdate(s.storages, Bytes(disk), i, st.(phase := p));
  }

  lemma StepBalance(st: Storage, c: Counters)
    requires c.files >= Files(st.disk)(st) && c.bytes >= Bytes(st.disk)(st) && st.phase != FilesNegative && st.phase != BytesNegative
    ensures var (c', p) := Stepped(st, c);
            && c'.files == c.files - Files(st.disk)(st) + Files(st.disk)(st.(phase := p))
            && c'.bytes == c.bytes - Bytes(st.disk)(st) + Bytes(st.disk)(st.(phase := p))
            && p != FilesNegative && p != BytesNegative
  {}

  lemma AdvanceKeeps(s: State, i: nat)
    requires Inv(s) && i < |s.storages|
    ensures Inv(Next(s, Advance(i)))
  {
    var st := s.storages[i];
    assert Balanced(s, st.disk);
    WeighAtLeast(s.storages, Files(st.disk), i);
    WeighAtLeast(s.storages, Bytes(st.disk), i);
    StepBalance(st, Of(s, st.disk));
    var p := Stepped(st, Of(s, st.disk)).1;
    forall kind: bool ensures Balanced(Next(s, Advance(i)), kind) {
      assert Balanced(s, kind);
      PhaseChange(s, i, p, kind);
    }
  }

  lemma CreateKeeps(s: State, disk: bool, size: nat)
    requires Inv(s)
    ensures Inv(Next(s, Create(disk, size)))
  {
    var st := Storage(disk, size, Created);
    forall kind: bool ensures Balanced(Next(s, Create(disk, size)), kind) { CreatedWeighs(s.storages, st, kind); }
  }

  /** A storage weighs nothing before it is counted. */
  lemma CreatedWeighs(storages: seq<Storage>, st: Storage, kind: bool)
    requires st.phase == Created
    ensures Weigh(storages + [st], Files(kind)) == Weigh(storages, Files(kind))
    ensures Weigh(storages + [st], Bytes(kind)) == Weigh(storages, Bytes(kind))
  {
    WeighAppend(storages, Files(kind), st);
    WeighAppend(storages, Bytes(kind), st);
  }

  lemma CloseKeeps(s: State, i: nat)
    requires Inv(s) && i < |s.storages|
    ensures Inv(Next(s, Close(i)))
  {
    forall kind: bool ensures Balanced(Next(s, Close(i)), kind) { PhaseChange(s, i, Closing, kind); }
  }

  lemma NextKeeps(s: State, a: Action)
    requires Inv(s) && !a.Sweep?
    ensures Inv(Next(s, a))
  {
    match a
    case Create(disk, size) => CreateKeeps(s, disk, size);
    case Advance(i) => if i < |s.storages| { AdvanceKeeps(s, i); }
    case Close(i) => if i < |s.storages| { CloseKeeps(s, i); }
    case AdvanceSweep(_) =>
  }

  predicate NoSweeps(actions: seq<Action>) { forall i :: 0 <= i < |actions| ==> !actions[i].Sweep? }

  lemma {:induction false} RunInv(actions: seq<Action>)
    requires NoSweeps(actions)
    ensures Inv(Run(actions))
  {
    if actions != [] {
      RunInv(actions[..|actions| - 1]);
      NextKeeps(Run(actions[..|actions| - 1]), actions[|actions| - 1]);
    }
  }

  /** No creation, close or sweep under way. */
  ghost predicate Quiescent(s: State) {
    && (forall st :: st in s.storages ==> st.phase == Created || st.phase == Open || st.phase == Gone)
    && (forall st :: st in s.sweeps ==> st.phase == Gone)
  }

  /** The counters say exactly which storages of a kind are open. */
  ghost predicate Exact(s: State, disk: bool) {
    Of(s, disk) == Counters(Weigh(s.storages, OpenFiles(disk)), Weigh(s.storages, OpenBytes(disk)))
  }

  lemma OpenAtRest(s: State, disk: bool)
    requires Quiescent(s)
    ensures Weigh(s.storages, Files(disk)) == Weigh(s.storages, OpenFiles(disk))
    ensures Weigh(s.storages, Bytes(disk)) == Weigh(s.storages, OpenBytes(disk))
  {
    WeighSame(s.storages, Files(disk), OpenFiles(disk));
    WeighSame(s.storages, Bytes(disk), OpenBytes(disk));
  }

  /** Whatever was created and closed, in whatever interleaving, whenever nothing is under way the
      counters are the number and total size of the open storages; sweeps can only spoil the disk's. */
  lemma QuiescentExact(actions: seq<Action>, disk: bool)
    requires Quiescent(Run(actions)) && (disk ==> NoSweeps(actions))
    ensures Exact(Run(actions), disk)
  {
    if disk { RunInv(actions); } else { Accounts(actions); }
    assert Balanced(Run(actions), disk);
    OpenAtRest(Run(actions), disk);
  }

  /** Without sweeps no counter is negative at any point of any run, so the clamp to zero never has
      anything to do. */
  lemma NeverClamped(actions: seq<Action>, disk: bool)
    requires NoSweeps(actions)
    ensures Of(Run(actions), disk).files >= 0 && Of(Run(actions), disk).bytes >= 0
    ensures NeverNegative(Run(actions))
  {
    var s := Run(actions);
    RunInv(actions);
    assert Balanced(s, disk);
    WeighPositive(s.storages, Files(disk));
    WeighPositive(s.storages, Bytes(disk));
  }

  // ---------------------------------------------------------------- what sweeps cost

  /** What storing 0 over a counter adds to it. */
  function Gift(st: Storage, c: Counters): Counters {
    if !st.disk then Counters(0, 0)
    else Counters(if st.phase == FilesNegative then -c.files else 0, if st.phase == BytesNegative then -c.bytes else 0)
  }

  function Given(s: State, a: Action): Counters {
    if a.Advance? && a.i < |s.storages| then Gift(s.storages[a.i], s.disk)
    else if a.AdvanceSweep? && a.i < |s.sweeps| then Gift(s.sweeps[a.i], s.disk)
    else Counters(0, 0)
  }

  /** All that the clamp has given back to the disk counters in a run. */
  function GivenBack(actions: seq<Action>): Counters {
    if actions == [] then Counters(0, 0)
    else
      var init := actions[..|actions| - 1];
      Sum(GivenBack(init), Given(Run(init), actions[|actions| - 1]))
  }

  function Sum(a: Counters, b: Counters): Counters { Counters(a.files + b.files, a.bytes + b.bytes) }

  function Size(): Storage -> int { (st: Storage) => st.size }

  /** What the sweeps have subtracted so far. */
  function Taken(sweeps: seq<Storage>): Counters {
    Counters(|sweeps| - Weigh(sweeps, Files(true)), Weigh(sweeps, Size()) - Weigh(sweeps, Bytes(true)))
  }

  ghost predicate Accounted(s: State, given: Counters) {
    && s.disk.files == Weigh(s.storages, Files(true)) - Taken(s.sweeps).files + given.files
    && s.disk.bytes == Weigh(s.storages, Bytes(true)) - Taken(s.sweeps).bytes + given.bytes
    && Balanced(s, false)
    && forall i :: 0 <= i < |s.sweeps| ==> s.sweeps[i].disk
  }

  /** One step of one storage, whatever the counters are. */
  lemma StepAccount(st: Storage, c: Counters)
    requires st.disk || (st.phase != FilesNegative && st.phase != BytesNegative)
    ensures var (c', p) := Stepped(st, c); var given := Gift(st, c); var after := st.(phase := p);
            && c'.files == c.files - Files(st.disk)(st) + Files(st.disk)(after) + given.files
            && c'.bytes == c.bytes - Bytes(st.disk)(st) + Bytes(st.disk)(after) + given.bytes
            && (st.disk || (p != FilesNegative && p != BytesNegative))
  {}

  /** Memory counters are never clamped. */
  ghost predicate MemoryUnclamped(s: State) {
    forall i :: 0 <= i < |s.storages| && !s.storages[i].disk ==> s.storages[i].phase != FilesNegative && s.storages[i].phase != BytesNegative
  }

  lemma NothingGiven(s: State, a: Action, given: Counters)
    requires !a.Advance? && !a.AdvanceSweep?
    ensures Sum(given, Given(s, a)) == given
  {}

  lemma AdvanceAccounts(s: State, i: nat, given: Counters)
    requires Accounted(s, given) && MemoryUnclamped(s) && i < |s.storages|
    ensures Accounted(Next(s, Advance(i)), Sum(given, Gift(s.storages[i], s.disk))) && MemoryUnclamped(Next(s, Advance(i)))
  {
    var st := s.storages[i];
    StepAccount(st, Of(s, st.disk));
    var p := Stepped(st, Of(s, st.disk)).1;
    PhaseChange(s, i, p, true);
    PhaseChange(s, i, p, false);
  }

  lemma SweepAdvances(s: State, i: nat, given: Counters)
    requires Accounted(s, given) && i < |s.sweeps|
    ensures Accounted(Next(s, AdvanceSweep(i)), Sum(given, Gift(s.sweeps[i], s.disk)))
  {
    var st := s.sweeps[i];
    StepAccount(st, s.disk);
    var after := st.(phase := Stepped(st, s.disk).1);
    WeighUpdate(s.sweeps, Files(true), i, after);
    WeighUpdate(s.sweeps, Bytes(true), i, after);
    WeighUpdate(s.sweeps, Size(), i, after);
  }

  lemma SweepStarts(s: State, size: nat, given: Counters)
    requires Accounted(s, given)
    ensures Accounted(Next(s, Sweep(size)), given)
  {
    var st := Storage(true, size, Closing);
    WeighAppend(s.sweeps, Files(true), st);
    WeighAppend(s.sweeps, Bytes(true), st);
    WeighAppend(s.sweeps, Size(), st);
  }

  lemma CreateAccounts(s: State, disk: bool, size: nat, given: Counters)
    requires Accounted(s, given) && MemoryUnclamped(s)
    ensures Accounted(Next(s, Create(disk, size)), given) && MemoryUnclamped(Next(s, Create(disk, size)))
  {
    CreatedWeighs(s.storages, Storage(disk, size, Created), true);
    CreatedWeighs(s.storages, Storage(disk, size, Created), false);
  }

  lemma CloseAccounts(s: State, i: nat, given: Counters)
    requires Accounted(s, given) && MemoryUnclamped(s) && i < |s.storages|
    ensures Accounted(Next(s, Close(i)), given) && MemoryUnclamped(Next(s, Close(i)))
  {
    PhaseChange(s, i, Closing, true);
    PhaseChange(s, i, Closing, false);
  }

  lemma NextAccounts(s: State, a: Action, given: Counters)
    requires Accounted(s, given) && MemoryUnclamped(s)
    ensures Accounted(Next(s, a), Sum(given, Given(s, a))) && MemoryUnclamped(Next(s, a))
  {
    if !a.Advance? && !a.AdvanceSweep? { NothingGiven(s, a, given); }
    match a
    case Create(disk, size) => CreateAccounts(s, disk, size, given);
    case Advance(i) => if i < |s.storages| { AdvanceAccounts(s, i, given); }
    case Close(i) => if i < |s.storages| { CloseAccounts(s, i, given); }
    case Sweep(size) => SweepStarts(s, size, given);
    case AdvanceSweep(i) => if i < |s.sweeps| { SweepAdvances(s, i, given); }
  }

  lemma {:induction false} RunAccounts(actions: seq<Action>)
    ensures Accounted(Run(actions), GivenBack(actions)) && MemoryUnclamped(Run(actions))
  {
    if actions == [] {
      StartAccounts(Start, Counters(0, 0));
    } else {
      var init, a := actions[..|actions| - 1], actions[|actions| - 1];
      RunAccounts(init);
      NextAccounts(Run(init), a, GivenBack(init));
      RunUnfolds(actions);
    }
  }

  lemma StartAccounts(s: State, none: Counters)
    requires s.storages == [] && s.sweeps == [] && s.disk == s.memory == none && none.files == none.bytes == 0
    ensures Accounted(s, none) && MemoryUnclamped(s)
  {
    assert Weigh(s.storages, Files(true)) == Weigh(s.storages, Bytes(true)) == 0;
    assert Weigh(s.sweeps, Files(true)) == Weigh(s.sweeps, Bytes(true)) == Weigh(s.sweeps, Size()) == 0;
  }

  lemma RunUnfolds(actions: seq<Action>)
    requires actions != []
    ensures var init, a := actions[..|actions| - 1], actions[|actions| - 1];
            Run(actions) == Next(Run(init), a) && GivenBack(actions) == Sum(GivenBack(init), Given(Run(init), a))
  {}

  /** At every point of every run, sweeps included, the disk counters are what the storages account for,
      less what the sweeps have subtracted, plus what the clamp has given back; the memory counters are
      what the storages account for. */
  lemma Accounts(actions: seq<Action>)
    ensures var s := Run(actions); var given := GivenBack(actions);
            && s.disk.files == Weigh(s.storages, Files(true)) - Taken(s.sweeps).files + given.files
            && s.disk.bytes == Weigh(s.storages, Bytes(true)) - Taken(s.sweeps).bytes + given.bytes
            && Balanced(s, false)
  {
    RunAccounts(actions);
  }

  /** So at rest the disk counters are exact if and only if the clamp has given back every file swept and
      every byte of them. */
  lemma SweptExactIff(actions: seq<Action>)
    requires Quiescent(Run(actions))
    ensures Exact(Run(actions), true) <==>
            GivenBack(actions) == Counters(|Run(actions).sweeps|, Weigh(Run(actions).sweeps, Size()))
  {
    var s := Run(actions);
    Accounts(actions);
    OpenAtRest(s, true);
    WeighNothing(s.sweeps, Files(true));
    WeighNothing(s.sweeps, Bytes(true));
  }

  lemma {:induction false} WeighNothing(storages: seq<Storage>, weight: Storage -> int)
    requires forall st :: st in storages ==> weight(st) == 0
    ensures Weigh(storages, weight) == 0
  {
    if storages != [] { WeighNothing(storages[..|storages| - 1], weight); }
  }

  // ---------------------------------------------------------------- they never say too much

  ghost predicate AtMost(s: State) {
    s.disk.files <= Weigh(s.storages, Files(true)) && s.disk.bytes <= Weigh(s.storages, Bytes(true))
  }

  lemma AdvanceAtMost(s: State, i: nat)
    requires AtMost(s) && i < |s.storages|
    ensures AtMost(Next(s, Advance(i)))
  {
    var st := s.storages[i];
    var p := Stepped(st, Of(s, st.disk)).1;
    if st.disk { StepAccount(st, s.disk); }
    PhaseChange(s, i, p, true);
    WeighPositive(Next(s, Advance(i)).storages, Files(true));
    WeighPositive(Next(s, Advance(i)).storages, Bytes(true));
  }

  lemma CloseAtMost(s: State, i: nat)
    requires AtMost(s) && i < |s.storages|
    ensures AtMost(Next(s, Close(i)))
  {
    PhaseChange(s, i, Closing, true);
  }

  lemma SweepAtMost(s: State, i: nat)
    requires AtMost(s) && i < |s.sweeps| && s.sweeps[i].phase != Created && s.sweeps[i].phase != Counted
    ensures AtMost(Next(s, AdvanceSweep(i)))
  {
    WeighPositive(s.storages, Files(true));
    WeighPositive(s.storages, Bytes(true));
  }

  ghost predicate Sweeping(s: State) {
    forall i :: 0 <= i < |s.sweeps| ==> s.sweeps[i].phase != Created && s.sweeps[i].phase != Counted && s.sweeps[i].phase != Open
  }

  lemma NextAtMost(s: State, a: Action)
    requires AtMost(s) && Sweeping(s)
    ensures AtMost(Next(s, a)) && Sweeping(Next(s, a))
  {
    match a
    case Create(disk, size) =>
      CreatedWeighs(s.storages, Storage(disk, size, Created), true);
    case Advance(i) => if i < |s.storages| { AdvanceAtMost(s, i); }
    case Close(i) => if i < |s.storages| { CloseAtMost(s, i); }
    case Sweep(_) =>
    case AdvanceSweep(i) => if i < |s.sweeps| { SweepAtMost(s, i); }
  }

  /** In every run, whatever is swept and whenever, the disk counters never exceed the files and bytes
      that are there: they can only be short, and let more onto the disk than the limit. */
  lemma {:induction false} NeverTooMuch(actions: seq<Action>)
    ensures AtMost(Run(actions)) && Sweeping(Run(actions))
  {
    if actions != [] {
      NeverTooMuch(actions[..|actions| - 1]);
      NextAtMost(Run(actions[..|actions| - 1]), actions[|actions| - 1]);
    }
  }

  // ---------------------------------------------------------------- closing

  /** A storage once closed stays closed, and closing it again changes nothing at all. */
  lemma CloseOnce(s: State, i: nat)
    ensures Next(Next(s, Close(i)), Close(i)) == Next(s, Close(i))
    ensures i < |s.storages| && s.storages[i].phase == Gone ==> Next(Next(s, Close(i)), Advance(i)) == s
  {
    if i < |s.storages| && s.storages[i].phase == Gone {
      assert s.storages[i := s.storages[i]] == s.storages;
    }
  }

  /** A creation carried through with nothing else happening. */
  function CreatedFully(s: State, disk: bool, size: nat): State {
    var i := |s.storages|;
    Next(Next(Next(s, Create(disk, size)), Advance(i)), Advance(i))
  }

  /** It leaves one more open storage and adds it to the counters of its kind, once. */
  lemma CreatedFullyIs(s: State, disk: bool, size: nat)
    ensures var s' := CreatedFully(s, disk, size);
      && s'.storages == s.storages + [Storage(disk, size, Open)] && s'.sweeps == s.sweeps
      && s'.disk == (if disk then Counters(s.disk.files + 1, s.disk.bytes + size) else s.disk)
      && s'.memory == (if disk then s.memory else Counters(s.memory.files + 1, s.memory.bytes + size))
  {
    var i := |s.storages|;
    assert (s.storages + [Storage(disk, size, Created)])[i := Storage(disk, size, Counted)] == s.storages + [Storage(disk, size, Counted)];
    assert (s.storages + [Storage(disk, size, Counted)])[i := Storage(disk, size, Open)] == s.storages + [Storage(disk, size, Open)];
  }

  lemma RunSnoc(actions: seq<Action>, k: nat)
    requires k < |actions|
    ensures Run(actions[..k + 1]) == Next(Run(actions[..k]), actions[k])
  {
    assert actions[..k + 1][..k] == actions[..k];
  }

  lemma OpenStep(s: State, a: Action, i: nat)
    requires i < |s.storages| && s.storages[i].phase == Open
    ensures var s' := Next(s, a);
            i < |s'.storages| && s'.storages[i] == if a == Close(i) then s.storages[i].(phase := Closing) else s.storages[i]
  {}

  /** Over every run an open storage stays open until it is closed. */
  lemma {:induction false} OpenUntilClosed(actions: seq<Action>, j: nat, k: nat, i: nat)
    requires j <= k <= |actions| && i < |Run(actions[..j]).storages| && Run(actions[..j]).storages[i].phase == Open
    requires forall n :: j <= n < k ==> actions[n] != Close(i)
    ensures i < |Run(actions[..k]).storages| && Run(actions[..k]).storages[i] == Run(actions[..j]).storages[i]
  {
    if j < k {
      OpenUntilClosed(actions, j, k - 1, i);
      RunSnoc(actions, k - 1);
      OpenStep(Run(actions[..k - 1]), actions[k - 1], i);
    }
  }

  // ---------------------------------------------------------------- one sweep

  function Floor(x: int): int { if x < 0 then 0 else x }

  /** CleanupOldDiskCacheFiles removing one file of the given size: the file goes, the disk counters
      drop and are clamped, and no storage hears of it. */
  function Swept(s: State, size: nat): State {
    s.(disk := Counters(Floor(s.disk.files - 1), Floor(s.disk.bytes - size)))
  }

  function SweptFully(s: State, size: nat): State {
    var i := |s.sweeps|;
    Next(Next(Next(Next(Next(s, Sweep(size)), AdvanceSweep(i)), AdvanceSweep(i)), AdvanceSweep(i)), AdvanceSweep(i))
  }

  lemma SweepStep(s: State, size: nat, p: Phase, c: Counters)
    ensures var (after, q) := Stepped(Storage(true, size, p), c);
            Next(SweepAt(s, size, p, c), AdvanceSweep(|s.sweeps|)) == SweepAt(s, size, q, after)
  {
    var (after, q) := Stepped(Storage(true, size, p), c);
    var sweeps := s.sweeps + [Storage(true, size, p)];
    assert sweeps[|s.sweeps| := Storage(true, size, q)] == s.sweeps + [Storage(true, size, q)];
  }

  function SweepAt(s: State, size: nat, p: Phase, c: Counters): State {
    s.(sweeps := s.sweeps + [Storage(true, size, p)], disk := c)
  }

  /** That is what a sweep comes to when nothing else happens. */
  lemma SweptFullyIs(s: State, size: nat)
    ensures SweptFully(s, size) == SweepAt(s, size, Gone, Swept(s, size).disk)
  {
    var c := s.disk;
    var less := c.(files := c.files - 1);
    var dropped := c.(files := Floor(c.files - 1));
    SweepStep(s, size, Closing, c);
    SweepStep(s, size, FilesNegative, less);
    SweepStep(s, size, FilesDropped, dropped);
    SweepStep(s, size, BytesNegative, dropped.(bytes := c.bytes - size));
    SweepStep(s, size, Gone, Swept(s, size).disk);
  }

  lemma {:induction false} NoFilesNoBytes(storages: seq<Storage>)
    requires Weigh(storages, OpenFiles(true)) == 0
    ensures Weigh(storages, OpenBytes(true)) == 0
  {
    if storages != [] {
      WeighPositive(storages[..|storages| - 1], OpenFiles(true));
      NoFilesNoBytes(storages[..|storages| - 1]);
    }
  }

  /** Removing a file by age keeps the counters exact if and only if no disk storage is open. */
  lemma SweepExactIff(s: State, size: nat)
    requires Exact(s, true)
    ensures Exact(Swept(s, size), true) <==> Weigh(s.storages, OpenFiles(true)) == 0
  {
    WeighPositive(s.storages, OpenFiles(true));
    if Weigh(s.storages, OpenFiles(true)) == 0 { NoFilesNoBytes(s.storages); }
  }

  /** A close carried through with nothing else happening. */
  function ClosedFully(s: State, i: nat): State {
    Next(Next(Next(Next(Next(s, Close(i)), Advance(i)), Advance(i)), Advance(i)), Advance(i))
  }

  function Moving(s: State, i: nat, p: Phase, c: Counters): State
    requires i < |s.storages|
  {
    InPhase(s, i, p).(disk := c)
  }

  lemma AdvanceIs(s: State, i: nat, p: Phase, c: Counters)
    requires i < |s.storages| && s.storages[i].disk
    ensures var (after, q) := Stepped(s.storages[i].(phase := p), c);
            Next(Moving(s, i, p, c), Advance(i)) == Moving(s, i, q, after)
  {
    var (after, q) := Stepped(s.storages[i].(phase := p), c);
    var storages := Moving(s, i, p, c).storages;
    assert storages[i := storages[i].(phase := q)] == s.storages[i := s.storages[i].(phase := q)];
  }

  /** The first half of a close: the file count. */
  lemma FilesDrop(s: State, i: nat)
    requires i < |s.storages| && s.storages[i].disk
    ensures var c := s.disk; var dropped := Moving(s, i, FilesDropped, c.(files := Floor(c.files - 1)));
            var one := Next(Moving(s, i, Closing, c), Advance(i));
            if c.files < 1 then Next(one, Advance(i)) == dropped else one == dropped
  {
    var c := s.disk;
    AdvanceIs(s, i, Closing, c);
    AdvanceIs(s, i, FilesNegative, c.(files := c.files - 1));
  }

  /** The second half: the byte count, after which nothing happens any more. */
  lemma BytesDrop(s: State, i: nat, c: Counters)
    requires i < |s.storages| && s.storages[i].disk
    ensures var gone := Moving(s, i, Gone, c.(bytes := Floor(c.bytes - s.storages[i].size)));
            var one := Next(Moving(s, i, FilesDropped, c), Advance(i));
            && Next(gone, Advance(i)) == gone
            && if c.bytes < s.storages[i].size then Next(one, Advance(i)) == gone else one == gone
  {
    var less := c.(bytes := c.bytes - s.storages[i].size);
    AdvanceIs(s, i, FilesDropped, c);
    AdvanceIs(s, i, BytesNegative, less);
    AdvanceIs(s, i, Gone, c.(bytes := Floor(c.bytes - s.storages[i].size)));
  }

  lemma ClosedFullyIs(s: State, i: nat)
    requires i < |s.storages| && s.storages[i].disk && s.storages[i].phase == Open
    ensures ClosedFully(s, i) == Moving(s, i, Gone, Counters(Floor(s.disk.files - 1), Floor(s.disk.bytes - s.storages[i].size)))
  {
    assert Next(s, Close(i)) == Moving(s, i, Closing, s.disk);
    FilesDrop(s, i);
    BytesDrop(s, i, s.disk.(files := Floor(s.disk.files - 1)));
  }

  /** Sweeping an open storage's file subtracts it once, and closing that storage subtracts it again:
      the counters come out exact if and only if it was the only open disk storage. */
  lemma SweptThenClosedIff(s: State, i: nat)
    requires Exact(s, true) && i < |s.storages| && s.storages[i].disk && s.storages[i].phase == Open
    ensures Exact(ClosedFully(Swept(s, s.storages[i].size), i), true) <==> Weigh(s.storages, OpenFiles(true)) == 1
  {
    var st := s.storages[i];
    ClosedFullyIs(Swept(s, st.size), i);
    var left := s.storages[i := st.(phase := Gone)];
    WeighUpdate(s.storages, OpenFiles(true), i, st.(phase := Gone));
    WeighUpdate(s.storages, OpenBytes(true), i, st.(phase := Gone));
    WeighPositive(left, OpenFiles(true));
    WeighPositive(left, OpenBytes(true));
    if Weigh(left, OpenFiles(true)) == 0 { NoFilesNoBytes(left); }
  }
}
