/**
 Concurrent writers of a multi-key channel's row (controller/channel.go, model/channel.go). All of
 them read the row before they lock, if they lock at all, so a request may store what it worked out
 from a row that others have replaced since: key management and edits through channel.Update, which
 reads the key column once more when it is given none; a status update for a key that failed or
 works again, which stores everything but the key column; and key rotation without the memory
 cache, which stores what was known by position. Every read and every write is a single step.
 */
module KeyRaces {
  import opened ModelNames
  import opened MultiKey
  import opened Options
  import opened Text

  /** The stored row, what each request in progress has read, and the key columns read once more. */
  datatype State = State(row: Row, seen: map<nat, Row>, counted: map<nat, string>)

  datatype Event =
    | Read(m: nat)
    | Recount(m: nat)
    | Write(m: nat, action: Action)                                            // channel.Update
    | Report(m: nat, key: string, status: int, reason: string, time: int)      // UpdateChannelStatus
    | Rotate(m: nat)                                                           // SaveChannelInfo
    | Repair(m: nat)                                                           // Save, after dropping unreadable settings

  /** channel.Update over whatever is there by now, the keys counted in `counted` when none are given. */
  function Saved(current: Row, counted: string, next: Row, js: JsonArray): Row {
    if next.key != "" then Persist(current, next, js)
    else
      var size := CountKeys(counted, js);
      Row(current.key, size, Below(next.status, {}, size), next.times, next.reasons)
  }

  function Stored(current: Row, counted: string, seen: Row, a: Action, js: JsonArray): Row {
    var next := Written(seen, a, js);
    if next.Some? then Saved(current, counted, next.value, js) else current
  }

  /** What a request stores under the key column that is there: from a status update or a rotation. */
  function UnderColumn(seen: Row, e: Event, js: JsonArray): Row
    requires LeavesColumn(e)
  {
    if e.Report? then Reported(seen, e.key, e.status, e.reason, e.time, js) else seen
  }

  predicate LeavesColumn(e: Event) { e.Report? || e.Rotate? }

  function Counted(s: State, m: nat): string { if m in s.counted then s.counted[m] else s.row.key }

  function Finish(s: State, m: nat, row: Row): State { State(row, s.seen - {m}, s.counted - {m}) }

  function Next(s: State, e: Event, js: JsonArray): State {
    if e.Read? then State(s.row, s.seen[e.m := s.row], s.counted - {e.m})
    else if e.m !in s.seen then s
    else if e.Recount? then s.(counted := s.counted[e.m := s.row.key])
    else if e.Write? then Finish(s, e.m, Stored(s.row, Counted(s, e.m), s.seen[e.m], e.action, js))
    else if e.Repair? then Finish(s, e.m, s.seen[e.m])
    else Finish(s, e.m, UnderColumn(s.seen[e.m], e, js).(key := s.row.key))
  }

  function Run(row: Row, events: seq<Event>, js: JsonArray): State {
    if events == [] then State(row, map[], map[]) else Next(Run(row, events[..|events|-1], js), events[|events|-1], js)
  }

  lemma RunNext(row: Row, events: seq<Event>, k: nat, js: JsonArray)
    requires k < |events|
    ensures Run(row, events[..k+1], js) == Next(Run(row, events[..k], js), events[k], js)
  {
    assert events[..k+1][..k] == events[..k];
  }

  lemma RunThen(row: Row, events: seq<Event>, e: Event, js: JsonArray)
    ensures Run(row, events + [e], js) == Next(Run(row, events, js), e, js)
  {
    assert (events + [e])[..|events|] == events;
  }

  // ---------------------------------------------------------------- when the row stays well formed

  /** The action leaves the key column to channel.Update. */
  predicate NoKeys(seen: Row, a: Action, js: JsonArray) {
    Written(seen, a, js).Some? && Written(seen, a, js).value.key == ""
  }

  /** With no keys given, the column must have as many keys as were counted, and a place for every time
      and reason stored. Otherwise nothing but what was read and what is written counts. */
  predicate WriteFits(current: Row, counted: string, seen: Row, a: Action, js: JsonArray) {
    if NoKeys(seen, a, js) then
      && |ReadList(counted, '\n')| == |Keys(current)|
      && (a.Edit? ==> InRange(seen.times, |Keys(current)|) && InRange(seen.reasons, |Keys(current)|))
    else StepFits(seen, a)
  }

  /** What is stored under a column of as many keys as the one that was read. */
  predicate Fits(s: State, e: Event, js: JsonArray) {
    if e.Read? || e.Recount? || e.Repair? || e.m !in s.seen then true
    else if e.Write? then WriteFits(s.row, Counted(s, e.m), s.seen[e.m], e.action, js)
    else |Keys(s.seen[e.m])| == |Keys(s.row)|
  }

  ghost predicate Inv(s: State) {
    && WellFormed(s.row) && (forall m :: m in s.seen ==> WellFormed(s.seen[m]))
    && (forall m :: m in s.counted ==> GoodColumn(s.counted[m]))
  }

  /** Unless the key column is left out, what is stored depends on what was read alone. */
  lemma StoredFromSeen(current: Row, counted: string, seen: Row, a: Action, js: JsonArray)
    requires Written(seen, a, js).Some? && Written(seen, a, js).value.key != ""
    ensures Stored(current, counted, seen, a, js) == Step(seen, a, js)
  {}

  /** Only deleting the last live key, or an edit without keys, leaves it out. */
  lemma NoKeysOnly(row: Row, a: Action, js: JsonArray)
    requires WellFormed(row) && NoKeys(row, a, js)
    ensures a == Edit("") || (a.DeleteDisabledKeys? && Written(row, a, js).value == Row("", 0, map[], map[], map[]))
  {
    GoodRow(row, js);
    match a
    case DisableKey(_) =>
    case EnableKey(_) =>
    case EnableAll =>
    case DisableAll =>
    case DeleteKey(i) => LeftText(row, AllBut(row.size, i));
    case DeleteDisabledKeys =>
      var kept := NotAutoDisabled(row.status, row.size);
      if kept != [] { LeftText(row, kept); }
    case Append(text, parts) =>
      LinesAreBase(row.key, js);
      WrittenAppend(row, text, parts, Keys(row), js);
      NewKeysFacts(Keys(row), parts);
      ColumnOf(Keys(row), NewKeys(Keys(row), parts));
    case Edit(_) =>
  }

  lemma LeftText(row: Row, kept: seq<int>)
    requires WellFormed(row) && kept != [] && Positions(kept, |Keys(row)|)
    ensures Join(Pick(Keys(row), kept), '\n') != ""
  {
    var keys := Pick(Keys(row), kept);
    forall j | 0 <= j < |keys| ensures GoodKey(keys[j]) { assert GoodKey(Keys(row)[kept[j]]); }
    GoodKeysText(keys);
  }

  lemma BelowInRange(status: map<int, int>, size: int, n: int)
    requires InRange(status, n)
    ensures InRange(Below(status, {}, size), size)
  {}

  lemma NoKeysIff(current: Row, counted: string, seen: Row, next: Row, js: JsonArray)
    requires WellFormed(current) && GoodColumn(counted) && InRange(seen.status, seen.size)
    requires next.key == "" && (next.status == seen.status || next.status == map[])
    ensures WellFormed(Saved(current, counted, next, js)) <==>
            && |ReadList(counted, '\n')| == |Keys(current)|
            && InRange(next.times, |Keys(current)|) && InRange(next.reasons, |Keys(current)|)
  {
    GoodKeysText(ReadList(counted, '\n'));
    var size := CountKeys(counted, js);
    BelowInRange(next.status, size, seen.size);
  }

  lemma WriteFitsIff(current: Row, counted: string, seen: Row, a: Action, js: JsonArray)
    requires WellFormed(current) && GoodColumn(counted) && WellFormed(seen)
    ensures WellFormed(Stored(current, counted, seen, a, js)) <==> WriteFits(current, counted, seen, a, js)
  {
    if NoKeys(seen, a, js) {
      NoKeysOnly(seen, a, js);
      NoKeysIff(current, counted, seen, Written(seen, a, js).value, js);
    } else if Written(seen, a, js).Some? {
      StoredFromSeen(current, counted, seen, a, js);
      StepWellFormedIff(seen, a, js);
    }
  }

  lemma ReportedWellFormed(seen: Row, e: Event, js: JsonArray)
    requires WellFormed(seen) && LeavesColumn(e)
    ensures var next := UnderColumn(seen, e, js); WellFormed(next) && next.key == seen.key && next.size == seen.size
  {
    GoodRow(seen, js);
    if e.Report? {
      var i := IndexOf(Keys(seen), e.key);
      if i.Some? {
        MarkedInRange(seen, i.value, e.status, e.reason, e.time);
        SameColumn(seen, UnderColumn(seen, e, js));
      }
    }
  }

  lemma SameColumn(row: Row, next: Row)
    requires WellFormed(row) && next.key == row.key && next.size == row.size
    requires InRange(next.status, row.size) && InRange(next.times, row.size) && InRange(next.reasons, row.size)
    ensures WellFormed(next)
  {}

  lemma MarkedInRange(row: Row, i: nat, status: int, reason: string, time: int)
    requires WellFormed(row) && i < row.size
    ensures InRange(row.status - {i}, row.size) && InRange(row.status[i := status], row.size)
    ensures InRange(row.times[i := time], row.size) && InRange(row.reasons[i := reason], row.size)
  {}

  /** Everything but the key column, stored under another one. */
  lemma UnderColumnIff(next: Row, current: Row)
    requires WellFormed(next) && WellFormed(current)
    ensures WellFormed(next.(key := current.key)) <==> |Keys(next)| == |Keys(current)|
  {
    assert Keys(next.(key := current.key)) == Keys(current);
  }

  lemma FitsIff(s: State, e: Event, js: JsonArray)
    requires Inv(s)
    ensures WellFormed(Next(s, e, js).row) <==> Fits(s, e, js)
  {
    if (e.Write? || LeavesColumn(e)) && e.m in s.seen {
      if e.Write? {
        WriteFitsIff(s.row, Counted(s, e.m), s.seen[e.m], e.action, js);
      } else {
        ReportedWellFormed(s.seen[e.m], e, js);
        UnderColumnIff(UnderColumn(s.seen[e.m], e, js), s.row);
      }
    }
  }

  ghost predicate AllEventsFit(row: Row, events: seq<Event>, js: JsonArray) {
    forall i :: 0 <= i < |events| ==> Fits(Run(row, events[..i], js), events[i], js)
  }

  lemma EventsFitBefore(row: Row, events: seq<Event>, k: nat, js: JsonArray)
    requires AllEventsFit(row, events, js) && k <= |events|
    ensures AllEventsFit(row, events[..k], js)
  {
    forall i | 0 <= i < k ensures Fits(Run(row, events[..k][..i], js), events[..k][i], js) {
      assert events[..k][..i] == events[..i];
    }
  }

  lemma NextInv(s: State, e: Event, js: JsonArray)
    requires Inv(s) && WellFormed(Next(s, e, js).row)
    ensures Inv(Next(s, e, js))
  {
    var n := Next(s, e, js);
    forall m | m in n.seen ensures WellFormed(n.seen[m]) { SeenNext(s, e, js, m); }
    forall m | m in n.counted ensures GoodColumn(n.counted[m]) { SeenNext(s, e, js, m); }
  }

  /** What requests know comes from the row or was known before. */
  lemma SeenNext(s: State, e: Event, js: JsonArray, m: nat)
    ensures var n := Next(s, e, js);
      && (m in n.seen ==> n.seen[m] == s.row || (m in s.seen && n.seen[m] == s.seen[m]))
      && (m in n.counted ==> n.counted[m] == s.row.key || (m in s.counted && n.counted[m] == s.counted[m]))
  {}

  /** In every interleaving in which every event fits, the stored row stays well formed: size, key
      count and positions agree, and so does every row a request works from. */
  lemma {:induction false} RacesStayWellFormed(row: Row, events: seq<Event>, js: JsonArray)
    requires WellFormed(row) && AllEventsFit(row, events, js)
    ensures Inv(Run(row, events, js))
  {
    if events != [] {
      var n := |events| - 1;
      EventsFitBefore(row, events, n, js);
      RacesStayWellFormed(row, events[..n], js);
      assert Fits(Run(row, events[..n], js), events[n], js);
      FitsIff(Run(row, events[..n], js), events[n], js);
      NextInv(Run(row, events[..n], js), events[n], js);
    }
  }

  ghost predicate WellFormedUpTo(row: Row, events: seq<Event>, n: nat, js: JsonArray)
    requires n <= |events|
  {
    forall k :: 0 <= k <= n ==> WellFormed(Run(row, events[..k], js).row)
  }

  lemma WellFormedBefore(row: Row, events: seq<Event>, k: nat, js: JsonArray)
    requires 0 < k <= |events| && WellFormedUpTo(row, events, k, js)
    ensures WellFormedUpTo(row, events, k - 1, js) && WellFormed(Run(row, events[..k], js).row)
  {}

  lemma {:induction false} WellFormedUpToInv(row: Row, events: seq<Event>, k: nat, js: JsonArray)
    requires k <= |events| && WellFormedUpTo(row, events, k, js)
    ensures Inv(Run(row, events[..k], js))
  {
    if k == 0 {
      assert WellFormed(Run(row, events[..0], js).row);
    } else {
      WellFormedBefore(row, events, k, js);
      WellFormedUpToInv(row, events, k - 1, js);
      OneMoreInv(row, events, k - 1, js);
    }
  }

  lemma OneMoreInv(row: Row, events: seq<Event>, k: nat, js: JsonArray)
    requires k < |events| && Inv(Run(row, events[..k], js)) && WellFormed(Run(row, events[..k+1], js).row)
    ensures Inv(Run(row, events[..k+1], js))
  {
    RunNext(row, events, k, js);
    NextInv(Run(row, events[..k], js), events[k], js);
  }

  /** In every interleaving of any number of requests of every kind the row stays well formed
      throughout if and only if every write fits the column it lands on: in particular, if every
      status update and rotation lands on a column with as many keys as it read. */
  lemma RacesStayWellFormedIff(row: Row, events: seq<Event>, js: JsonArray)
    requires WellFormed(row)
    ensures WellFormedUpTo(row, events, |events|, js) <==> AllEventsFit(row, events, js)
  {
    if AllEventsFit(row, events, js) {
      forall k | 0 <= k <= |events| ensures WellFormed(Run(row, events[..k], js).row) {
        EventsFitBefore(row, events, k, js);
        RacesStayWellFormed(row, events[..k], js);
      }
    }
    if WellFormedUpTo(row, events, |events|, js) {
      forall i | 0 <= i < |events| ensures Fits(Run(row, events[..i], js), events[i], js) {
        WellFormedUpToInv(row, events, i, js);
        RunNext(row, events, i, js);
        assert WellFormed(Run(row, events[..i+1], js).row);
        FitsIff(Run(row, events[..i], js), events[i], js);
      }
    }
  }

  // ---------------------------------------------------------------- when every key keeps its own record

  /** What a reason is about: reasons are free text, so let them tell their key in any way. */
  type About = string -> string

  /** Every recorded reason stands beside the key it is about. */
  ghost predicate Beside(reasons: map<int, string>, keys: seq<string>, about: About) {
    forall i :: i in reasons ==> 0 <= i < |keys| && about(reasons[i]) == keys[i]
  }

  /** No key is auto-disabled without a reason. */
  predicate Explained(row: Row) { forall i :: i in row.status && row.status[i] == AUTO_DISABLED ==> i in row.reasons }

  /** So an auto-disabled key is one that was itself reported. */
  ghost predicate Rightful(row: Row, about: About) {
    WellFormed(row) && Beside(row.reasons, Keys(row), about) && Explained(row)
  }

  /** Two columns name the same keys wherever a reason is recorded. */
  predicate SameWhere(reasons: map<int, string>, keys: seq<string>, others: seq<string>) {
    forall i :: i in reasons ==> 0 <= i < |keys| && i < |others| && keys[i] == others[i]
  }

  /** Beyond fitting: what is stored under another column than the one read finds there, at every
      position with a reason, the key that was read. */
  predicate Lands(s: State, e: Event, js: JsonArray) {
    && Fits(s, e, js)
    && (e.m in s.seen ==>
          var seen := s.seen[e.m];
          && (LeavesColumn(e) ==> SameWhere(UnderColumn(seen, e, js).reasons, Keys(seen), Keys(s.row)))
          && (e.Write? && e.action.Edit? ==>
                SameWhere(seen.reasons, Keys(seen), if e.action.text == "" then Keys(s.row) else ReadList(e.action.text, '\n'))))
  }

  /** Reports give reasons that are about the key they report. */
  predicate Honest(e: Event, about: About) { e.Report? && e.status != ENABLED ==> about(e.reason) == e.key }

  lemma BesideIff(reasons: map<int, string>, keys: seq<string>, others: seq<string>, about: About)
    requires Beside(reasons, keys, about)
    ensures Beside(reasons, others, about) <==> SameWhere(reasons, keys, others)
  {}

  lemma ReindexedRow(row: Row, kept: seq<int>, all: bool, js: JsonArray)
    requires WellFormed(row) && kept != [] && Positions(kept, |Keys(row)|)
    ensures var next := Reindexed(row, Keys(row), kept, all); Persist(row, next, js) == next && Keys(next) == Pick(Keys(row), kept)
  {
    var keys := Pick(Keys(row), kept);
    forall j | 0 <= j < |keys| ensures GoodKey(keys[j]) { assert GoodKey(Keys(row)[kept[j]]); }
    PersistGood(row, Reindexed(row, Keys(row), kept, all), keys, js);
  }

  lemma ReindexRightful(row: Row, kept: seq<int>, all: bool, js: JsonArray, about: About)
    requires Rightful(row, about) && kept != [] && Positions(kept, |Keys(row)|)
    ensures Rightful(Persist(row, Reindexed(row, Keys(row), kept, all), js), about)
  {
    ReindexView(row, kept, all, js);
    ReindexedRow(row, kept, all, js);
  }

  lemma LiveRightful(row: Row, js: JsonArray, about: About)
    requires Rightful(row, about)
    ensures Rightful(Step(row, DeleteDisabledKeys, js), about)
  {
    GoodRowDeletes(row, js);
    DeleteDisabledView(row, js);
    var kept := NotAutoDisabled(row.status, row.size);
    if |kept| != row.size {
      if kept != [] { ReindexRightful(row, kept, false, js, about); }
    }
  }

  lemma DisableAllRightful(row: Row, js: JsonArray, about: About)
    requires Rightful(row, about)
    ensures Rightful(Step(row, DisableAll, js), about)
  {
    DisabledUpToIs(row.status, row.size, row.size);
    var next := row.(status := DisabledUpTo(row.status, row.size));
    SameKeys(row, next, js);
    forall i | i in next.status && next.status[i] == AUTO_DISABLED ensures i in row.reasons {
      assert Effective(next.status, i) == AUTO_DISABLED == Effective(row.status, i);
    }
  }

  lemma AppendRightful(row: Row, text: string, parts: seq<string>, js: JsonArray, about: About)
    requires Rightful(row, about) && GoodParts(parts)
    ensures Rightful(Step(row, Append(text, parts), js), about)
  {
    AppendWellFormedIff(row, text, parts, js);
    AppendStep(row, text, parts, js);
  }

  lemma EnableRightful(row: Row, i: nat, js: JsonArray, about: About)
    requires Rightful(row, about) && i < row.size
    ensures Rightful(Step(row, EnableKey(i), js), about)
  {
    SameKeys(row, row.(status := row.status - {i}, times := row.times - {i}, reasons := row.reasons - {i}), js);
  }

  lemma EnableAllRightful(row: Row, js: JsonArray, about: About)
    requires Rightful(row, about)
    ensures Rightful(Step(row, EnableAll, js), about)
  {
    SameKeys(row, row.(status := map[], times := map[], reasons := map[]), js);
  }

  lemma DisableRightful(row: Row, i: nat, js: JsonArray, about: About)
    requires Rightful(row, about) && i < row.size
    ensures Rightful(Step(row, DisableKey(i), js), about)
  {
    SameKeys(row, row.(status := row.status[i := MANUAL_DISABLED]), js);
  }

  /** Key management moves every reason with its key. */
  lemma StepRightful(row: Row, a: Action, js: JsonArray, about: About)
    requires Rightful(row, about) && StepFits(row, a) && !a.Edit?
    ensures Rightful(Step(row, a, js), about)
  {
    match a
    case DisableKey(i) => if 0 <= i < row.size { DisableRightful(row, i, js, about); }
    case EnableKey(i) => if 0 <= i < row.size { EnableRightful(row, i, js, about); }
    case EnableAll => EnableAllRightful(row, js, about);
    case DisableAll => DisableAllRightful(row, js, about);
    case DeleteKey(i) =>
      GoodRow(row, js);
      AllButIs(row.size, if i < 0 then 0 else i);
      if 0 <= i < row.size && row.size > 1 {
        DeleteKeyStep(row, i, js);
        ReindexRightful(row, AllBut(row.size, i), true, js, about);
      }
    case DeleteDisabledKeys => LiveRightful(row, js, about);
    case Append(text, parts) => AppendRightful(row, text, parts, js, about);
  }

  lemma ReportedRightful(seen: Row, e: Event, js: JsonArray, about: About)
    requires Rightful(seen, about) && LeavesColumn(e) && Honest(e, about)
    ensures Rightful(UnderColumn(seen, e, js), about) && UnderColumn(seen, e, js).key == seen.key
  {
    ReportedWellFormed(seen, e, js);
    GoodRow(seen, js);
  }

  lemma ColumnLandsIff(seen: Row, current: Row, e: Event, js: JsonArray, about: About)
    requires Rightful(seen, about) && WellFormed(current) && LeavesColumn(e) && Honest(e, about)
    ensures var next := UnderColumn(seen, e, js);
            Rightful(next.(key := current.key), about) <==>
            |Keys(seen)| == |Keys(current)| && SameWhere(next.reasons, Keys(seen), Keys(current))
  {
    var next := UnderColumn(seen, e, js);
    ReportedRightful(seen, e, js, about);
    UnderColumnIff(next, current);
    BesideIff(next.reasons, Keys(seen), Keys(current), about);
  }

  lemma EditStored(current: Row, counted: string, seen: Row, text: string, js: JsonArray)
    requires Explained(seen)
    ensures var r := Stored(current, counted, seen, Edit(text), js);
            && r.reasons == seen.reasons && Keys(r) == (if text == "" then Keys(current) else ReadList(text, '\n')) && Explained(r)
  {}

  lemma EditLandsIff(current: Row, counted: string, seen: Row, text: string, js: JsonArray, about: About)
    requires WellFormed(current) && GoodColumn(counted) && Rightful(seen, about)
    ensures Rightful(Stored(current, counted, seen, Edit(text), js), about) <==>
            && WriteFits(current, counted, seen, Edit(text), js)
            && SameWhere(seen.reasons, Keys(seen), if text == "" then Keys(current) else ReadList(text, '\n'))
  {
    WriteFitsIff(current, counted, seen, Edit(text), js);
    EditStored(current, counted, seen, text, js);
    BesideIff(seen.reasons, Keys(seen), if text == "" then Keys(current) else ReadList(text, '\n'), about);
  }

  lemma WriteLandsIff(current: Row, counted: string, seen: Row, a: Action, js: JsonArray, about: About)
    requires Rightful(current, about) && GoodColumn(counted) && Rightful(seen, about) && !a.Edit?
    ensures Rightful(Stored(current, counted, seen, a, js), about) <==> WriteFits(current, counted, seen, a, js)
  {
    WriteFitsIff(current, counted, seen, a, js);
    if NoKeys(seen, a, js) {
      NoKeysOnly(seen, a, js);
    } else if Written(seen, a, js).Some? && StepFits(seen, a) {
      StoredFromSeen(current, counted, seen, a, js);
      StepRightful(seen, a, js, about);
    }
  }

  ghost predicate RightfulInv(s: State, about: About) {
    Inv(s) && Rightful(s.row, about) && forall m :: m in s.seen ==> Rightful(s.seen[m], about)
  }

  lemma LandsIff(s: State, e: Event, js: JsonArray, about: About)
    requires RightfulInv(s, about) && Honest(e, about)
    ensures Rightful(Next(s, e, js).row, about) <==> Lands(s, e, js)
  {
    if (e.Write? || LeavesColumn(e)) && e.m in s.seen {
      if LeavesColumn(e) {
        ColumnLandsIff(s.seen[e.m], s.row, e, js, about);
      } else if e.action.Edit? {
        EditLandsIff(s.row, Counted(s, e.m), s.seen[e.m], e.action.text, js, about);
      } else {
        WriteLandsIff(s.row, Counted(s, e.m), s.seen[e.m], e.action, js, about);
      }
    }
  }

  ghost predicate AllLand(row: Row, events: seq<Event>, js: JsonArray) {
    forall i :: 0 <= i < |events| ==> Lands(Run(row, events[..i], js), events[i], js)
  }

  ghost predicate RightfulUpTo(row: Row, events: seq<Event>, n: nat, js: JsonArray, about: About)
    requires n <= |events|
  {
    forall k :: 0 <= k <= n ==> Rightful(Run(row, events[..k], js).row, about)
  }

  lemma RightfulBefore(row: Row, events: seq<Event>, k: nat, js: JsonArray, about: About)
    requires 0 < k <= |events| && RightfulUpTo(row, events, k, js, about)
    ensures RightfulUpTo(row, events, k - 1, js, about) && Rightful(Run(row, events[..k], js).row, about)
  {}

  lemma {:induction false} RightfulUpToInv(row: Row, events: seq<Event>, k: nat, js: JsonArray, about: About)
    requires k <= |events| && RightfulUpTo(row, events, k, js, about)
    ensures RightfulInv(Run(row, events[..k], js), about)
  {
    if k > 0 {
      RightfulBefore(row, events, k, js, about);
      RightfulUpToInv(row, events, k - 1, js, about);
      RunNext(row, events, k - 1, js);
      NextRightfulInv(Run(row, events[..k-1], js), events[k-1], js, about);
    }
  }

  lemma NextRightfulInv(s: State, e: Event, js: JsonArray, about: About)
    requires RightfulInv(s, about) && Rightful(Next(s, e, js).row, about)
    ensures RightfulInv(Next(s, e, js), about)
  {
    var n := Next(s, e, js);
    NextInv(s, e, js);
    forall m | m in n.seen ensures Rightful(n.seen[m], about) { SeenNext(s, e, js, m); }
  }

  lemma {:induction false} LandingKeeps(row: Row, events: seq<Event>, k: nat, js: JsonArray, about: About)
    requires Rightful(row, about) && k <= |events| && AllLand(row, events, js)
    requires forall i :: 0 <= i < |events| ==> Honest(events[i], about)
    ensures RightfulInv(Run(row, events[..k], js), about)
  {
    if k > 0 {
      LandingKeeps(row, events, k - 1, js, about);
      assert Lands(Run(row, events[..k-1], js), events[k-1], js);
      StepLands(Run(row, events[..k-1], js), events[k-1], js, about);
      RunNext(row, events, k - 1, js);
    }
  }

  lemma StepLands(s: State, e: Event, js: JsonArray, about: About)
    requires RightfulInv(s, about) && Honest(e, about) && Lands(s, e, js)
    ensures RightfulInv(Next(s, e, js), about)
  {
    LandsIff(s, e, js, about);
    NextRightfulInv(s, e, js, about);
  }

  /** In every interleaving, whatever the reasons say as long as each report's is about the key it
      reports: throughout the run every reason stands beside its own key and every auto-disabled key
      has one, if and only if every write lands. */
  lemma ReasonsStayIff(row: Row, events: seq<Event>, js: JsonArray, about: About)
    requires Rightful(row, about) && forall i :: 0 <= i < |events| ==> Honest(events[i], about)
    ensures RightfulUpTo(row, events, |events|, js, about) <==> AllLand(row, events, js)
  {
    if AllLand(row, events, js) {
      forall k | 0 <= k <= |events| ensures Rightful(Run(row, events[..k], js).row, about) {
        LandingKeeps(row, events, k, js, about);
      }
    }
    if RightfulUpTo(row, events, |events|, js, about) {
      forall i | 0 <= i < |events| ensures Lands(Run(row, events[..i], js), events[i], js) {
        RightfulUpToInv(row, events, i, js, about);
        LandsIff(Run(row, events[..i], js), events[i], js, about);
        RunNext(row, events, i, js);
        assert Rightful(Run(row, events[..i+1], js).row, about);
      }
    }
  }

  /** And everything else known about a key is shown beside it, if and only if the column is the one read. */
  lemma ShownAsReadIff(seen: Row, current: Row, e: Event, js: JsonArray)
    requires WellFormed(seen) && WellFormed(current) && LeavesColumn(e)
    ensures View(UnderColumn(seen, e, js).(key := current.key)) == View(UnderColumn(seen, e, js)) <==> current.key == seen.key
  {
    var next := UnderColumn(seen, e, js);
    var saved := next.(key := current.key);
    ReportedWellFormed(seen, e, js);
    if View(saved) == View(next) {
      assert |View(saved)| == |View(next)|;
      forall i | 0 <= i < |Keys(current)| ensures Keys(current)[i] == Keys(seen)[i] {
        assert View(saved)[i] == View(next)[i];
      }
      assert Keys(current) == Keys(seen);
    }
  }

  // ---------------------------------------------------------------- runs that go wrong

  /** Row, two requests that read it, and the second one's write. */
  lemma SecondWrites(row: Row, a: Action, js: JsonArray)
    ensures var s := Run(row, [Read(0), Read(1), Write(1, a)], js); s.seen == map[0 := row] && s.counted == map[] && s.row == Step(row, a, js)
  {
    assert Run(row, [], js) == State(row, map[], map[]);
    RunThen(row, [], Read(0), js);
    assert [] + [Read(0)] == [Read(0)];
    RunThen(row, [Read(0)], Read(1), js);
    assert [Read(0)] + [Read(1)] == [Read(0), Read(1)];
    RunThen(row, [Read(0), Read(1)], Write(1, a), js);
    assert [Read(0), Read(1)] + [Write(1, a)] == [Read(0), Read(1), Write(1, a)];
    assert map[0 := row, 1 := row] - {1} == map[0 := row];
  }

  /** The first request then stores its part under the second one's column. */
  lemma FirstLands(row: Row, a: Action, e: Event, js: JsonArray)
    requires LeavesColumn(e) && e.m == 0
    ensures Run(row, [Read(0), Read(1), Write(1, a), e], js).row == UnderColumn(row, e, js).(key := Step(row, a, js).key)
  {
    SecondWrites(row, a, js);
    RunThen(row, [Read(0), Read(1), Write(1, a)], e, js);
    assert [Read(0), Read(1), Write(1, a)] + [e] == [Read(0), Read(1), Write(1, a), e];
  }

  lemma DeletedCount(row: Row, i: nat, js: JsonArray)
    requires WellFormed(row) && i < row.size && row.size > 1
    ensures |ReadList(Step(row, DeleteKey(i), js).key, '\n')| == row.size - 1
  {
    DeleteKeyView(row, i, js);
    assert |View(Step(row, DeleteKey(i), js))| == row.size - 1;
  }

  /** A key fails while another one is deleted: the status update brings back the old size, and marks
      a position that is no longer there when the key was the last. */
  lemma ReportAfterDelete(row: Row, i: nat, key: string, reason: string, time: int, js: JsonArray)
    requires WellFormed(row) && i < row.size && row.size > 1
    ensures var r := Run(row, [Read(0), Read(1), Write(1, DeleteKey(i)), Report(0, key, AUTO_DISABLED, reason, time)], js).row;
      && !WellFormed(r) && r.size == |Keys(r)| + 1
      && (IndexOf(Keys(row), key) == Some((row.size - 1) as nat) ==> |Keys(r)| in r.status && r.status[|Keys(r)|] == AUTO_DISABLED)
  {
    var e := Report(0, key, AUTO_DISABLED, reason, time);
    FirstLands(row, DeleteKey(i), e, js);
    DeletedCount(row, i, js);
    ReportedWellFormed(row, e, js);
    GoodRow(row, js);
  }

  /** Its keys are replaced by as many others: the key that failed hands its mark to the one in its place. */
  lemma ReportAfterReplace(row: Row, text: string, key: string, reason: string, time: int, js: JsonArray)
    requires WellFormed(row) && text != "" && GoodColumn(text) && |ReadList(text, '\n')| == row.size && key in Keys(row)
    ensures var r := Run(row, [Read(0), Read(1), Write(1, Edit(text)), Report(0, key, AUTO_DISABLED, reason, time)], js).row;
      var i := IndexOf(Keys(row), key).value;
      && WellFormed(r) && Keys(r) == ReadList(text, '\n')
      && i in r.status && r.status[i] == AUTO_DISABLED && i in r.reasons && r.reasons[i] == reason
  {
    var e := Report(0, key, AUTO_DISABLED, reason, time);
    FirstLands(row, Edit(text), e, js);
    EditStep(row, text, js);
    MarkedRow(row, e, js);
    UnderGoodColumn(UnderColumn(row, e, js), text);
  }

  lemma MarkedRow(row: Row, e: Event, js: JsonArray)
    requires WellFormed(row) && e.Report? && e.status != ENABLED && e.key in Keys(row)
    ensures var i := IndexOf(Keys(row), e.key).value; var next := UnderColumn(row, e, js);
      && WellFormed(next) && next.size == row.size && next.key == row.key
      && i in next.status && next.status[i] == e.status && i in next.reasons && next.reasons[i] == e.reason
  {
    ReportedWellFormed(row, e, js);
    GoodRow(row, js);
  }

  lemma UnderGoodColumn(next: Row, text: string)
    requires WellFormed(next) && GoodColumn(text) && |ReadList(text, '\n')| == next.size
    ensures WellFormed(next.(key := text))
  {}

  /** The same happens to an edit without keys that counted them before a key was deleted. */
  lemma CountedBeforeDelete(row: Row, i: nat, js: JsonArray)
    requires WellFormed(row) && i < row.size && row.size > 1
    ensures var r := Run(row, [Read(0), Recount(0), Read(1), Write(1, DeleteKey(i)), Write(0, Edit(""))], js).row;
      !WellFormed(r) && r.size == |Keys(r)| + 1
  {
    CountedThenEdited(row, DeleteKey(i), js);
    DeletedCount(row, i, js);
    OldCount(Step(row, DeleteKey(i), js), row, js);
  }

  lemma OldCount(current: Row, row: Row, js: JsonArray)
    requires WellFormed(row) && |Keys(current)| + 1 == row.size
    ensures var r := Stored(current, row.key, row, Edit(""), js); !WellFormed(r) && r.size == |Keys(r)| + 1
  {
    GoodRow(row, js);
  }

  lemma CountedThenEdited(row: Row, a: Action, js: JsonArray)
    ensures Run(row, [Read(0), Recount(0), Read(1), Write(1, a), Write(0, Edit(""))], js).row ==
            Stored(Step(row, a, js), row.key, row, Edit(""), js)
  {
    var before := [Read(0), Recount(0), Read(1), Write(1, a)];
    CountedThenWritten(row, a, js);
    RunThen(row, before, Write(0, Edit("")), js);
    assert before + [Write(0, Edit(""))] == [Read(0), Recount(0), Read(1), Write(1, a), Write(0, Edit(""))];
  }

  lemma CountedThenWritten(row: Row, a: Action, js: JsonArray)
    ensures var s := Run(row, [Read(0), Recount(0), Read(1), Write(1, a)], js);
            s.seen == map[0 := row] && s.counted == map[0 := row.key] && s.row == Step(row, a, js)
  {
    var before := [Read(0), Recount(0), Read(1)];
    CountedThenRead(row, js);
    RunThen(row, before, Write(1, a), js);
    assert before + [Write(1, a)] == [Read(0), Recount(0), Read(1), Write(1, a)];
    SecondFinishes(row, a, js);
  }

  lemma SecondFinishes(row: Row, a: Action, js: JsonArray)
    ensures Next(State(row, map[0 := row, 1 := row], map[0 := row.key]), Write(1, a), js) ==
            State(Step(row, a, js), map[0 := row], map[0 := row.key])
  {
    assert map[0 := row, 1 := row] - {1} == map[0 := row] && map[0 := row.key] - {1} == map[0 := row.key];
    StoredOverOwn(row, a, js);
  }

  lemma StoredOverOwn(row: Row, a: Action, js: JsonArray)
    ensures Stored(row, row.key, row, a, js) == Step(row, a, js)
  {}

  lemma CountedThenRead(row: Row, js: JsonArray)
    ensures Run(row, [Read(0), Recount(0), Read(1)], js) == State(row, map[0 := row, 1 := row], map[0 := row.key])
  {
    assert Run(row, [], js) == State(row, map[], map[]);
    RunThen(row, [], Read(0), js);
    assert [] + [Read(0)] == [Read(0)];
    RunThen(row, [Read(0)], Recount(0), js);
    assert [Read(0)] + [Recount(0)] == [Read(0), Recount(0)];
    RunThen(row, [Read(0), Recount(0)], Read(1), js);
    assert [Read(0), Recount(0)] + [Read(1)] == [Read(0), Recount(0), Read(1)];
    assert map[0 := row.key] - {1} == map[0 := row.key];
  }

  // ---------------------------------------------------------------- updates get lost

  /** What a request does to a row that nobody else changes. */
  function Alone(row: Row, e: Event, js: JsonArray): Row {
    if e.Write? then Step(row, e.action, js) else if LeavesColumn(e) then UnderColumn(row, e, js) else row
  }

  /** The requests that wrote, in the order of their writes. */
  function Writers(row: Row, events: seq<Event>, js: JsonArray): seq<Event> {
    if events == [] then []
    else
      var e, before := events[|events|-1], Writers(row, events[..|events|-1], js);
      if e.Read? || e.Recount? || e.m !in Run(row, events[..|events|-1], js).seen then before else before + [e]
  }

  function Serial(row: Row, writers: seq<Event>, js: JsonArray): Row {
    if writers == [] then row else Alone(Serial(row, writers[..|writers|-1], js), writers[|writers|-1], js)
  }

  /** Whenever a request writes, what it read is what is still stored. */
  ghost predicate NoneStale(row: Row, events: seq<Event>, js: JsonArray) {
    forall i :: 0 <= i < |events| && !events[i].Read? && !events[i].Recount? ==> Current(Run(row, events[..i], js), events[i].m)
  }

  predicate Current(s: State, m: nat) { m in s.seen ==> s.seen[m] == s.row && Counted(s, m) == s.row.key }

  lemma CurrentNext(s: State, e: Event, js: JsonArray)
    requires e.m in s.seen && !e.Read? && !e.Recount? && Current(s, e.m)
    ensures Next(s, e, js).row == Alone(s.row, e, js)
  {}

  /** Then the requests have the effect they would have had one after the other. */
  lemma {:induction false} SerialWhenCurrent(row: Row, events: seq<Event>, js: JsonArray)
    requires NoneStale(row, events, js)
    ensures Run(row, events, js).row == Serial(row, Writers(row, events, js), js)
  {
    if events != [] {
      var n := |events| - 1;
      var init, e := events[..n], events[n];
      forall i | 0 <= i < n && !init[i].Read? && !init[i].Recount? ensures Current(Run(row, init[..i], js), init[i].m) {
        assert init[..i] == events[..i];
        assert Current(Run(row, events[..i], js), events[i].m);
      }
      SerialWhenCurrent(row, init, js);
      var s := Run(row, init, js);
      if !e.Read? && !e.Recount? && e.m in s.seen {
        assert Current(s, e.m);
        CurrentNext(s, e, js);
        SerialThen(row, Writers(row, init, js), e, js);
      }
    }
  }

  lemma SerialThen(row: Row, writers: seq<Event>, e: Event, js: JsonArray)
    ensures Serial(row, writers + [e], js) == Alone(Serial(row, writers, js), e, js)
  {
    assert (writers + [e])[..|writers|] == writers;
  }

  function Overlap(a: Action, b: Action): seq<Event> { [Read(0), Read(1), Write(1, a), Write(0, b)] }

  /** Two requests that both read before either writes: the first one to write has its action undone, as
      if it had never been. */
  lemma OverlapLosesFirst(row: Row, a: Action, b: Action, js: JsonArray)
    requires Written(row, b, js).Some? && Written(row, b, js).value.key != ""
    ensures Run(row, Overlap(a, b), js).row == Step(row, b, js)
  {
    SecondWrites(row, a, js);
    RunThen(row, [Read(0), Read(1), Write(1, a)], Write(0, b), js);
    assert [Read(0), Read(1), Write(1, a)] + [Write(0, b)] == Overlap(a, b);
    var s := Run(row, [Read(0), Read(1), Write(1, a)], js);
    StoredFromSeen(s.row, Counted(s, 0), row, b, js);
  }

  lemma DisableStep(row: Row, i: nat, js: JsonArray)
    requires WellFormed(row) && i < row.size
    ensures WellFormed(Step(row, DisableKey(i), js))
    ensures Step(row, DisableKey(i), js) == row.(status := row.status[i := MANUAL_DISABLED])
  {
    SameKeys(row, row.(status := row.status[i := MANUAL_DISABLED]), js);
  }

  lemma SecondMarkIff(status: map<int, int>, i: int, j: int)
    ensures status[j := MANUAL_DISABLED] == status[i := MANUAL_DISABLED][j := MANUAL_DISABLED]
            <==> i == j || (i in status && status[i] == MANUAL_DISABLED)
  {
    var lost, kept := status[j := MANUAL_DISABLED], status[i := MANUAL_DISABLED][j := MANUAL_DISABLED];
    if i == j || (i in status && status[i] == MANUAL_DISABLED) {
      assert lost == kept;
    } else {
      assert i in kept && kept[i] == MANUAL_DISABLED;
      assert i in lost ==> lost[i] != MANUAL_DISABLED;
    }
  }

  /** Two overlapping disable_key requests leave what they would have left one after the other if and
      only if they name the same key or the first one's was manually disabled before. */
  lemma OverlappingDisablesIff(row: Row, i: nat, j: nat, js: JsonArray)
    requires WellFormed(row) && i < row.size && j < row.size
    ensures Run(row, Overlap(DisableKey(i), DisableKey(j)), js).row == Step(Step(row, DisableKey(i), js), DisableKey(j), js)
            <==> i == j || (i in row.status && row.status[i] == MANUAL_DISABLED)
  {
    GoodRow(row, js);
    OverlapLosesFirst(row, DisableKey(i), DisableKey(j), js);
    DisableStep(row, i, js);
    DisableStep(row, j, js);
    DisableStep(Step(row, DisableKey(i), js), j, js);
    SecondMarkIff(row.status, i, j);
  }
}
