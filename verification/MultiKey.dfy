/**
 Multi-key channels (controller/channel.go, ManageMultiKeys and the append path of
 UpdateChannel; model/channel.go, GetKeys and Update): a key list stored as one text column,
 with status, time and reason maps keyed by position in that list.
 */
module MultiKey {
  import opened ModelNames
  import opened Options
  import opened Text

  /** Decoding a JSON array of keys; None when the text is not one. */
  type JsonArray = string -> Option<seq<string>>

  const ENABLED := 1
  const MANUAL_DISABLED := 2
  const AUTO_DISABLED := 3

  /** The stored columns of a multi-key channel. */
  datatype Row = Row(key: string, size: int, status: map<int, int>, times: map<int, int>, reasons: map<int, string>)

  // ---------------------------------------------------------------- the key column

  predicate LooksJson(key: string) { "[" <= TrimSpace(key) }

  function GetKeys(key: string, js: JsonArray): seq<string> {
    if key != "" && LooksJson(key) && js(TrimSpace(key)).Some? then js(TrimSpace(key)).value else ReadList(key, '\n')
  }

  /** The key count that channel.Update recomputes. */
  function CountKeys(key: string, js: JsonArray): nat {
    if key != "" && LooksJson(key) && js(TrimSpace(key)).Some? && js(TrimSpace(key)).value != []
    then |js(TrimSpace(key)).value| else |ReadList(key, '\n')|
  }

  /** channel.Update: recounts the keys, drops statuses beyond them, and, because an empty column
      is skipped by the update statement, keeps the stored key text when the new one is empty. */
  function Persist(stored: Row, next: Row, js: JsonArray): Row {
    var key := if next.key != "" then next.key else stored.key;
    var size := CountKeys(key, js);
    Row(key, size, Below(next.status, {}, size), next.times, next.reasons)
  }

  /** The entries below `size`, and those still to be looked at. */
  function Below(status: map<int, int>, unseen: set<int>, size: int): map<int, int> {
    map i | i in status && (i in unseen || i < size) :: status[i]
  }

  // ---------------------------------------------------------------- the actions

  function Effective(status: map<int, int>, i: int): int { if i in status then status[i] else ENABLED }

  predicate Positions(kept: seq<int>, n: int) { forall j :: 0 <= j < |kept| ==> 0 <= kept[j] < n }

  /** Positions after keeping only the old positions `kept`, in that order. */
  function MoveStatus(status: map<int, int>, kept: seq<int>): map<int, int> {
    map j | 0 <= j < |kept| && Effective(status, kept[j]) != ENABLED :: Effective(status, kept[j])
  }

  function MoveInfo<T>(info: map<int, T>, status: map<int, int>, kept: seq<int>, all: bool): map<int, T> {
    map j | 0 <= j < |kept| && kept[j] in info && (all || Effective(status, kept[j]) != ENABLED) :: info[kept[j]]
  }

  function Pick(keys: seq<string>, kept: seq<int>): seq<string>
    requires Positions(kept, |keys|)
  {
    seq(|kept|, j requires 0 <= j < |kept| => keys[kept[j]])
  }

  function Reindexed(row: Row, keys: seq<string>, kept: seq<int>, all: bool): Row
    requires Positions(kept, |keys|)
  {
    Row(Join(Pick(keys, kept), '\n'), |kept|, MoveStatus(row.status, kept),
        MoveInfo(row.times, row.status, kept, all), MoveInfo(row.reasons, row.status, kept, all))
  }

  function AllBut(n: nat, i: nat): (kept: seq<int>)
    ensures Positions(kept, n)
  {
    if n == 0 then [] else AllBut(n - 1, i) + (if n - 1 == i then [] else [n - 1])
  }

  function NotAutoDisabled(status: map<int, int>, n: nat): (kept: seq<int>)
    ensures Positions(kept, n)
  {
    if n == 0 then []
    else NotAutoDisabled(status, n - 1) + (if Effective(status, n - 1) == AUTO_DISABLED then [] else [n - 1])
  }

  function DisabledUpTo(status: map<int, int>, n: nat): map<int, int> {
    if n == 0 then status
    else
      var before := DisabledUpTo(status, n - 1);
      if Effective(before, n - 1) == ENABLED then before[n - 1 := MANUAL_DISABLED] else before
  }

  /** The keys an appended text stands for: its lines; on a Vertex channel the elements of a JSON array,
      None when text that looks like one is none, and any other text as one key. */
  function Parts(text: string, vertex: bool, vertexArray: JsonArray): Option<seq<string>> {
    if !vertex then Some(Split(text, '\n')) else if LooksJson(text) then vertexArray(text) else Some([text])
  }

  /** The keys an append adds: trimmed, non-blank, new and distinct, in order. */
  function NewKeys(existing: seq<string>, parts: seq<string>): seq<string> {
    Filter(Normalize(parts), NotIn(Cleaned(existing)))
  }

  /** The existing keys as the append path reads them: JSON-looking text that does not parse yields none. */
  function AppendBase(key: string, js: JsonArray): seq<string> {
    if LooksJson(key) then (if js(TrimSpace(key)).Some? then js(TrimSpace(key)).value else []) else Split(TrimBy(key, Only('\n')), '\n')
  }

  /** None for a key that is not there, or the last one. */
  function OthersOnly(row: Row, keys: seq<string>, i: int): Option<Row> {
    if 0 <= i < row.size && AllBut(|keys|, i) != [] then Some(Reindexed(row, keys, AllBut(|keys|, i), true)) else None
  }

  /** None when there is no auto-disabled key. */
  function LiveOnly(row: Row, keys: seq<string>): Option<Row> {
    var kept := NotAutoDisabled(row.status, |keys|);
    if |kept| == |keys| then None else Some(Reindexed(row, keys, kept, false))
  }

  datatype Action =
    | DisableKey(index: int) | EnableKey(index: int) | EnableAll | DisableAll
    | DeleteKey(index: int) | DeleteDisabledKeys
    | Append(text: string, parts: seq<string>)
    | Edit(text: string)   // an edit of the channel that replaces the keys, or with no text leaves them

  /** What an action asks channel.Update to store; None when it is refused or has nothing to do. */
  function Written(row: Row, a: Action, js: JsonArray): Option<Row> {
    match a
    case DisableKey(i) => if 0 <= i < row.size then Some(row.(status := row.status[i := MANUAL_DISABLED])) else None
    case EnableKey(i) =>
      if 0 <= i < row.size
      then Some(row.(status := row.status - {i}, times := row.times - {i}, reasons := row.reasons - {i})) else None
    case EnableAll => Some(row.(status := map[], times := map[], reasons := map[]))
    case DisableAll =>
      var status := DisabledUpTo(row.status, if row.size < 0 then 0 else row.size);
      if status == row.status then None else Some(row.(status := status))
    case DeleteKey(i) => OthersOnly(row, GetKeys(row.key, js), i)
    case DeleteDisabledKeys => LiveOnly(row, GetKeys(row.key, js))
    case Append(text, parts) =>
      var existing := AppendBase(row.key, js);
      Some(row.(key := if row.key == "" then text else Join(existing + NewKeys(existing, parts), '\n')))
    case Edit(text) => Some(row.(key := text))
  }

  function Step(row: Row, a: Action, js: JsonArray): Row { Update(row, Written(row, a, js), js) }

  function Update(row: Row, next: Option<Row>, js: JsonArray): Row {
    if next.Some? then Persist(row, next.value, js) else row
  }

  // ---------------------------------------------------------------- status updates

  /** The first position of a key. */
  function IndexOf(keys: seq<string>, key: string): (r: Option<nat>)
    ensures r.Some? <==> key in keys
    ensures r.Some? ==> r.value < |keys| && keys[r.value] == key
  {
    if keys == [] then None
    else if keys[0] == key then Some(0)
    else
      var r := IndexOf(keys[1..], key);
      if r.Some? then Some(r.value + 1) else None
  }

  /** handlerMultiKeyUpdate: enabling a key leaves its time and reason. */
  function Reported(row: Row, key: string, status: int, reason: string, time: int, js: JsonArray): Row {
    var i := IndexOf(GetKeys(row.key, js), key);
    if i.None? then row
    else if status == ENABLED then row.(status := row.status - {i.value})
    else row.(status := row.status[i.value := status], times := row.times[i.value := time], reasons := row.reasons[i.value := reason])
  }

  // ---------------------------------------------------------------- well-formed rows and their meaning

  predicate GoodKey(k: string) {
    '\n' !in k && TrimSpace(k) != "" && TrimSpace(k)[0] != '['
  }

  predicate GoodKeys(keys: seq<string>) {
    keys != [] && forall i :: 0 <= i < |keys| ==> GoodKey(keys[i])
  }

  function Keys(row: Row): seq<string> { ReadList(row.key, '\n') }

  predicate InRange<T>(info: map<int, T>, size: int) { forall i :: i in info ==> 0 <= i < size }

  predicate WellFormed(row: Row) {
    && GoodKeys(Keys(row)) && row.key == Join(Keys(row), '\n') && row.size == |Keys(row)|
    && InRange(row.status, row.size) && InRange(row.times, row.size) && InRange(row.reasons, row.size)
  }

  /** What an administrator sees of one key; time and reason count only while it is disabled. */
  datatype KeyView = KeyView(key: string, status: int, time: Option<int>, reason: Option<string>)

  function ViewAt(row: Row, keys: seq<string>, i: nat): KeyView
    requires i < |keys|
  {
    var s := Effective(row.status, i);
    KeyView(keys[i], s, if s != ENABLED && i in row.times then Some(row.times[i]) else None,
            if s != ENABLED && i in row.reasons then Some(row.reasons[i]) else None)
  }

  function View(row: Row): seq<KeyView> {
    seq(|Keys(row)|, i requires 0 <= i < |Keys(row)| => ViewAt(row, Keys(row), i))
  }

  // ---------------------------------------------------------------- text facts

  lemma {:induction false} TrimLeftAppend(a: string, b: string)
    requires TrimLeft(a, IsSpace) != []
    ensures TrimLeft(a + b, IsSpace) == TrimLeft(a, IsSpace) + b
  {
    if IsSpace(a[0]) {
      assert (a + b)[1..] == a[1..] + b;
      TrimLeftAppend(a[1..], b);
    }
  }

  lemma {:induction false} TrimRightKeepsHead(s: string)
    requires s != [] && !IsSpace(s[0])
    ensures TrimRight(s, IsSpace) != [] && TrimRight(s, IsSpace)[0] == s[0]
  {
    if |s| > 1 && IsSpace(s[|s|-1]) { TrimRightKeepsHead(s[..|s|-1]); }
  }

  /** Text that starts with a good key is never taken for JSON. */
  lemma NotJson(k: string, rest: string)
    requires GoodKey(k)
    ensures !LooksJson(k + rest)
  {
    TrimLeftClean(k, IsSpace);
    assert TrimLeft(k, IsSpace) != [];
    TrimLeftAppend(k, rest);
    TrimRightKeepsHead(TrimLeft(k, IsSpace));
    TrimRightKeepsHead(TrimLeft(k + rest, IsSpace));
  }

  lemma GoodKeysAreLines(keys: seq<string>)
    requires GoodKeys(keys)
    ensures AllFree(keys, '\n') && NonEmptyParts(keys)
  {
    forall i | 0 <= i < |keys| ensures keys[i] != [] && '\n' !in keys[i] { assert GoodKey(keys[i]); }
  }

  lemma StartsWithFirst(keys: seq<string>) returns (rest: string)
    requires keys != []
    ensures Join(keys, '\n') == keys[0] + rest
  {
    rest := if |keys| == 1 then [] else ['\n'] + Join(keys[1..], '\n');
  }

  lemma GoodKeysText(keys: seq<string>)
    requires GoodKeys(keys)
    ensures var text := Join(keys, '\n'); text != "" && !LooksJson(text) && ReadList(text, '\n') == keys
  {
    GoodKeysAreLines(keys);
    ReadOfJoin(keys, '\n');
    var rest := StartsWithFirst(keys);
    NotJson(keys[0], rest);
  }

  /** Saving a list of good keys stores exactly that list. */
  lemma PersistGood(stored: Row, next: Row, keys: seq<string>, js: JsonArray)
    requires GoodKeys(keys) && next.key == Join(keys, '\n') && InRange(next.status, |keys|)
    ensures var r := Persist(stored, next, js);
            r == next.(size := |keys|) && Keys(r) == keys && GetKeys(r.key, js) == keys
  {
    GoodKeysText(keys);
    NothingBeyond(next.status, |keys|);
    TextKeys(next.key, keys, js);
  }

  lemma NothingBeyond(status: map<int, int>, size: int)
    requires InRange(status, size)
    ensures Below(status, {}, size) == status
  {}

  lemma TextKeys(text: string, keys: seq<string>, js: JsonArray)
    requires text != "" && !LooksJson(text) && ReadList(text, '\n') == keys
    ensures GetKeys(text, js) == keys && CountKeys(text, js) == |keys|
  {}

  // ---------------------------------------------------------------- deletion re-indexes faithfully

  lemma GoodRow(row: Row, js: JsonArray)
    requires WellFormed(row)
    ensures GetKeys(row.key, js) == Keys(row) && CountKeys(row.key, js) == |Keys(row)| && row.key != "" && !LooksJson(row.key)
  {
    GoodKeysText(Keys(row));
  }

  /** Keeping some positions keeps exactly what those keys showed, in that order. */
  lemma ReindexView(row: Row, kept: seq<int>, all: bool, js: JsonArray)
    requires WellFormed(row) && kept != [] && Positions(kept, |Keys(row)|)
    ensures var r := Persist(row, Reindexed(row, Keys(row), kept, all), js);
      WellFormed(r) && |View(r)| == |kept| && forall j :: 0 <= j < |kept| ==> View(r)[j] == View(row)[kept[j]]
  {
    var keys := Pick(Keys(row), kept);
    var next := Reindexed(row, Keys(row), kept, all);
    forall j | 0 <= j < |keys| ensures GoodKey(keys[j]) { assert GoodKey(Keys(row)[kept[j]]); }
    PersistGood(row, next, keys, js);
    assert next.(size := |keys|) == next;
    GoodKeysText(keys);
    MovedView(row, next, kept, all);
  }

  lemma MovedView(row: Row, next: Row, kept: seq<int>, all: bool)
    requires Positions(kept, |Keys(row)|) && Keys(next) == Pick(Keys(row), kept)
    requires next.status == MoveStatus(row.status, kept)
    requires next.times == MoveInfo(row.times, row.status, kept, all) && next.reasons == MoveInfo(row.reasons, row.status, kept, all)
    ensures |View(next)| == |kept| && forall j :: 0 <= j < |kept| ==> View(next)[j] == View(row)[kept[j]]
  {}

  lemma {:induction false} AllButIs(n: nat, i: nat)
    ensures |AllBut(n, i)| == (if i < n then n - 1 else n)
    ensures forall j :: 0 <= j < |AllBut(n, i)| ==> AllBut(n, i)[j] == if j < i then j else j + 1
  {
    if n > 0 { AllButIs(n - 1, i); }
  }

  lemma WrittenDelete(row: Row, keys: seq<string>, i: nat, js: JsonArray)
    requires keys == GetKeys(row.key, js) && i < row.size && AllBut(|keys|, i) != []
    ensures Written(row, DeleteKey(i), js) == Some(Reindexed(row, keys, AllBut(|keys|, i), true))
  {
    WrittenIsOthers(row, i, js);
    assert OthersOnly(row, keys, i) == Some(Reindexed(row, keys, AllBut(|keys|, i), true));
  }

  lemma WrittenIsOthers(row: Row, i: nat, js: JsonArray)
    ensures Written(row, DeleteKey(i), js) == OthersOnly(row, GetKeys(row.key, js), i)
  {}

  lemma DeleteKeyStep(row: Row, i: nat, js: JsonArray)
    requires WellFormed(row) && i < row.size && row.size > 1
    ensures AllBut(row.size, i) != []
    ensures Step(row, DeleteKey(i), js) == Persist(row, Reindexed(row, Keys(row), AllBut(row.size, i), true), js)
  {
    GoodRow(row, js);
    AllButIs(row.size, i);
    WrittenDelete(row, Keys(row), i, js);
  }

  lemma Without<T>(s: seq<T>, i: nat, t: seq<T>)
    requires i < |s| && |t| == |s| - 1
    requires forall j :: 0 <= j < |t| ==> t[j] == s[if j < i then j else j + 1]
    ensures t == s[..i] + s[i+1..]
  {}

  /** delete_key removes one key and moves everything known about the others with them. */
  lemma DeleteKeyView(row: Row, i: nat, js: JsonArray)
    requires WellFormed(row) && i < row.size && row.size > 1
    ensures var r := Step(row, DeleteKey(i), js);
      WellFormed(r) && View(r) == View(row)[..i] + View(row)[i+1..]
  {
    DeleteKeyStep(row, i, js);
    AllButIs(row.size, i);
    ReindexView(row, AllBut(row.size, i), true, js);
    Without(View(row), i, View(Step(row, DeleteKey(i), js)));
  }

  function Surviving(view: seq<KeyView>): seq<KeyView> {
    if view == [] then []
    else Surviving(view[..|view|-1]) + (if view[|view|-1].status == AUTO_DISABLED then [] else [view[|view|-1]])
  }

  lemma {:induction false} SurvivingIs(row: Row, view: seq<KeyView>, n: nat)
    requires n == |view| && forall i :: 0 <= i < n ==> view[i].status == Effective(row.status, i)
    ensures |Surviving(view)| == |NotAutoDisabled(row.status, n)|
    ensures forall j :: 0 <= j < |Surviving(view)| ==> Surviving(view)[j] == view[NotAutoDisabled(row.status, n)[j]]
  {
    if n > 0 { SurvivingIs(row, view[..n-1], n - 1); }
  }

  function AllEnabled(view: seq<KeyView>): seq<KeyView> {
    seq(|view|, i requires 0 <= i < |view| => KeyView(view[i].key, ENABLED, None, None))
  }

  lemma LiveOnlyView(row: Row, kept: seq<int>, js: JsonArray)
    requires WellFormed(row) && kept == NotAutoDisabled(row.status, |Keys(row)|)
    ensures var r := Update(row, LiveOnly(row, Keys(row)), js);
      && WellFormed(r)
      && View(r) == (if Surviving(View(row)) != [] then Surviving(View(row)) else AllEnabled(View(row)))
  {
    SurvivingIs(row, View(row), row.size);
    KeptAll(row.status, row.size);
    if |kept| != row.size {
      if kept != [] { ReindexView(row, kept, false, js); } else { EmptiedRow(row, js); }
    }
  }

  lemma StepDeletes(row: Row, js: JsonArray)
    ensures Step(row, DeleteDisabledKeys, js) == Update(row, LiveOnly(row, GetKeys(row.key, js)), js)
  {}

  lemma GoodRowDeletes(row: Row, js: JsonArray)
    requires WellFormed(row)
    ensures Step(row, DeleteDisabledKeys, js) == Update(row, LiveOnly(row, Keys(row)), js)
  {
    GoodRow(row, js);
    StepDeletes(row, js);
  }

  /** delete_disabled_keys keeps exactly the keys that are not auto-disabled, as they were; but if
      every key is auto-disabled, the emptied key column is not written and all keys come back enabled. */
  lemma DeleteDisabledView(row: Row, js: JsonArray)
    requires WellFormed(row)
    ensures var r := Step(row, DeleteDisabledKeys, js);
      && WellFormed(r)
      && View(r) == (if Surviving(View(row)) != [] then Surviving(View(row)) else AllEnabled(View(row)))
  {
    GoodRowDeletes(row, js);
    LiveOnlyView(row, NotAutoDisabled(row.status, |Keys(row)|), js);
  }

  lemma {:induction false} KeptAll(status: map<int, int>, n: nat)
    ensures |NotAutoDisabled(status, n)| <= n
    ensures |NotAutoDisabled(status, n)| == n ==> forall j :: 0 <= j < n ==> NotAutoDisabled(status, n)[j] == j
  {
    if n > 0 { KeptAll(status, n - 1); }
  }

  lemma EmptiedRow(row: Row, js: JsonArray)
    requires WellFormed(row)
    ensures var r := Persist(row, Reindexed(row, Keys(row), [], false), js);
      WellFormed(r) && View(r) == AllEnabled(View(row))
  {
    GoodRow(row, js);
    var next := Reindexed(row, Keys(row), [], false);
    assert next.key == "" && next.status == map[] && next.times == map[] && next.reasons == map[];
  }

  /** So the action does what its name says exactly when some key is not auto-disabled. */
  lemma DeleteDisabledCorrectIff(row: Row, js: JsonArray)
    requires WellFormed(row)
    ensures View(Step(row, DeleteDisabledKeys, js)) == Surviving(View(row)) <==>
            exists i :: 0 <= i < row.size && Effective(row.status, i) != AUTO_DISABLED
  {
    DeleteDisabledView(row, js);
    SurvivingIs(row, View(row), row.size);
    if i :| 0 <= i < row.size && Effective(row.status, i) != AUTO_DISABLED { KeepsSome(row.status, row.size, i); }
    if Surviving(View(row)) != [] {
      var i := NotAutoDisabled(row.status, row.size)[0];
      OnlyLive(row.status, row.size, 0);
      assert 0 <= i < row.size;
    }
  }

  lemma {:induction false} KeepsSome(status: map<int, int>, n: nat, i: nat)
    requires i < n && Effective(status, i) != AUTO_DISABLED
    ensures NotAutoDisabled(status, n) != []
  {
    if i < n - 1 { KeepsSome(status, n - 1, i); }
  }

  lemma {:induction false} OnlyLive(status: map<int, int>, n: nat, j: nat)
    requires j < |NotAutoDisabled(status, n)|
    ensures Effective(status, NotAutoDisabled(status, n)[j]) != AUTO_DISABLED
  {
    if j < |NotAutoDisabled(status, n - 1)| { OnlyLive(status, n - 1, j); }
  }

  // ---------------------------------------------------------------- the other actions

  /** channel.Update in plain terms, for every row: the key column is replaced unless the new one is empty,
      the keys in it are counted, the statuses at or beyond that count go, and times and reasons stay. */
  lemma PersistIs(stored: Row, next: Row, js: JsonArray)
    ensures var r := Persist(stored, next, js);
      && r.key == (if next.key == "" then stored.key else next.key)
      && r.size == (if EmptyArray(r.key, js) then |ReadList(r.key, '\n')| else |GetKeys(r.key, js)|)
      && (forall i :: i in r.status <==> i in next.status && i < r.size)
      && (forall i :: i in r.status ==> r.status[i] == next.status[i])
      && r.times == next.times && r.reasons == next.reasons
  {}

  /** Saving a row with the same key text keeps it, whatever in-range statuses it carries. */
  lemma SameKeys(row: Row, next: Row, js: JsonArray)
    requires WellFormed(row) && next.key == row.key && next.size == row.size && InRange(next.status, row.size)
    requires InRange(next.times, row.size) && InRange(next.reasons, row.size)
    ensures Persist(row, next, js) == next && WellFormed(next) && Keys(next) == Keys(row)
  {
    GoodRow(row, js);
  }

  lemma EnabledView(row: Row, next: Row, i: nat)
    requires i < |Keys(row)| && next == row.(status := row.status - {i}, times := row.times - {i}, reasons := row.reasons - {i})
    ensures View(next) == View(row)[i := KeyView(View(row)[i].key, ENABLED, None, None)]
  {}

  /** enable_key enables one key; the others show what they showed. */
  lemma EnableKeyView(row: Row, i: nat, js: JsonArray)
    requires WellFormed(row) && i < row.size
    ensures var r := Step(row, EnableKey(i), js);
      WellFormed(r) && View(r) == View(row)[i := KeyView(View(row)[i].key, ENABLED, None, None)]
  {
    var next := row.(status := row.status - {i}, times := row.times - {i}, reasons := row.reasons - {i});
    SameKeys(row, next, js);
    EnabledView(row, next, i);
  }

  /** disable_key marks one key as manually disabled, with the time and reason recorded for it before, if
      any; the others show what they showed. */
  lemma DisableKeyView(row: Row, i: nat, js: JsonArray)
    requires WellFormed(row) && i < row.size
    ensures var r := Step(row, DisableKey(i), js);
      && WellFormed(r) && View(r) == View(row)[i := KeyView(Keys(row)[i], MANUAL_DISABLED, Entry(row.times, i), Entry(row.reasons, i))]
  {
    SameKeys(row, row.(status := row.status[i := MANUAL_DISABLED]), js);
    DisabledView(row, row.(status := row.status[i := MANUAL_DISABLED]), i);
  }

  function Entry<T>(info: map<int, T>, i: int): Option<T> { if i in info then Some(info[i]) else None }

  lemma DisabledView(row: Row, next: Row, i: nat)
    requires i < |Keys(row)| && next == row.(status := row.status[i := MANUAL_DISABLED])
    ensures View(next) == View(row)[i := KeyView(Keys(row)[i], MANUAL_DISABLED, Entry(row.times, i), Entry(row.reasons, i))]
  {}

  /** A status update for a key that is there: reported as working, its first occurrence is enabled;
      otherwise it shows that status with time and reason. Every other key shows what it showed, and an
      update for a key that is not there changes nothing. */
  lemma ReportedView(row: Row, key: string, status: int, reason: string, time: int, js: JsonArray)
    requires WellFormed(row)
    ensures var r, i := Reported(row, key, status, reason, time, js), IndexOf(Keys(row), key);
      if key !in Keys(row) then r == row
      else && i.Some? && key !in Keys(row)[..i.value]
           && View(r) == View(row)[i.value := if status == ENABLED then KeyView(key, ENABLED, None, None)
                                              else KeyView(key, status, Some(time), Some(reason))]
  {
    GoodRow(row, js);
    if key in Keys(row) {
      FirstOccurrence(Keys(row), key);
      MarkedView(row, IndexOf(Keys(row), key).value, status, reason, time);
    }
  }

  lemma {:induction false} FirstOccurrence(keys: seq<string>, key: string)
    requires key in keys
    ensures IndexOf(keys, key).Some? && key !in keys[..IndexOf(keys, key).value]
  {
    if keys[0] != key {
      FirstOccurrence(keys[1..], key);
      assert keys[..IndexOf(keys, key).value] == [keys[0]] + keys[1..][..IndexOf(keys[1..], key).value];
    }
  }

  lemma MarkedView(row: Row, i: nat, status: int, reason: string, time: int)
    requires i < |Keys(row)|
    ensures View(row.(status := row.status - {i})) == View(row)[i := KeyView(Keys(row)[i], ENABLED, None, None)]
    ensures status != ENABLED ==>
              View(row.(status := row.status[i := status], times := row.times[i := time], reasons := row.reasons[i := reason])) ==
              View(row)[i := KeyView(Keys(row)[i], status, Some(time), Some(reason))]
  {}

  lemma EnableAllView(row: Row, js: JsonArray)
    requires WellFormed(row)
    ensures var r := Step(row, EnableAll, js); WellFormed(r) && View(r) == AllEnabled(View(row))
  {
    SameKeys(row, row.(status := map[], times := map[], reasons := map[]), js);
  }

  lemma {:induction false} DisabledUpToIs(status: map<int, int>, n: nat, size: int)
    requires InRange(status, size) && n <= size
    ensures InRange(DisabledUpTo(status, n), size)
    ensures forall i :: Effective(DisabledUpTo(status, n), i) ==
              if 0 <= i < n && Effective(status, i) == ENABLED then MANUAL_DISABLED else Effective(status, i)
  {
    if n > 0 { DisabledUpToIs(status, n - 1, size); }
  }

  /** disable_all_keys disables the enabled keys and leaves the disabled ones as they are. */
  lemma DisableAllView(row: Row, js: JsonArray)
    requires WellFormed(row)
    ensures var r := Step(row, DisableAll, js);
      && WellFormed(r) && |View(r)| == |View(row)|
      && forall i :: 0 <= i < |View(row)| ==>
           View(r)[i] == if View(row)[i].status == ENABLED
                         then KeyView(Keys(row)[i], MANUAL_DISABLED, Entry(row.times, i), Entry(row.reasons, i)) else View(row)[i]
  {
    DisabledUpToIs(row.status, row.size, row.size);
    SameKeys(row, row.(status := DisabledUpTo(row.status, row.size)), js);
    AllDisabledView(row, row.(status := DisabledUpTo(row.status, row.size)));
  }

  lemma AllDisabledView(row: Row, next: Row)
    requires next == row.(status := next.status)
    requires forall i :: 0 <= i < |Keys(row)| ==>
               Effective(next.status, i) == if Effective(row.status, i) == ENABLED then MANUAL_DISABLED else Effective(row.status, i)
    ensures |View(next)| == |View(row)|
    ensures forall i :: 0 <= i < |View(row)| ==>
              View(next)[i] == if View(row)[i].status == ENABLED
                               then KeyView(Keys(row)[i], MANUAL_DISABLED, Entry(row.times, i), Entry(row.reasons, i)) else View(row)[i]
  {}

  /** Every line of every key of an append is a good key. */
  predicate GoodParts(parts: seq<string>) {
    forall k :: k in Cleaned(parts) ==> GoodLines(Split(k, '\n'))
  }

  predicate GoodLines(lines: seq<string>) { forall i :: 0 <= i < |lines| ==> GoodKey(lines[i]) }

  function Fresh(keys: seq<string>): seq<KeyView> {
    seq(|keys|, i requires 0 <= i < |keys| => KeyView(keys[i], ENABLED, None, None))
  }

  lemma NewKeysFacts(existing: seq<string>, parts: seq<string>)
    ensures Canonical(NewKeys(existing, parts))
    ensures forall k :: k in NewKeys(existing, parts) <==> k in Cleaned(parts) && k !in Cleaned(existing)
    ensures AllFree(parts, '\n') ==> AllFree(NewKeys(existing, parts), '\n')
  {
    NormalizeCanonical(parts);
    FilterCanonical(Normalize(parts), NotIn(Cleaned(existing)));
    forall k ensures k in NewKeys(existing, parts) <==> k in Cleaned(parts) && k !in Cleaned(existing) {
      FilterMembers(Normalize(parts), NotIn(Cleaned(existing)), k);
      UniqMembers(Cleaned(parts), k);
    }
    if AllFree(parts, '\n') {
      forall j | 0 <= j < |NewKeys(existing, parts)| ensures '\n' !in NewKeys(existing, parts)[j] {
        FreeStays(parts, NewKeys(existing, parts)[j]);
      }
    }
  }

  lemma FreeStays(parts: seq<string>, k: string)
    requires AllFree(parts, '\n') && k in Cleaned(parts)
    ensures '\n' !in k
  {
    CleanedMembers(parts, k);
    var i :| 0 <= i < |parts| && TrimSpace(parts[i]) == k;
    if '\n' in k { TrimKeepsChars(parts[i], IsSpace, '\n'); }
  }

  /** Good keys with trimmed, non-empty ones behind them read back as themselves and the others' lines. */
  lemma ColumnOf(keys: seq<string>, added: seq<string>)
    requires GoodKeys(keys) && Canonical(added)
    ensures var text := Join(keys + added, '\n');
            text != "" && !LooksJson(text) && ReadList(text, '\n') == keys + Pieces(added, '\n')
    ensures Join(keys + Pieces(added, '\n'), '\n') == Join(keys + added, '\n')
  {
    var all := keys + added;
    var text := Join(all, '\n');
    GoodKeysAreLines(keys);
    assert all[0] == keys[0] && GoodKey(keys[0]);
    var rest := StartsWithFirst(all);
    NotJson(keys[0], rest);
    JoinEnds(all, '\n');
    assert Trimmed(text, Only('\n')) by { EndsClean(keys, added); }
    TrimmedIsFixed(text, Only('\n'));
    SplitOfJoinIsPieces(all, '\n');
    PiecesConcat(keys, added, '\n');
    PiecesIff(keys, '\n');
    JoinOfSplit(text, '\n');
  }

  lemma EndsClean(keys: seq<string>, added: seq<string>)
    requires GoodKeys(keys) && Canonical(added)
    ensures var all := keys + added; all[0] != "" && all[|all|-1] != "" && all[0][0] != '\n' && all[|all|-1][|all[|all|-1]|-1] != '\n'
  {
    GoodKeysAreLines(keys);
    var last := (keys + added)[|keys + added| - 1];
    if added != [] { assert last == added[|added|-1] && IsSpace('\n'); } else { assert last == keys[|keys|-1]; }
  }

  lemma WrittenAppend(row: Row, text: string, parts: seq<string>, existing: seq<string>, js: JsonArray)
    requires row.key != "" && existing == AppendBase(row.key, js)
    ensures Written(row, Append(text, parts), js) == Some(row.(key := Join(existing + NewKeys(existing, parts), '\n')))
  {}

  lemma LinesAreBase(key: string, js: JsonArray)
    requires key != "" && !LooksJson(key)
    ensures AppendBase(key, js) == ReadList(key, '\n')
  {}

  /** An append leaves everything but the key column and its count. */
  lemma AppendStep(row: Row, text: string, parts: seq<string>, js: JsonArray)
    requires WellFormed(row)
    ensures var keys := Keys(row) + Pieces(NewKeys(Keys(row), parts), '\n'); var r := Step(row, Append(text, parts), js);
            r == row.(key := Join(keys, '\n'), size := |keys|) && Keys(r) == keys
  {
    var keys, added := Keys(row), NewKeys(Keys(row), parts);
    GoodRow(row, js);
    LinesAreBase(row.key, js);
    WrittenAppend(row, text, parts, keys, js);
    NewKeysFacts(keys, parts);
    ColumnOf(keys, added);
    var next := row.(key := Join(keys + added, '\n'));
    TextKeys(next.key, keys + Pieces(added, '\n'), js);
    NothingBeyond(next.status, |keys + Pieces(added, '\n')|);
  }

  lemma AppendWellFormedIff(row: Row, text: string, parts: seq<string>, js: JsonArray)
    requires WellFormed(row)
    ensures WellFormed(Step(row, Append(text, parts), js)) <==> GoodParts(parts)
  {
    AppendStep(row, text, parts, js);
    AddedGoodIff(Keys(row), parts);
    GoodConcatIff(Keys(row), Pieces(NewKeys(Keys(row), parts), '\n'));
  }

  lemma GoodConcatIff(keys: seq<string>, more: seq<string>)
    requires GoodKeys(keys)
    ensures GoodKeys(keys + more) <==> GoodLines(more)
  {
    if GoodKeys(keys + more) {
      forall i | 0 <= i < |more| ensures GoodKey(more[i]) { assert (keys + more)[|keys| + i] == more[i]; }
    }
  }

  lemma AddedGoodIff(keys: seq<string>, parts: seq<string>)
    requires GoodKeys(keys)
    ensures GoodLines(Pieces(NewKeys(keys, parts), '\n')) <==> GoodParts(parts)
  {
    var added := NewKeys(keys, parts);
    NewKeysFacts(keys, parts);
    if GoodParts(parts) {
      forall j | 0 <= j < |Pieces(added, '\n')| ensures GoodKey(Pieces(added, '\n')[j]) {
        var line := Pieces(added, '\n')[j];
        PiecesMembers(added, '\n', line);
        var i :| 0 <= i < |added| && line in Split(added[i], '\n');
        assert added[i] in added;
      }
    }
    if GoodLines(Pieces(added, '\n')) {
      forall k | k in Cleaned(parts) ensures GoodLines(Split(k, '\n')) {
        if k in added { AddedLines(added, k); } else { KnownIsGood(keys, k); }
      }
    }
  }

  lemma AddedLines(added: seq<string>, k: string)
    requires k in added && GoodLines(Pieces(added, '\n'))
    ensures GoodLines(Split(k, '\n'))
  {
    var lines := Split(k, '\n');
    forall j | 0 <= j < |lines| ensures GoodKey(lines[j]) {
      assert lines[j] in lines;
      PiecesMembers(added, '\n', lines[j]);
    }
  }

  /** A key that is there already is a good one. */
  lemma KnownIsGood(keys: seq<string>, k: string)
    requires GoodKeys(keys) && k in Cleaned(keys)
    ensures GoodLines(Split(k, '\n'))
  {
    GoodKeysAreLines(keys);
    FreeStays(keys, k);
    CleanedMembers(keys, k);
    var i :| 0 <= i < |keys| && TrimSpace(keys[i]) == k;
    TrimIsTrimmed(keys[i], IsSpace);
    TrimmedIsFixed(k, IsSpace);
    assert GoodKey(keys[i]) && GoodKey(k);
    SplitFree(k, '\n');
  }

  /** An append keeps every key in place with what it showed, and puts the new keys, enabled, behind
      them; a new key that contains line breaks comes apart into its lines. */
  lemma AppendView(row: Row, text: string, parts: seq<string>, js: JsonArray)
    requires WellFormed(row)
    ensures View(Step(row, Append(text, parts), js)) == View(row) + Fresh(Pieces(NewKeys(Keys(row), parts), '\n'))
  {
    AppendStep(row, text, parts, js);
    SameViews(row, Step(row, Append(text, parts), js));
  }

  lemma SameViews(row: Row, r: Row)
    requires WellFormed(row) && Keys(row) <= Keys(r) && r.status == row.status && r.times == row.times && r.reasons == row.reasons
    ensures View(r) == View(row) + Fresh(Keys(r)[|Keys(row)|..])
  {}

  lemma FreshKeys(a: seq<string>, b: seq<string>)
    ensures Fresh(a) == Fresh(b) <==> a == b
  {
    if Fresh(a) == Fresh(b) {
      assert |Fresh(a)| == |Fresh(b)|;
      forall i | 0 <= i < |a| ensures a[i] == b[i] { assert Fresh(a)[i] == Fresh(b)[i]; }
    }
  }

  /** So the new keys are there as they were given if and only if none of them contains a line break,
      as lines never do; only a Vertex key can. */
  lemma AppendedAsGivenIff(row: Row, text: string, parts: seq<string>, js: JsonArray)
    requires WellFormed(row)
    ensures View(Step(row, Append(text, parts), js)) == View(row) + Fresh(NewKeys(Keys(row), parts))
            <==> AllFree(NewKeys(Keys(row), parts), '\n')
    ensures Parts(text, false, js) == Some(parts) ==> AllFree(NewKeys(Keys(row), parts), '\n')
  {
    var added := NewKeys(Keys(row), parts);
    AppendView(row, text, parts, js);
    PiecesIff(added, '\n');
    var views := View(row) + Fresh(Pieces(added, '\n'));
    assert views[|View(row)|..] == Fresh(Pieces(added, '\n'));
    assert (View(row) + Fresh(added))[|View(row)|..] == Fresh(added);
    FreshKeys(Pieces(added, '\n'), added);
    SplitIsFree(text, '\n');
    NewKeysFacts(Keys(row), parts);
  }

  /** Text that looks like a JSON array but is not one: the append path finds no existing keys, so
      all of them are replaced by the new ones. */
  lemma AppendDropsUnparsedKeys(row: Row, text: string, parts: seq<string>, js: JsonArray)
    requires row.key != "" && LooksJson(row.key) && js(TrimSpace(row.key)).None? && NewKeys([], parts) != []
    ensures Step(row, Append(text, parts), js).key == Join(NewKeys([], parts), '\n')
  {
    NewKeysText([], parts);
    AppendToNothing(row, text, parts, NewKeys([], parts), js);
  }

  lemma AppendToNothing(row: Row, text: string, parts: seq<string>, added: seq<string>, js: JsonArray)
    requires row.key != "" && AppendBase(row.key, js) == [] && added == NewKeys([], parts) && Join(added, '\n') != ""
    ensures Step(row, Append(text, parts), js).key == Join(added, '\n')
  {
    assert [] + added == added;
  }

  lemma NewKeysText(existing: seq<string>, parts: seq<string>)
    requires NewKeys(existing, parts) != []
    ensures Join(NewKeys(existing, parts), '\n') != ""
  {
    NewKeysFacts(existing, parts);
    JoinEnds(NewKeys(existing, parts), '\n');
  }

  /** What an appended text stands for, in plain terms: its lines; on a Vertex channel the elements of a JSON
      array, and any text that does not begin with "[" as a single key, line breaks and all. */
  lemma PartsAre(text: string, vertex: bool, vertexArray: JsonArray)
    ensures var bracket := TrimSpace(text) != "" && TrimSpace(text)[0] == '[';
            Parts(text, vertex, vertexArray) ==
            if vertex && bracket then vertexArray(text) else if vertex then Some([text]) else Some(Split(text, '\n'))
  {
    assert LooksJson(text) <==> TrimSpace(text) != "" && TrimSpace(text)[0] == '[';
  }

  /** How a key column is read: as a JSON array when it begins with "[" and is one, otherwise as lines, line
      breaks at its ends aside; the append path takes text that begins with "[" and is none for no keys. */
  lemma KeysAre(key: string, js: JsonArray)
    ensures var text := TrimSpace(key); var bracket := text != "" && text[0] == '[';
      var lines := Split(TrimBy(key, Only('\n')), '\n');
      && GetKeys(key, js) == (if key == "" then [] else if bracket && js(text).Some? then js(text).value else lines)
      && (key != "" ==> AppendBase(key, js) == if !bracket then lines else if js(text).Some? then js(text).value else [])
  {
    assert LooksJson(key) <==> TrimSpace(key) != "" && TrimSpace(key)[0] == '[';
  }

  // ---------------------------------------------------------------- times and reasons, shown or not

  /** What stays recorded beside the statuses, for every row: enabling forgets time and reason, of one key
      or of all; disabling, appending and editing keep them. */
  lemma InfoAfter(row: Row, a: Action, js: JsonArray)
    ensures var r := Step(row, a, js);
      match a
      case EnableKey(i) =>
        if 0 <= i < row.size then r.times == row.times - {i} && r.reasons == row.reasons - {i}
        else r.times == row.times && r.reasons == row.reasons
      case EnableAll => r.times == map[] && r.reasons == map[]
      case DeleteKey(_) => true
      case DeleteDisabledKeys => true
      case _ => r.times == row.times && r.reasons == row.reasons
  {}

  lemma MovedEntries(row: Row, kept: seq<int>, all: bool, j: int)
    ensures Entry(MoveInfo(row.times, row.status, kept, all), j) ==
            if 0 <= j < |kept| && (all || Effective(row.status, kept[j]) != ENABLED) then Entry(row.times, kept[j]) else None
    ensures Entry(MoveInfo(row.reasons, row.status, kept, all), j) ==
            if 0 <= j < |kept| && (all || Effective(row.status, kept[j]) != ENABLED) then Entry(row.reasons, kept[j]) else None
  {}

  /** delete_key moves times and reasons of all other keys with them, of enabled ones too. */
  lemma DeleteKeyInfo(row: Row, i: nat, js: JsonArray, j: nat)
    requires i < row.size && |GetKeys(row.key, js)| > 1
    ensures var r, n := Step(row, DeleteKey(i), js), |GetKeys(row.key, js)|; var from := if j < i then j else j + 1;
      && Entry(r.times, j) == (if from < n then Entry(row.times, from) else None)
      && Entry(r.reasons, j) == (if from < n then Entry(row.reasons, from) else None)
  {
    var keys := GetKeys(row.key, js);
    AllButIs(|keys|, i);
    WrittenDelete(row, keys, i, js);
    MovedEntries(row, AllBut(|keys|, i), true, j);
  }

  /** delete_disabled_keys keeps those of disabled keys only. */
  lemma DeleteDisabledInfo(row: Row, js: JsonArray, j: nat)
    requires |NotAutoDisabled(row.status, |GetKeys(row.key, js)|)| < |GetKeys(row.key, js)|
    ensures var r, kept := Step(row, DeleteDisabledKeys, js), NotAutoDisabled(row.status, |GetKeys(row.key, js)|);
      var stays := j < |kept| && Effective(row.status, kept[j]) != ENABLED;
      && Entry(r.times, j) == (if stays then Entry(row.times, kept[j]) else None)
      && Entry(r.reasons, j) == (if stays then Entry(row.reasons, kept[j]) else None)
  {
    StepDeletes(row, js);
    MovedEntries(row, NotAutoDisabled(row.status, |GetKeys(row.key, js)|), false, j);
  }

  // ---------------------------------------------------------------- edits

  predicate GoodColumn(key: string) { GoodKeys(ReadList(key, '\n')) && key == Join(ReadList(key, '\n'), '\n') }

  /** The new column is good, and no time or reason is recorded for a position it does not have: those
      are kept, whereas statuses beyond it are dropped. */
  predicate EditFits(row: Row, text: string) {
    text == "" || (GoodColumn(text) && InRange(row.times, |ReadList(text, '\n')|) && InRange(row.reasons, |ReadList(text, '\n')|))
  }

  lemma EditWellFormedIff(row: Row, text: string, js: JsonArray)
    requires WellFormed(row)
    ensures WellFormed(Step(row, Edit(text), js)) <==> EditFits(row, text)
  {
    GoodRow(row, js);
    if text == "" { NothingBeyond(row.status, row.size); }
    if text != "" && GoodColumn(text) { EditStep(row, text, js); }
  }

  /** An edit on any row: the column is the text, or the old one when there is none, statuses beyond its
      keys go, and times and reasons stay; an append to an empty column is an edit. */
  lemma EditIs(row: Row, text: string, parts: seq<string>, js: JsonArray)
    ensures var r := Step(row, Edit(text), js);
      && r.key == (if text == "" then row.key else text) && r.size == CountKeys(r.key, js)
      && (forall i :: i in r.status <==> i in row.status && i < r.size)
      && (forall i :: i in r.status ==> r.status[i] == row.status[i])
      && r.times == row.times && r.reasons == row.reasons
    ensures row.key == "" ==> Step(row, Append(text, parts), js) == Step(row, Edit(text), js)
  {}

  lemma EditStep(row: Row, text: string, js: JsonArray)
    requires text != "" && GoodColumn(text)
    ensures var n := |ReadList(text, '\n')|;
            Step(row, Edit(text), js) == row.(key := text, size := n, status := Below(row.status, {}, n))
  {
    GoodKeysText(ReadList(text, '\n'));
  }

  /** Replacing the keys leaves what was known by position: each new key shows what the old one in its
      place showed, and those behind the old ones are enabled. */
  lemma EditView(row: Row, text: string, js: JsonArray)
    requires WellFormed(row) && text != "" && GoodColumn(text)
    ensures var r, keys := Step(row, Edit(text), js), ReadList(text, '\n');
      && |View(r)| == |keys|
      && forall i :: 0 <= i < |keys| ==>
           View(r)[i] == if i < row.size then View(row)[i].(key := keys[i]) else KeyView(keys[i], ENABLED, None, None)
  {
    EditStep(row, text, js);
    var r, keys := Step(row, Edit(text), js), ReadList(text, '\n');
    forall i | 0 <= i < |keys| ensures Effective(r.status, i) == Effective(row.status, i) {}
  }

  // ---------------------------------------------------------------- whole runs

  function Replay(row: Row, actions: seq<Action>, js: JsonArray): Row {
    if actions == [] then row else Step(Replay(row, actions[..|actions|-1], js), actions[|actions|-1], js)
  }

  /** What an action needs for the row to stay well formed: only new keys can spoil it. */
  predicate StepFits(row: Row, a: Action) {
    match a
    case Append(_, parts) => GoodParts(parts)
    case Edit(text) => EditFits(row, text)
    case _ => true
  }

  lemma StepWellFormedIff(row: Row, a: Action, js: JsonArray)
    requires WellFormed(row)
    ensures WellFormed(Step(row, a, js)) <==> StepFits(row, a)
  {
    match a
    case DisableKey(i) => if 0 <= i < row.size { DisableKeyView(row, i, js); }
    case EnableKey(i) => if 0 <= i < row.size { EnableKeyView(row, i, js); }
    case EnableAll => EnableAllView(row, js);
    case DisableAll => DisableAllView(row, js);
    case DeleteKey(i) =>
      GoodRow(row, js);
      if 0 <= i < row.size {
        AllButIs(row.size, i);
        if row.size > 1 { DeleteKeyView(row, i, js); }
      }
    case DeleteDisabledKeys => DeleteDisabledView(row, js);
    case Append(text, parts) => AppendWellFormedIff(row, text, parts, js);
    case Edit(text) => EditWellFormedIff(row, text, js);
  }

  /** Every action of a run fits the row it finds. */
  ghost predicate AllFit(row: Row, actions: seq<Action>, js: JsonArray) {
    forall i :: 0 <= i < |actions| ==> StepFits(Replay(row, actions[..i], js), actions[i])
  }

  /** Over every run of actions that fit, the size equals the key count and every index stays in range. */
  lemma {:induction false} RunsStayWellFormed(row: Row, actions: seq<Action>, js: JsonArray)
    requires WellFormed(row) && AllFit(row, actions, js)
    ensures WellFormed(Replay(row, actions, js))
    ensures Replay(row, actions, js).size == |GetKeys(Replay(row, actions, js).key, js)|
  {
    if actions != [] {
      var n := |actions| - 1;
      FitBefore(row, actions, n, js);
      RunsStayWellFormed(row, actions[..n], js);
      assert StepFits(Replay(row, actions[..n], js), actions[n]);
      StepWellFormedIff(Replay(row, actions[..n], js), actions[n], js);
    }
    GoodRow(Replay(row, actions, js), js);
  }

  lemma FitBefore(row: Row, actions: seq<Action>, k: nat, js: JsonArray)
    requires AllFit(row, actions, js) && k <= |actions|
    ensures AllFit(row, actions[..k], js)
  {
    forall i | 0 <= i < k ensures StepFits(Replay(row, actions[..k][..i], js), actions[..k][i]) {
      assert actions[..k][..i] == actions[..i];
    }
  }

  /** A run keeps the row well formed throughout if and only if every action of it fits. */
  lemma RunsStayWellFormedIff(row: Row, actions: seq<Action>, js: JsonArray)
    requires WellFormed(row)
    ensures (forall k :: 0 <= k <= |actions| ==> WellFormed(Replay(row, actions[..k], js))) <==> AllFit(row, actions, js)
  {
    if AllFit(row, actions, js) {
      forall k | 0 <= k <= |actions| ensures WellFormed(Replay(row, actions[..k], js)) {
        FitBefore(row, actions, k, js);
        RunsStayWellFormed(row, actions[..k], js);
      }
    }
    if forall k :: 0 <= k <= |actions| ==> WellFormed(Replay(row, actions[..k], js)) {
      forall i | 0 <= i < |actions| ensures StepFits(Replay(row, actions[..i], js), actions[i]) {
        assert actions[..i+1][..i] == actions[..i];
        assert WellFormed(Replay(row, actions[..i+1], js));
        StepWellFormedIff(Replay(row, actions[..i], js), actions[i], js);
      }
    }
  }

  /** The column is a JSON array without elements, which GetKeys reads as no key and channel.Update counts as lines. */
  predicate EmptyArray(key: string, js: JsonArray) {
    key != "" && LooksJson(key) && js(TrimSpace(key)) == Some([])
  }

  lemma {:induction false} SizeIsCount(row: Row, actions: seq<Action>, js: JsonArray)
    requires row.size == CountKeys(row.key, js)
    ensures var r := Replay(row, actions, js); r.size == CountKeys(r.key, js)
  {
    if actions != [] { SizeIsCount(row, actions[..|actions|-1], js); }
  }

  /** Over every run on every column, of whatever form, the recorded size is the number of keys if and
      only if the column is not an empty JSON array. */
  lemma SizeAgreesIff(row: Row, actions: seq<Action>, js: JsonArray)
    requires row.size == CountKeys(row.key, js)
    ensures var r := Replay(row, actions, js); r.size == |GetKeys(r.key, js)| <==> !EmptyArray(r.key, js)
  {
    SizeIsCount(row, actions, js);
  }

  // ---------------------------------------------------------------- the code's own form

  lemma MoveStatusSnoc(status: map<int, int>, kept: seq<int>, i: nat)
    ensures MoveStatus(status, kept + [i]) ==
            if Effective(status, i) != ENABLED then MoveStatus(status, kept)[|kept| := Effective(status, i)]
            else MoveStatus(status, kept)
  {}

  lemma MoveInfoSnoc<T>(info: map<int, T>, status: map<int, int>, kept: seq<int>, all: bool, i: nat)
    ensures MoveInfo(info, status, kept + [i], all) ==
            if i in info && (all || Effective(status, i) != ENABLED) then MoveInfo(info, status, kept, all)[|kept| := info[i]]
            else MoveInfo(info, status, kept, all)
  {}

  lemma SomeElement(s: set<int>)
    ensures s != {} ==> exists i :: i in s
  {
    if forall i :: i !in s { assert s == {}; }
  }

  lemma BelowStep(status: map<int, int>, unseen: set<int>, i: int, size: int)
    ensures Below(status, unseen - {i}, size) ==
            if i >= size then Below(status, unseen, size) - {i} else Below(status, unseen, size)
  {}

  lemma PickSnoc(keys: seq<string>, kept: seq<int>, i: nat)
    requires Positions(kept, |keys|) && i < |keys|
    ensures Positions(kept + [i], |keys|)
    ensures Pick(keys, kept + [i]) == Pick(keys, kept) + [keys[i]]
  {}

  lemma NewKeySnoc(s: seq<string>, x: string, known: seq<string>)
    ensures Filter(Uniq(s + [x]), NotIn(known)) ==
            Filter(Uniq(s), NotIn(known)) + (if x in known || x in s then [] else [x])
  {
    assert (s + [x])[..|s|] == s;
    UniqMembers(s, x);
    FilterConcat(Uniq(s), [x], NotIn(known));
    assert Filter([x], NotIn(known)) == (if x in known then [] else [x]) + Filter([x][1..], NotIn(known));
    assert Filter([x][1..], NotIn(known)) == [];
  }

  function EnabledCount(status: map<int, int>, n: nat): nat {
    if n == 0 then 0 else EnabledCount(status, n - 1) + (if Effective(status, n - 1) == ENABLED then 1 else 0)
  }

  lemma SeenStep(input: seq<string>, i: nat, known: seq<string>, seen: set<string>)
    requires i < |input| && forall k :: k in seen <==> k in known || k in input[..i]
    ensures input[..i+1] == input[..i] + [input[i]]
    ensures forall k :: k in seen + {input[i]} <==> k in known || k in input[..i+1]
  {
    assert input[..i+1] == input[..i] + [input[i]];
  }

  lemma {:induction false} FoundFirst(keys: seq<string>, key: string, i: nat)
    requires i < |keys| && keys[i] == key && key !in keys[..i]
    ensures IndexOf(keys, key) == Some(i)
  {
    if i > 0 {
      assert keys[0] == keys[..i][0];
      assert keys[1..][..i-1] == keys[..i][1..];
      FoundFirst(keys[1..], key, i - 1);
    }
  }

  function PartsOr(parts: Option<seq<string>>): seq<string> { if parts.Some? then parts.value else [] }

  /** A stored channel and the handlers that update it in place. */
  class Channel {
    var key: string
    var size: int
    var status: map<int, int>
    var times: map<int, int>
    var reasons: map<int, string>

    function State(): Row
      reads this
    {
      Row(key, size, status, times, reasons)
    }

    constructor (row: Row)
      ensures State() == row
    {
      key, size, status, times, reasons := row.key, row.size, row.status, row.times, row.reasons;
    }

    /** channel.Update. */
    method Save(next: Row, js: JsonArray)
      modifies this
      ensures State() == Persist(old(State()), next, js)
    {
      var keyText := if next.key != "" then next.key else key;
      var count := CountKeys(keyText, js);
      var left := DropBeyond(next.status, count);
      key, size, status, times, reasons := keyText, count, left, next.times, next.reasons;
    }

    /** The loop of channel.Update over the stored statuses. */
    static method DropBeyond(status: map<int, int>, count: int) returns (left: map<int, int>)
      ensures left == Below(status, {}, count)
    {
      left := status;
      var indices := status.Keys;
      while indices != {}
        invariant left == Below(status, indices, count)
        decreases indices
      {
        SomeElement(indices);
        var i :| i in indices;
        BelowStep(status, indices, i, count);
        if i >= count { left := left - {i}; }
        indices := indices - {i};
      }
    }

    method RemoveKey(keyIndex: int, js: JsonArray) returns (deleted: bool)
      modifies this
      ensures State() == Step(old(State()), DeleteKey(keyIndex), js)
      ensures deleted <==> 0 <= keyIndex < old(size) && AllBut(|GetKeys(old(key), js)|, keyIndex) != []
    {
      if keyIndex < 0 || keyIndex >= size { return false; }
      var next := KeepOthers(State(), GetKeys(key, js), keyIndex);
      if next.size == 0 { return false; }
      Save(next, js);
      return true;
    }

    static method KeepOthers(row: Row, keys: seq<string>, keyIndex: nat) returns (next: Row)
      ensures next == Reindexed(row, keys, AllBut(|keys|, keyIndex), true)
    {
      var remaining: seq<string>, newStatus: map<int, int> := [], map[];
      var newTimes: map<int, int>, newReasons: map<int, string> := map[], map[];
      ghost var kept: seq<int> := [];
      for i := 0 to |keys|
        invariant kept == AllBut(i, keyIndex)
        invariant remaining == Pick(keys, kept) && newStatus == MoveStatus(row.status, kept)
        invariant newTimes == MoveInfo(row.times, row.status, kept, true)
        invariant newReasons == MoveInfo(row.reasons, row.status, kept, true)
      {
        if i == keyIndex {
          assert kept == kept + [];
        } else {
          PickSnoc(keys, kept, i);
          MoveStatusSnoc(row.status, kept, i);
          MoveInfoSnoc(row.times, row.status, kept, true, i);
          MoveInfoSnoc(row.reasons, row.status, kept, true, i);
          if Effective(row.status, i) != ENABLED { newStatus := newStatus[|remaining| := Effective(row.status, i)]; }
          newTimes := Carry(row.times, i, newTimes, |remaining|);
          newReasons := Carry(row.reasons, i, newReasons, |remaining|);
          remaining := remaining + [keys[i]];
          kept := kept + [i];
        }
      }
      next := Row(Join(remaining, '\n'), |remaining|, newStatus, newTimes, newReasons);
    }

    method RemoveDisabledKeys(js: JsonArray) returns (deletedCount: int)
      modifies this
      ensures State() == Step(old(State()), DeleteDisabledKeys, js)
      ensures deletedCount == |GetKeys(old(key), js)| - |NotAutoDisabled(old(status), |GetKeys(old(key), js)|)|
    {
      deletedCount := RemoveDisabledFrom(GetKeys(key, js), js);
    }

    method RemoveDisabledFrom(keys: seq<string>, js: JsonArray) returns (deletedCount: int)
      modifies this
      ensures State() == Update(old(State()), LiveOnly(old(State()), keys), js)
      ensures deletedCount == |keys| - |NotAutoDisabled(old(status), |keys|)|
    {
      var next;
      next, deletedCount := KeepLive(State(), keys);
      if deletedCount != 0 { Save(next, js); }
    }

    /** Copies an entry to its new position when there is one. */
    static function Carry<T>(info: map<int, T>, i: int, target: map<int, T>, newIndex: int): map<int, T> {
      if i in info then target[newIndex := info[i]] else target
    }

    static method KeepLive(row: Row, keys: seq<string>) returns (next: Row, deletedCount: int)
      ensures next == Reindexed(row, keys, NotAutoDisabled(row.status, |keys|), false)
      ensures deletedCount == |keys| - |NotAutoDisabled(row.status, |keys|)|
    {
      var remaining: seq<string>, newStatus: map<int, int> := [], map[];
      var newTimes: map<int, int>, newReasons: map<int, string> := map[], map[];
      deletedCount := 0;
      ghost var kept: seq<int> := [];
      for i := 0 to |keys|
        invariant kept == NotAutoDisabled(row.status, i) && deletedCount == i - |kept|
        invariant remaining == Pick(keys, kept) && newStatus == MoveStatus(row.status, kept)
        invariant newTimes == MoveInfo(row.times, row.status, kept, false)
        invariant newReasons == MoveInfo(row.reasons, row.status, kept, false)
      {
        var st := Effective(row.status, i);
        if st == AUTO_DISABLED {
          deletedCount := deletedCount + 1;
          assert kept == kept + [];
        } else {
          PickSnoc(keys, kept, i);
          MoveStatusSnoc(row.status, kept, i);
          MoveInfoSnoc(row.times, row.status, kept, false, i);
          MoveInfoSnoc(row.reasons, row.status, kept, false, i);
          if st != ENABLED {
            newStatus := newStatus[|remaining| := st];
            newTimes := Carry(row.times, i, newTimes, |remaining|);
            newReasons := Carry(row.reasons, i, newReasons, |remaining|);
          }
          remaining := remaining + [keys[i]];
          kept := kept + [i];
        }
      }
      next := Row(Join(remaining, '\n'), |remaining|, newStatus, newTimes, newReasons);
    }

    /** handlerMultiKeyUpdate, for the key that was used. */
    method UpdateKeyStatus(usingKey: string, newStatus: int, reason: string, time: int, js: JsonArray)
      modifies this
      ensures State() == Reported(old(State()), usingKey, newStatus, reason, time, js)
    {
      var keyIndex := FindKey(GetKeys(key, js), usingKey);
      if keyIndex < 0 { return; }
      if newStatus == ENABLED {
        status := status - {keyIndex};
      } else {
        status := status[keyIndex := newStatus];
        reasons := reasons[keyIndex := reason];
        times := times[keyIndex := time];
      }
    }

    static method FindKey(keys: seq<string>, usingKey: string) returns (keyIndex: int)
      ensures if usingKey in keys then IndexOf(keys, usingKey) == Some(keyIndex) else keyIndex == -1
    {
      for i := 0 to |keys|
        invariant usingKey !in keys[..i]
      {
        if keys[i] == usingKey {
          FoundFirst(keys, usingKey, i);
          return i;
        }
      }
      return -1;
    }

    method DisableAllKeys(js: JsonArray) returns (disabledCount: nat)
      modifies this
      ensures State() == Step(old(State()), DisableAll, js)
      ensures disabledCount == EnabledCount(old(status), if old(size) < 0 then 0 else old(size))
    {
      var newStatus := status;
      disabledCount := 0;
      for i := 0 to if size < 0 then 0 else size
        invariant disabledCount == EnabledCount(status, i)
        invariant newStatus == DisabledUpTo(status, i) && State() == old(State())
        invariant disabledCount == 0 <==> newStatus == status
        invariant forall k :: k >= i ==> Effective(newStatus, k) == Effective(status, k)
        invariant forall k :: k in newStatus && newStatus[k] == ENABLED ==> k in status && status[k] == ENABLED
      {
        if Effective(newStatus, i) == ENABLED {
          assert newStatus[i := MANUAL_DISABLED] != status;
          newStatus := newStatus[i := MANUAL_DISABLED];
          disabledCount := disabledCount + 1;
        }
      }
      if disabledCount != 0 {
        Save(Row(key, size, newStatus, times, reasons), js);
      }
    }

    /** The append branch of UpdateChannel: a seen set grows beside the list of new keys. A Vertex array
        that cannot be read is refused, unless there is nothing to append to. */
    method AppendKeys(text: string, vertex: bool, vertexArray: JsonArray, js: JsonArray) returns (refused: bool)
      modifies this
      ensures refused <==> old(key) != "" && Parts(text, vertex, vertexArray).None?
      ensures State() == if refused then old(State())
                         else Step(old(State()), Append(text, PartsOr(Parts(text, vertex, vertexArray))), js)
    {
      var merged := text;
      var parts := Parts(text, vertex, vertexArray);
      if key != "" {
        if parts.None? { return true; }
        var existing := AppendBase(key, js);
        var added := CollectNewKeys(existing, parts.value);
        merged := Join(existing + added, '\n');
        WrittenAppend(State(), text, parts.value, existing, js);
      }
      Save(Row(merged, size, status, times, reasons), js);
      return false;
    }

    static method CollectNewKeys(existing: seq<string>, parts: seq<string>) returns (added: seq<string>)
      ensures added == NewKeys(existing, parts)
    {
      var input := Cleaned(parts);
      ghost var known := Cleaned(existing);
      var seen := set k | k in Cleaned(existing);
      added := [];
      for i := 0 to |input|
        invariant added == Filter(Uniq(input[..i]), NotIn(known))
        invariant forall k :: k in seen <==> k in known || k in input[..i]
      {
        SeenStep(input, i, known, seen);
        NewKeySnoc(input[..i], input[i], known);
        if input[i] !in seen {
          seen := seen + {input[i]};
          added := added + [input[i]];
        } else {
          assert seen + {input[i]} == seen;
        }
      }
      assert input[..|input|] == input;
    }
  }
}
