/**
 Multi-key channels whose key column is in whatever form GetKeys accepts (model/channel.go): lines
 of text, possibly blank, or a JSON array, whose elements are kept as their own JSON text. The
 deleting and appending actions of controller/channel.go write every column back as lines, so
 whether the keys survive depends on how those lines read.
 */
module KeyColumns {
  import opened ModelNames
  import opened MultiKey
  import opened Options
  import opened Text

  /** The column is read as a JSON array. */
  predicate Parses(key: string, js: JsonArray) { key != "" && LooksJson(key) && js(TrimSpace(key)).Some? }

  /** These keys, written as lines, are read as these keys again: the text is no JSON array, no key
      contains a line break, and the first and the last are not blank; or it is one, of these keys. */
  predicate ReadsBack(keys: seq<string>, js: JsonArray)
    requires keys != []
  {
    var text := Join(keys, '\n');
    if Parses(text, js) then js(TrimSpace(text)).value == keys
    else AllFree(keys, '\n') && keys[0] != "" && keys[|keys|-1] != ""
  }

  lemma ReadsBackIff(keys: seq<string>, js: JsonArray)
    requires keys != []
    ensures ReadsBack(keys, js) <==> GetKeys(Join(keys, '\n'), js) == keys
  {
    ReadOfJoinIff(keys, '\n');
  }

  // ---------------------------------------------------------------- deletions

  /** The recorded size is the number of keys and all positions are in range. */
  predicate Sound(row: Row, js: JsonArray) {
    && row.key != "" && GetKeys(row.key, js) != [] && row.size == |GetKeys(row.key, js)|
    && InRange(row.status, row.size) && InRange(row.times, row.size) && InRange(row.reasons, row.size)
  }

  /** What an administrator sees, given how the column is read. */
  function Seen(row: Row, keys: seq<string>): seq<KeyView> {
    seq(|keys|, i requires 0 <= i < |keys| => ViewAt(row, keys, i))
  }

  function Picked(view: seq<KeyView>, kept: seq<int>): seq<KeyView>
    requires Positions(kept, |view|)
  {
    seq(|kept|, j requires 0 <= j < |kept| => view[kept[j]])
  }

  lemma SeenMoved(row: Row, keys: seq<string>, kept: seq<int>, all: bool)
    requires Positions(kept, |keys|)
    ensures Seen(Reindexed(row, keys, kept, all), Pick(keys, kept)) == Picked(Seen(row, keys), kept)
  {
    var next, left := Reindexed(row, keys, kept, all), Pick(keys, kept);
    forall j | 0 <= j < |kept| ensures ViewAt(next, left, j) == ViewAt(row, keys, kept[j]) {}
  }

  lemma CountsKeys(key: string, js: JsonArray)
    requires GetKeys(key, js) != []
    ensures CountKeys(key, js) == |GetKeys(key, js)|
  {}

  lemma MovedInRange(row: Row, keys: seq<string>, kept: seq<int>, all: bool)
    requires Positions(kept, |keys|)
    ensures var next := Reindexed(row, keys, kept, all);
            InRange(next.status, |kept|) && InRange(next.times, |kept|) && InRange(next.reasons, |kept|)
  {}

  /** When the kept keys read back, saving them stores exactly them, re-indexed. */
  lemma KeptReadBack(row: Row, keys: seq<string>, kept: seq<int>, all: bool, js: JsonArray)
    requires Positions(kept, |keys|) && kept != [] && ReadsBack(Pick(keys, kept), js)
    ensures var next := Reindexed(row, keys, kept, all);
            Persist(row, next, js) == next && Sound(next, js) && GetKeys(next.key, js) == Pick(keys, kept)
  {
    var next, left := Reindexed(row, keys, kept, all), Pick(keys, kept);
    ReadsBackIff(left, js);
    CountsKeys(next.key, js);
    MovedInRange(row, keys, kept, all);
    NothingBeyond(next.status, |kept|);
  }

  /** When they do not, the column reads as something else. */
  lemma KeptReadOtherwise(row: Row, keys: seq<string>, kept: seq<int>, all: bool, js: JsonArray)
    requires keys == GetKeys(row.key, js) && Positions(kept, |keys|) && 0 < |kept| < |keys| && !ReadsBack(Pick(keys, kept), js)
    ensures GetKeys(Persist(row, Reindexed(row, keys, kept, all), js).key, js) != Pick(keys, kept)
  {
    ReadsBackIff(Pick(keys, kept), js);
  }

  lemma SeenKeys(row: Row, keys: seq<string>, row': Row, keys': seq<string>)
    requires Seen(row, keys) == Seen(row', keys')
    ensures keys == keys'
  {
    forall i | 0 <= i < |keys| ensures |keys'| == |keys| && keys[i] == keys'[i] {
      assert Seen(row, keys)[i] == Seen(row', keys')[i];
    }
    assert |Seen(row, keys)| == |Seen(row', keys')|;
  }

  /** Writing back some of the keys shows exactly what those keys showed, in that order, if and only
      if they read back. */
  lemma ReindexIff(row: Row, keys: seq<string>, kept: seq<int>, all: bool, js: JsonArray)
    requires keys == GetKeys(row.key, js) && Positions(kept, |keys|) && 0 < |kept| < |keys|
    ensures var r := Persist(row, Reindexed(row, keys, kept, all), js);
            Sound(r, js) && Seen(r, GetKeys(r.key, js)) == Picked(Seen(row, keys), kept) <==> ReadsBack(Pick(keys, kept), js)
  {
    var r := Persist(row, Reindexed(row, keys, kept, all), js);
    SeenMoved(row, keys, kept, all);
    if ReadsBack(Pick(keys, kept), js) {
      KeptReadBack(row, keys, kept, all, js);
    } else {
      KeptReadOtherwise(row, keys, kept, all, js);
      if Seen(r, GetKeys(r.key, js)) == Picked(Seen(row, keys), kept) {
        SeenKeys(r, GetKeys(r.key, js), Reindexed(row, keys, kept, all), Pick(keys, kept));
      }
    }
  }

  function Shown(row: Row, js: JsonArray): seq<KeyView> { Seen(row, GetKeys(row.key, js)) }

  lemma DeleteKeyWrites(row: Row, keys: seq<string>, i: nat, js: JsonArray)
    requires keys == GetKeys(row.key, js) && i < row.size == |keys| && |keys| > 1
    ensures 0 < |AllBut(|keys|, i)| < |keys|
    ensures Step(row, DeleteKey(i), js) == Persist(row, Reindexed(row, keys, AllBut(|keys|, i), true), js)
  {
    AllButIs(|keys|, i);
    WrittenDelete(row, keys, i, js);
  }

  /** delete_key on any column removes that key and nothing else that an administrator sees, if and
      only if the other keys read back. */
  lemma DeleteKeyIff(row: Row, i: nat, js: JsonArray)
    requires Sound(row, js) && i < row.size && row.size > 1
    ensures AllBut(row.size, i) != []
    ensures var r := Step(row, DeleteKey(i), js);
            Sound(r, js) && Shown(r, js) == Picked(Shown(row, js), AllBut(row.size, i))
            <==> ReadsBack(Pick(GetKeys(row.key, js), AllBut(row.size, i)), js)
  {
    DeleteKeyWrites(row, GetKeys(row.key, js), i, js);
    ReindexIff(row, GetKeys(row.key, js), AllBut(row.size, i), true, js);
  }

  lemma SurvivingPicked(row: Row, keys: seq<string>)
    ensures Surviving(Seen(row, keys)) == Picked(Seen(row, keys), NotAutoDisabled(row.status, |keys|))
  {
    SurvivingIs(row, Seen(row, keys), |keys|);
  }

  lemma AllPicked(row: Row, keys: seq<string>, kept: seq<int>)
    requires kept == NotAutoDisabled(row.status, |keys|) && |kept| == |keys|
    ensures Picked(Seen(row, keys), kept) == Seen(row, keys)
  {
    KeptAll(row.status, |keys|);
  }

  /** With nothing left to write, the column stays as it is. */
  lemma NothingLeft(row: Row, keys: seq<string>, js: JsonArray)
    requires keys == GetKeys(row.key, js)
    ensures Persist(row, Reindexed(row, keys, [], false), js).key == row.key
  {
    assert Pick(keys, []) == [];
  }

  predicate Deletes(row: Row, r: Row, js: JsonArray) { Sound(r, js) && Shown(r, js) == Surviving(Shown(row, js)) }

  lemma LiveOnlyIff(row: Row, keys: seq<string>, kept: seq<int>, js: JsonArray)
    requires Sound(row, js) && keys == GetKeys(row.key, js) && kept == NotAutoDisabled(row.status, |keys|)
    ensures Deletes(row, Update(row, LiveOnly(row, keys), js), js)
            <==> |kept| == |keys| || (kept != [] && ReadsBack(Pick(keys, kept), js))
  {
    SurvivingPicked(row, keys);
    KeptAll(row.status, |keys|);
    if |kept| == |keys| {
      AllPicked(row, keys, kept);
    } else if kept != [] {
      ReindexIff(row, keys, kept, false, js);
    } else {
      NothingLeft(row, keys, js);
    }
  }

  /** delete_disabled_keys on any column leaves exactly the keys that are not auto-disabled, as they
      were, if and only if there are none to delete, or some to leave and those read back. */
  lemma DeleteDisabledIff(row: Row, js: JsonArray)
    requires Sound(row, js)
    ensures var keys := GetKeys(row.key, js); var kept := NotAutoDisabled(row.status, |keys|);
            Deletes(row, Step(row, DeleteDisabledKeys, js), js)
            <==> |kept| == |keys| || (kept != [] && ReadsBack(Pick(keys, kept), js))
  {
    var keys := GetKeys(row.key, js);
    StepDeletes(row, js);
    LiveOnlyIff(row, keys, NotAutoDisabled(row.status, |keys|), js);
  }

  // ---------------------------------------------------------------- actions that leave the keys

  /** Saving other statuses, times and reasons for the same column stores exactly them. */
  lemma SavedAlone(row: Row, next: Row, js: JsonArray)
    requires Sound(row, js) && next.key == row.key && next.size == row.size && InRange(next.status, row.size)
    requires InRange(next.times, row.size) && InRange(next.reasons, row.size)
    ensures Persist(row, next, js) == next && Sound(next, js)
  {
    CountsKeys(row.key, js);
    NothingBeyond(next.status, row.size);
  }

  /** On any column, JSON arrays included: enable_key and enable_all_keys show the keys enabled, without
      time and reason, disable_key shows one key manually disabled with what was recorded for it. */
  lemma SimpleActions(row: Row, i: nat, js: JsonArray)
    requires Sound(row, js) && i < row.size
    ensures var keys, shown := GetKeys(row.key, js), Shown(row, js);
      && Shown(Step(row, EnableKey(i), js), js) == shown[i := KeyView(keys[i], ENABLED, None, None)]
      && Shown(Step(row, DisableKey(i), js), js) == shown[i := KeyView(keys[i], MANUAL_DISABLED, Entry(row.times, i), Entry(row.reasons, i))]
      && Shown(Step(row, EnableAll, js), js) == AllEnabled(shown)
  {
    EnableShown(row, i, js);
    DisableShown(row, i, js);
    SavedAlone(row, row.(status := map[], times := map[], reasons := map[]), js);
  }

  lemma EnableShown(row: Row, i: nat, js: JsonArray)
    requires Sound(row, js) && i < row.size
    ensures Shown(Step(row, EnableKey(i), js), js) == Shown(row, js)[i := KeyView(GetKeys(row.key, js)[i], ENABLED, None, None)]
  {
    SavedAlone(row, row.(status := row.status - {i}, times := row.times - {i}, reasons := row.reasons - {i}), js);
  }

  lemma DisableShown(row: Row, i: nat, js: JsonArray)
    requires Sound(row, js) && i < row.size
    ensures Shown(Step(row, DisableKey(i), js), js) ==
            Shown(row, js)[i := KeyView(GetKeys(row.key, js)[i], MANUAL_DISABLED, Entry(row.times, i), Entry(row.reasons, i))]
  {
    SavedAlone(row, row.(status := row.status[i := MANUAL_DISABLED]), js);
  }

  /** And disable_all_keys shows exactly the enabled ones so. */
  lemma DisableAllShown(row: Row, js: JsonArray)
    requires Sound(row, js)
    ensures var keys, shown, after := GetKeys(row.key, js), Shown(row, js), Shown(Step(row, DisableAll, js), js);
      && |after| == |shown|
      && forall i :: 0 <= i < |shown| ==>
           after[i] == if shown[i].status == ENABLED
                       then KeyView(keys[i], MANUAL_DISABLED, Entry(row.times, i), Entry(row.reasons, i)) else shown[i]
  {
    DisabledUpToIs(row.status, row.size, row.size);
    SavedAlone(row, row.(status := DisabledUpTo(row.status, row.size)), js);
  }

  // ---------------------------------------------------------------- appends

  /** What an append writes. */
  function Appended(row: Row, parts: seq<string>, js: JsonArray): seq<string> {
    AppendBase(row.key, js) + NewKeys(AppendBase(row.key, js), parts)
  }

  /** When an append keeps the keys there were. */
  predicate AppendKeeps(row: Row, parts: seq<string>, js: JsonArray) {
    var before, existing := GetKeys(row.key, js), AppendBase(row.key, js);
    var written := Join(Appended(row, parts, js), '\n');
    // nothing to write: the column stays
    if written == "" then true
    // what is written is a JSON array by itself
    else if Parses(written, js) then before <= js(TrimSpace(written)).value
    // a JSON array is taken apart into lines
    else if Parses(row.key, js) then AllFree(existing, '\n')
    // text that only looks like JSON is replaced by the new keys, line by line
    else if LooksJson(row.key) then before <= Pieces(NewKeys(existing, parts), '\n')
    // lines stay, unless all there is are line breaks
    else TrimBy(row.key, Only('\n')) != ""
  }

  lemma AppendWrites(row: Row, text: string, parts: seq<string>, js: JsonArray)
    requires row.key != ""
    ensures var written := Join(Appended(row, parts, js), '\n');
            Step(row, Append(text, parts), js).key == if written != "" then written else row.key
  {
    WrittenAppend(row, text, parts, AppendBase(row.key, js), js);
  }

  /** Whole lines with trimmed keys behind them read back as those lines and the lines of those keys. */
  lemma ReadInFront(existing: seq<string>, added: seq<string>)
    requires AllFree(existing, '\n') && Canonical(added) && existing + added != []
    requires existing != [] ==> existing[0] != "" && existing[|existing|-1] != ""
    ensures ReadList(Join(existing + added, '\n'), '\n') == existing + Pieces(added, '\n')
  {
    var all := existing + added;
    var text := Join(all, '\n');
    assert IsSpace('\n');
    assert all[0] == if existing != [] then existing[0] else added[0];
    assert all[|all|-1] == if added != [] then added[|added|-1] else existing[|existing|-1];
    JoinEnds(all, '\n');
    assert Trimmed(text, Only('\n'));
    TrimmedIsFixed(text, Only('\n'));
    SplitOfJoinIsPieces(all, '\n');
    PiecesConcat(existing, added, '\n');
    PiecesIff(existing, '\n');
  }

  /** Keys with a line break in one of them are not read back as lines. */
  lemma BrokenKeys(keys: seq<string>, text: string)
    requires text != "" && !AllFree(keys, '\n')
    ensures !(keys <= ReadList(text, '\n'))
  {
    SplitIsFree(TrimBy(text, Only('\n')), '\n');
    var i :| 0 <= i < |keys| && '\n' in keys[i];
  }

  /** A JSON array, of elements that are not empty, taken apart into lines. */
  lemma JsonKeptIff(existing: seq<string>, added: seq<string>)
    requires NonEmptyParts(existing) && Canonical(added) && Join(existing + added, '\n') != ""
    ensures existing <= ReadList(Join(existing + added, '\n'), '\n') <==> AllFree(existing, '\n')
  {
    if AllFree(existing, '\n') {
      ReadInFront(existing, added);
    } else {
      BrokenKeys(existing, Join(existing + added, '\n'));
    }
  }

  lemma LinesKept(key: string, added: seq<string>)
    requires TrimBy(key, Only('\n')) != "" && Canonical(added)
    ensures var existing := Split(TrimBy(key, Only('\n')), '\n'); existing <= ReadList(Join(existing + added, '\n'), '\n')
  {
    TrimIsTrimmed(key, Only('\n'));
    SplitEnds(TrimBy(key, Only('\n')), '\n');
    SplitIsFree(TrimBy(key, Only('\n')), '\n');
    ReadInFront(Split(TrimBy(key, Only('\n')), '\n'), added);
  }

  /** The one blank entry of a column of line breaks goes. */
  lemma BlankLost(added: seq<string>)
    requires added != [] && Canonical(added)
    ensures Join([""] + added, '\n') != "" && !([""] <= ReadList(Join([""] + added, '\n'), '\n'))
  {
    var rest, all := Join(added, '\n'), [""] + added;
    assert all[1..] == added && Join(all, '\n') == ['\n'] + rest;
    assert IsSpace('\n');
    JoinEnds(added, '\n');
    assert Trimmed(rest, Only('\n'));
    TrimmedIsFixed(rest, Only('\n'));
    assert (['\n'] + rest)[1..] == rest;
    assert TrimLeft(rest, Only('\n')) == rest;
    SplitEnds(rest, '\n');
  }

  lemma TextKeptIff(key: string, existing: seq<string>, added: seq<string>)
    requires key != "" && existing == Split(TrimBy(key, Only('\n')), '\n') && Canonical(added)
    requires Join(existing + added, '\n') != ""
    ensures existing <= ReadList(Join(existing + added, '\n'), '\n') <==> TrimBy(key, Only('\n')) != ""
  {
    if TrimBy(key, Only('\n')) != "" {
      LinesKept(key, added);
    } else {
      assert existing == [""];
      assert added == [] ==> existing + added == [""];
      if added != [] { BlankLost(added); }
    }
  }

  /** An append to any column keeps the keys there were, in front and in order, if and only if
      AppendKeeps says so. Elements of a JSON array are never empty text. */
  lemma AppendKeepsIff(row: Row, text: string, parts: seq<string>, js: JsonArray)
    requires row.key != "" && (Parses(row.key, js) ==> NonEmptyParts(js(TrimSpace(row.key)).value))
    ensures GetKeys(row.key, js) <= GetKeys(Step(row, Append(text, parts), js).key, js) <==> AppendKeeps(row, parts, js)
  {
    AppendWrites(row, text, parts, js);
    var existing := AppendBase(row.key, js);
    var added := NewKeys(existing, parts);
    var written := Join(existing + added, '\n');
    NewKeysFacts(existing, parts);
    if written != "" && !Parses(written, js) {
      if Parses(row.key, js) {
        JsonKeptIff(existing, added);
      } else if LooksJson(row.key) {
        assert existing + added == added;
        ReadInFront(existing, added);
      } else {
        TextKeptIff(row.key, existing, added);
      }
    }
  }
}
