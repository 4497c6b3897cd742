/**
 Reconciling a channel's model list with what its upstream offers
 (controller/channel_upstream_update.go): detection, auto-sync and the apply step.

 Regular-expression matching is the parameter `rx(pattern, name)`; a pattern that does not
 compile matches nothing. What the upstream answered is a parameter as well.
 */
module UpstreamSync {
  import opened ModelNames
  import opened Options
  import opened Text

  type Regex = (string, string) -> bool

  /** The columns of a channel row that reconciliation reads and writes. */
  datatype Row = Row(models: string, ignored: seq<string>, detected: seq<string>, removed: seq<string>,
                     lastCheck: int, autoSync: bool)

  const RegexPrefix := "regex:"

  /** channel.GetModels followed by normalizeModelNames. */
  function LocalModels(models: string): seq<string> { Normalize(ReadList(models, ',')) }

  predicate HidesName(entry: string, name: string, rx: Regex) {
    if RegexPrefix <= entry then rx(TrimSpace(entry[|RegexPrefix|..]), name) else entry == name
  }

  predicate Hidden(ignored: seq<string>, name: string, rx: Regex) {
    exists i :: 0 <= i < |ignored| && HidesName(ignored[i], name, rx)
  }

  /** Whether an upstream model is worth offering: not served already, not a redirect target, not ignored. */
  predicate Offered(local: seq<string>, ignored: seq<string>, mapping: map<string, string>, rx: Regex, name: string) {
    name !in local && name !in mapping.Values && !Hidden(ignored, name, rx)
  }

  /** Whether a local model has gone: not offered upstream and not the source of a redirect. */
  predicate Stale(upstream: seq<string>, mapping: map<string, string>, name: string) {
    name !in mapping.Keys && name !in upstream
  }

  function IsOffered(local: seq<string>, ignored: seq<string>, mapping: map<string, string>, rx: Regex): string -> bool {
    name => Offered(local, ignored, mapping, rx, name)
  }

  function IsStale(upstream: seq<string>, mapping: map<string, string>): string -> bool {
    name => Stale(upstream, mapping, name)
  }

  function PendingAdds(row: Row, upstream: seq<string>, mapping: map<string, string>, rx: Regex): seq<string> {
    Normalize(Filter(Normalize(upstream), IsOffered(LocalModels(row.models), Normalize(row.ignored), mapping, rx)))
  }

  function PendingRemoves(row: Row, upstream: seq<string>, mapping: map<string, string>): seq<string> {
    Normalize(Filter(LocalModels(row.models), IsStale(Normalize(upstream), mapping)))
  }

  datatype Checked = Checked(row: Row, modelsChanged: bool, autoAdded: int, failed: bool)

  datatype SyncOutcome = SyncOutcome(row: Row, added: int)

  /** Files the detected additions: into the model list when syncing, as pending otherwise. */
  function Synced(row: Row, adds: seq<string>, sync: bool): SyncOutcome {
    if !sync then SyncOutcome(row.(detected := adds), 0)
    else
      var origin, merged := LocalModels(row.models), Merge(LocalModels(row.models), adds);
      if |merged| > |origin|
      then SyncOutcome(row.(detected := [], models := Join(merged, ',')), |merged| - |origin|)
      else SyncOutcome(row.(detected := []), 0)
  }

  /** checkAndPersistChannelUpstreamModelUpdates: `upstream` is None when the fetch fails,
      `saved` tells whether the final database update succeeds. */
  function Check(row: Row, upstream: Option<seq<string>>, mapping: map<string, string>, rx: Regex,
                 force: bool, allowAutoApply: bool, now: int, minInterval: int, saved: bool): Checked
  {
    if !force && row.lastCheck > 0 && now - row.lastCheck < minInterval then Checked(row, false, 0, false)
    else if upstream.None? then Checked(if saved then row.(lastCheck := now) else row, false, 0, true)
    else
      var adds := PendingAdds(row, upstream.value, mapping, rx);
      var found := row.(removed := PendingRemoves(row, upstream.value, mapping), lastCheck := now);
      var next := Synced(found, adds, allowAutoApply && row.autoSync && adds != []);
      Checked(if saved then next.row else row, saved && next.added > 0, next.added, !saved)
  }

  datatype Applied = Applied(row: Row, added: seq<string>, removed: seq<string>, remaining: seq<string>,
                             remainingRemove: seq<string>, modelsChanged: bool)

  /** applyChannelUpstreamModelUpdates with a successful database update. */
  function Apply(row: Row, addInput: seq<string>, ignoreInput: seq<string>, removeInput: seq<string>, now: int): Applied {
    var pendingAdd, pendingRemove := Normalize(row.detected), Normalize(row.removed);
    var add := Intersect(addInput, pendingAdd);
    var ignore := Intersect(ignoreInput, pendingAdd);
    var remove := Subtract(Intersect(removeInput, pendingRemove), add);
    var origin := LocalModels(row.models);
    var next := ApplySelected(origin, add, remove);
    var ignored := Merge(row.ignored, ignore);
    var remaining, remainingRemove := Subtract(pendingAdd, add + ignore), Subtract(pendingRemove, remove);
    Applied(row.(models := if origin != next then Join(next, ',') else row.models,
                 ignored := if add != [] then Subtract(ignored, add) else ignored,
                 detected := remaining, removed := remainingRemove, lastCheck := now),
            add, remove, remaining, remainingRemove, origin != next)
  }

  /** ApplyAll selects everything that is pending and ignores nothing. */
  function ApplyAll(row: Row, now: int): Row {
    Apply(row, Normalize(row.detected), [], Normalize(row.removed), now).row
  }

  // ---------------------------------------------------------------- what detection finds

  lemma PendingAddsFacts(row: Row, upstream: seq<string>, mapping: map<string, string>, rx: Regex)
    ensures Canonical(PendingAdds(row, upstream, mapping, rx))
    ensures forall x :: x in PendingAdds(row, upstream, mapping, rx) <==>
              x in Normalize(upstream) && Offered(LocalModels(row.models), Normalize(row.ignored), mapping, rx, x)
    ensures Follows(PendingAdds(row, upstream, mapping, rx), Normalize(upstream))
  {
    var keep := IsOffered(LocalModels(row.models), Normalize(row.ignored), mapping, rx);
    NormalizeCanonical(upstream);
    FilterFollows(Normalize(upstream), keep);
    FilterCanonical(Normalize(upstream), keep);
    NormalizeFixes(Filter(Normalize(upstream), keep));
    forall x ensures x in PendingAdds(row, upstream, mapping, rx) <==>
               x in Normalize(upstream) && Offered(LocalModels(row.models), Normalize(row.ignored), mapping, rx, x)
    {
      FilterMembers(Normalize(upstream), keep, x);
    }
  }

  /** In plain terms, a name is offered if it is not served, not what a served name is redirected to, and
      no entry of the ignore list is this name or, behind "regex:", a pattern that matches it; a served
      name is stale if it is not redirected and the upstream no longer has it. */
  lemma OfferedIff(local: seq<string>, ignored: seq<string>, upstream: seq<string>, mapping: map<string, string>, rx: Regex, name: string)
    ensures Offered(local, ignored, mapping, rx, name) <==>
      && (forall i :: 0 <= i < |local| ==> local[i] != name)
      && (forall k :: k in mapping ==> mapping[k] != name)
      && (forall i :: 0 <= i < |ignored| ==>
            if |ignored[i]| >= 6 && ignored[i][..6] == "regex:" then !rx(TrimSpace(ignored[i][6..]), name) else ignored[i] != name)
    ensures Stale(upstream, mapping, name) <==> name !in mapping && forall i :: 0 <= i < |upstream| ==> upstream[i] != name
  {
    forall i | 0 <= i < |ignored|
      ensures HidesName(ignored[i], name, rx) <==>
              if |ignored[i]| >= 6 && ignored[i][..6] == "regex:" then rx(TrimSpace(ignored[i][6..]), name) else ignored[i] == name
    {
      assert RegexPrefix <= ignored[i] <==> |ignored[i]| >= 6 && ignored[i][..6] == "regex:";
    }
    if k :| k in mapping && mapping[k] == name { assert name in mapping.Values; }
  }

  lemma PendingRemovesFacts(row: Row, upstream: seq<string>, mapping: map<string, string>)
    ensures PendingRemoves(row, upstream, mapping) == Filter(LocalModels(row.models), IsStale(Normalize(upstream), mapping))
    ensures Canonical(PendingRemoves(row, upstream, mapping))
    ensures forall x :: x in PendingRemoves(row, upstream, mapping) <==>
              x in LocalModels(row.models) && Stale(Normalize(upstream), mapping, x)
    ensures Follows(PendingRemoves(row, upstream, mapping), LocalModels(row.models))
  {
    var keep := IsStale(Normalize(upstream), mapping);
    NormalizeCanonical(ReadList(row.models, ','));
    FilterFollows(LocalModels(row.models), keep);
    FilterCanonical(LocalModels(row.models), keep);
    NormalizeFixes(Filter(LocalModels(row.models), keep));
    forall x ensures x in PendingRemoves(row, upstream, mapping) <==>
               x in LocalModels(row.models) && Stale(Normalize(upstream), mapping, x)
    {
      FilterMembers(LocalModels(row.models), keep, x);
    }
  }

  /** Detection offers and withdraws different names. */
  lemma AddsAndRemovesDisjoint(row: Row, upstream: seq<string>, mapping: map<string, string>, rx: Regex, x: string)
    ensures x !in PendingAdds(row, upstream, mapping, rx) || x !in PendingRemoves(row, upstream, mapping)
  {
    PendingAddsFacts(row, upstream, mapping, rx);
    PendingRemovesFacts(row, upstream, mapping);
  }

  // ---------------------------------------------------------------- storing the list as text

  /** Names read from the models column never contain a comma. */
  lemma LocalIsFree(models: string)
    ensures Canonical(LocalModels(models)) && AllFree(LocalModels(models), ',')
  {
    var parts := ReadList(models, ',');
    NormalizeCanonical(parts);
    if models != [] { SplitIsFree(TrimBy(models, Only(',')), ','); }
    forall i | 0 <= i < |LocalModels(models)| ensures ',' !in LocalModels(models)[i] {
      var name := LocalModels(models)[i];
      NormalizeMembers(parts, name);
      var k :| 0 <= k < |parts| && TrimSpace(parts[k]) == name;
      if ',' in name { TrimKeepsChars(parts[k], IsSpace, ','); }
    }
  }

  lemma StoredListReadsBack(names: seq<string>)
    requires Canonical(names) && AllFree(names, ',')
    ensures LocalModels(Join(names, ',')) == names
  {
    ReadOfJoin(names, ',');
    NormalizeFixes(names);
  }

  // ---------------------------------------------------------------- convergence

  predicate CommaFree(names: seq<string>) { AllFree(names, ',') }

  /** Adding a name takes it off the ignore list; this says no other name was hidden only by it,
      which matters when the name itself is written like a pattern. */
  predicate StillHidden(row: Row, upstream: seq<string>, mapping: map<string, string>, rx: Regex) {
    var adds := PendingAdds(row, upstream, mapping, rx);
    forall x :: x in Normalize(upstream) && x !in LocalModels(row.models) && x !in mapping.Values
                && Hidden(Normalize(row.ignored), x, rx)
                ==> Hidden(Filter(Normalize(row.ignored), NotIn(adds)), x, rx)
  }

  /** The row after a forced detection and the application of everything it found. */
  function Reconciled(row: Row, upstream: seq<string>, mapping: map<string, string>, rx: Regex, t0: int, t1: int): Row {
    ApplyAll(Check(row, Some(upstream), mapping, rx, true, false, t0, 0, true).row, t1)
  }

  /** What Reconciled stores, in terms of the detected names. */
  lemma ReconciledRow(row: Row, upstream: seq<string>, mapping: map<string, string>, rx: Regex, t0: int, t1: int)
    ensures var adds := PendingAdds(row, upstream, mapping, rx);
            var removes := PendingRemoves(row, upstream, mapping);
            var next := ApplySelected(LocalModels(row.models), adds, removes);
            var row' := Reconciled(row, upstream, mapping, rx, t0, t1);
            && row'.models == (if LocalModels(row.models) != next then Join(next, ',') else row.models)
            && row'.ignored == Filter(Normalize(row.ignored), NotIn(adds))
  {
    var adds, removes := PendingAdds(row, upstream, mapping, rx), PendingRemoves(row, upstream, mapping);
    PendingAddsFacts(row, upstream, mapping, rx);
    PendingRemovesFacts(row, upstream, mapping);
    NormalizeFixes(adds);
    NormalizeFixes(removes);
    AllWithin(adds, adds);
    AllWithin(removes, removes);
    assert Intersect(adds, adds) == adds;
    assert Intersect(removes, removes) == removes;
    forall x | x in removes ensures x !in adds { AddsAndRemovesDisjoint(row, upstream, mapping, rx, x); }
    AllOutside(removes, adds);
    assert Subtract(removes, adds) == removes;
    NormalizeCanonical(row.ignored);
    NormalizeFixes(Normalize(row.ignored));
    assert Normalize([]) == [];
    assert Intersect([], adds) == [];
    assert Merge(row.ignored, []) == Normalize(row.ignored);
    if adds == [] { AllOutside(Normalize(row.ignored), []); }
  }

  lemma {:induction false} AllWithin(s: seq<string>, names: seq<string>)
    requires forall x :: x in s ==> x in names
    ensures Filter(s, IsIn(names)) == s
  {
    if s != [] { AllWithin(s[1..], names); }
  }

  lemma {:induction false} AllOutside(s: seq<string>, names: seq<string>)
    requires forall x :: x in s ==> x !in names
    ensures Filter(s, NotIn(names)) == s
  {
    if s != [] { AllOutside(s[1..], names); }
  }

  /** With comma-free names the stored list reads back as exactly the applied one. */
  lemma ReconciledModels(row: Row, upstream: seq<string>, mapping: map<string, string>, rx: Regex, t0: int, t1: int)
    requires CommaFree(PendingAdds(row, upstream, mapping, rx))
    ensures LocalModels(Reconciled(row, upstream, mapping, rx, t0, t1).models) ==
            ApplySelected(LocalModels(row.models), PendingAdds(row, upstream, mapping, rx), PendingRemoves(row, upstream, mapping))
  {
    var local, adds := LocalModels(row.models), PendingAdds(row, upstream, mapping, rx);
    var removes := PendingRemoves(row, upstream, mapping);
    var next := ApplySelected(local, adds, removes);
    ReconciledRow(row, upstream, mapping, rx, t0, t1);
    PendingAddsFacts(row, upstream, mapping, rx);
    LocalIsFree(row.models);
    NormalizeFixes(local);
    NormalizeFixes(adds);
    ApplySelectedFacts(local, adds, removes);
    forall i | 0 <= i < |next| ensures ',' !in next[i] { assert next[i] in next; }
    StoredListReadsBack(next);
  }

  /** A name that still cannot be stored, or was only now unhidden, is offered again. */
  lemma OfferedAgain(row: Row, upstream: seq<string>, mapping: map<string, string>, rx: Regex, t0: int, t1: int, x: string)
    requires x in Normalize(upstream) && x !in mapping.Values
    requires !Hidden(Filter(Normalize(row.ignored), NotIn(PendingAdds(row, upstream, mapping, rx))), x, rx)
    requires x !in LocalModels(Reconciled(row, upstream, mapping, rx, t0, t1).models)
    ensures x in PendingAdds(Reconciled(row, upstream, mapping, rx, t0, t1), upstream, mapping, rx)
  {
    var row' := Reconciled(row, upstream, mapping, rx, t0, t1);
    ReconciledRow(row, upstream, mapping, rx, t0, t1);
    NormalizeCanonical(row.ignored);
    FilterCanonical(Normalize(row.ignored), NotIn(PendingAdds(row, upstream, mapping, rx)));
    NormalizeFixes(row'.ignored);
    PendingAddsFacts(row', upstream, mapping, rx);
  }

  /** The ignore list after applying everything is the old one without the added names, as it is stored. */
  lemma ReconciledIgnored(row: Row, upstream: seq<string>, mapping: map<string, string>, rx: Regex, t0: int, t1: int)
    ensures Normalize(Reconciled(row, upstream, mapping, rx, t0, t1).ignored) ==
            Filter(Normalize(row.ignored), NotIn(PendingAdds(row, upstream, mapping, rx)))
  {
    ReconciledRow(row, upstream, mapping, rx, t0, t1);
    NormalizeCanonical(row.ignored);
    FilterCanonical(Normalize(row.ignored), NotIn(PendingAdds(row, upstream, mapping, rx)));
    NormalizeFixes(Reconciled(row, upstream, mapping, rx, t0, t1).ignored);
  }

  /** The local names after applying everything. */
  lemma ReconciledMembers(row: Row, upstream: seq<string>, mapping: map<string, string>, rx: Regex, t0: int, t1: int, x: string)
    requires CommaFree(PendingAdds(row, upstream, mapping, rx))
    ensures x in LocalModels(Reconciled(row, upstream, mapping, rx, t0, t1).models) <==>
            x in PendingAdds(row, upstream, mapping, rx) || (x in LocalModels(row.models) && !Stale(Normalize(upstream), mapping, x))
  {
    var local, adds, removes := LocalModels(row.models), PendingAdds(row, upstream, mapping, rx), PendingRemoves(row, upstream, mapping);
    ReconciledModels(row, upstream, mapping, rx, t0, t1);
    PendingAddsFacts(row, upstream, mapping, rx);
    PendingRemovesFacts(row, upstream, mapping);
    LocalIsFree(row.models);
    NormalizeFixes(local);
    NormalizeFixes(adds);
    NormalizeFixes(removes);
    ApplySelectedFacts(local, adds, removes);
  }

  lemma NothingToAdd(row: Row, upstream: seq<string>, mapping: map<string, string>, rx: Regex, t0: int, t1: int, x: string)
    requires CommaFree(PendingAdds(row, upstream, mapping, rx)) && StillHidden(row, upstream, mapping, rx)
    ensures x !in PendingAdds(Reconciled(row, upstream, mapping, rx, t0, t1), upstream, mapping, rx)
  {
    ReconciledIgnored(row, upstream, mapping, rx, t0, t1);
    ReconciledMembers(row, upstream, mapping, rx, t0, t1, x);
    PendingAddsFacts(row, upstream, mapping, rx);
    PendingAddsFacts(Reconciled(row, upstream, mapping, rx, t0, t1), upstream, mapping, rx);
  }

  lemma NothingToRemove(row: Row, upstream: seq<string>, mapping: map<string, string>, rx: Regex, t0: int, t1: int, x: string)
    requires CommaFree(PendingAdds(row, upstream, mapping, rx))
    ensures x !in PendingRemoves(Reconciled(row, upstream, mapping, rx, t0, t1), upstream, mapping)
  {
    ReconciledMembers(row, upstream, mapping, rx, t0, t1, x);
    PendingAddsFacts(row, upstream, mapping, rx);
    PendingRemovesFacts(Reconciled(row, upstream, mapping, rx, t0, t1), upstream, mapping);
  }

  lemma ConvergesWhen(row: Row, upstream: seq<string>, mapping: map<string, string>, rx: Regex, t0: int, t1: int)
    requires CommaFree(PendingAdds(row, upstream, mapping, rx)) && StillHidden(row, upstream, mapping, rx)
    ensures var row' := Reconciled(row, upstream, mapping, rx, t0, t1);
            PendingAdds(row', upstream, mapping, rx) == [] && PendingRemoves(row', upstream, mapping) == []
  {
    var row' := Reconciled(row, upstream, mapping, rx, t0, t1);
    var adds, removes := PendingAdds(row', upstream, mapping, rx), PendingRemoves(row', upstream, mapping);
    forall x ensures x !in adds { NothingToAdd(row, upstream, mapping, rx, t0, t1, x); }
    forall x ensures x !in removes { NothingToRemove(row, upstream, mapping, rx, t0, t1, x); }
    SomeMember(adds);
    SomeMember(removes);
  }

  lemma SomeMember(s: seq<string>)
    ensures s != [] ==> exists x :: x in s
  {
    if s != [] { assert s[0] in s; }
  }

  /** Reconciliation converges exactly when every offered name can be stored in the comma-separated
      column and taking the offered names off the ignore list unhides nothing else. */
  lemma ConvergesIff(row: Row, upstream: seq<string>, mapping: map<string, string>, rx: Regex, t0: int, t1: int)
    ensures var row' := Reconciled(row, upstream, mapping, rx, t0, t1);
            (PendingAdds(row', upstream, mapping, rx) == [] && PendingRemoves(row', upstream, mapping) == [])
            <==> CommaFree(PendingAdds(row, upstream, mapping, rx)) && StillHidden(row, upstream, mapping, rx)
  {
    var row' := Reconciled(row, upstream, mapping, rx, t0, t1);
    var local, adds := LocalModels(row.models), PendingAdds(row, upstream, mapping, rx);
    PendingAddsFacts(row, upstream, mapping, rx);
    if !CommaFree(adds) {
      var i :| 0 <= i < |adds| && ',' in adds[i];
      LocalIsFree(row'.models);
      assert adds[i] in adds;
      NotHiddenBySubset(Normalize(row.ignored), NotIn(adds), adds[i], rx);
      OfferedAgain(row, upstream, mapping, rx, t0, t1, adds[i]);
    } else if !StillHidden(row, upstream, mapping, rx) {
      var x :| x in Normalize(upstream) && x !in local && x !in mapping.Values && Hidden(Normalize(row.ignored), x, rx)
               && !Hidden(Filter(Normalize(row.ignored), NotIn(adds)), x, rx);
      ReconciledModels(row, upstream, mapping, rx, t0, t1);
      LocalIsFree(row.models);
      NormalizeFixes(local);
      NormalizeFixes(adds);
      ApplySelectedFacts(local, adds, PendingRemoves(row, upstream, mapping));
      OfferedAgain(row, upstream, mapping, rx, t0, t1, x);
    } else {
      ConvergesWhen(row, upstream, mapping, rx, t0, t1);
    }
  }

  lemma NotHiddenBySubset(ignored: seq<string>, keep: string -> bool, x: string, rx: Regex)
    requires !Hidden(ignored, x, rx)
    ensures !Hidden(Filter(ignored, keep), x, rx)
  {
    var sub := Filter(ignored, keep);
    forall i | 0 <= i < |sub| ensures !HidesName(sub[i], x, rx) {
      FilterMembers(ignored, keep, sub[i]);
    }
  }

  /** In particular it converges when no upstream name contains a comma or is written like a pattern,
      whatever the local list, the ignore list and the redirects are. */
  lemma ConvergesForPlainUpstream(row: Row, upstream: seq<string>, mapping: map<string, string>, rx: Regex, t0: int, t1: int)
    requires forall x :: x in Normalize(upstream) ==> ',' !in x && !(RegexPrefix <= x)
    ensures var row' := Reconciled(row, upstream, mapping, rx, t0, t1);
            PendingAdds(row', upstream, mapping, rx) == [] && PendingRemoves(row', upstream, mapping) == []
  {
    var adds, ignored := PendingAdds(row, upstream, mapping, rx), Normalize(row.ignored);
    PendingAddsFacts(row, upstream, mapping, rx);
    forall i | 0 <= i < |adds| ensures ',' !in adds[i] { assert adds[i] in adds; }
    forall x | x in Normalize(upstream) && x !in LocalModels(row.models) && x !in mapping.Values && Hidden(ignored, x, rx)
      ensures Hidden(Filter(ignored, NotIn(adds)), x, rx)
    {
      var i :| 0 <= i < |ignored| && HidesName(ignored[i], x, rx);
      var entry := ignored[i];
      assert entry in adds ==> HidesName(entry, entry, rx);
      FilterMembers(ignored, NotIn(adds), entry);
      var j :| 0 <= j < |Filter(ignored, NotIn(adds))| && Filter(ignored, NotIn(adds))[j] == ignored[i];
      assert HidesName(Filter(ignored, NotIn(adds))[j], x, rx);
    }
    ConvergesIff(row, upstream, mapping, rx, t0, t1);
  }

  /** A comma inside an upstream name really is stored as two names and offered for ever. */
  lemma CommaDiverges(rx: Regex)
    ensures var row := Row("", [], [], [], 0, false);
            PendingAdds(Reconciled(row, ["a,b"], map[], rx, 1, 2), ["a,b"], map[], rx) != [] ||
            PendingRemoves(Reconciled(row, ["a,b"], map[], rx, 1, 2), ["a,b"], map[]) != []
  {
    var row := Row("", [], [], [], 0, false);
    assert Canonical(["a,b"]);
    NormalizeFixes(["a,b"]);
    assert Normalize([]) == [];
    PendingAddsFacts(row, ["a,b"], map[], rx);
    var adds := PendingAdds(row, ["a,b"], map[], rx);
    assert "a,b" in adds;
    var i :| 0 <= i < |adds| && adds[i] == "a,b";
    assert adds[i][1] == ',';
    assert !CommaFree(adds);
    ConvergesIff(row, ["a,b"], map[], rx, 1, 2);
  }

  /** So does an upstream name that equals an ignore pattern it does not itself match: adding it
      drops the pattern, and what only that pattern was hiding is offered next. */
  lemma PatternNameDiverges(row: Row, upstream: seq<string>, mapping: map<string, string>, rx: Regex, t0: int, t1: int,
                            entry: string, x: string)
    requires Normalize(row.ignored) == [entry] && entry in PendingAdds(row, upstream, mapping, rx)
    requires x in Normalize(upstream) && x !in LocalModels(row.models) && x !in mapping.Values && HidesName(entry, x, rx)
    ensures var row' := Reconciled(row, upstream, mapping, rx, t0, t1);
            PendingAdds(row', upstream, mapping, rx) != [] || PendingRemoves(row', upstream, mapping) != []
  {
    var adds := PendingAdds(row, upstream, mapping, rx);
    var ignored := Normalize(row.ignored);
    assert HidesName(ignored[0], x, rx);
    assert Filter(ignored, NotIn(adds)) == Filter(ignored[1..], NotIn(adds)) == [];
    ConvergesIff(row, upstream, mapping, rx, t0, t1);
  }

  // ---------------------------------------------------------------- auto-sync

  lemma SyncedAdds(row: Row, adds: seq<string>)
    requires Canonical(adds) && adds != [] && forall x :: x in adds ==> x !in LocalModels(row.models)
    ensures Synced(row, adds, true) == SyncOutcome(row.(detected := [], models := Join(LocalModels(row.models) + adds, ',')), |adds|)
  {
    var local := LocalModels(row.models);
    LocalIsFree(row.models);
    NormalizeFixes(local);
    NormalizeFixes(adds);
    AllOutside(adds, local);
  }

  /** Auto-sync adds and reports exactly the pending names, and leaves none pending. */
  lemma AutoSyncCounts(row: Row, upstream: seq<string>, mapping: map<string, string>, rx: Regex,
                       now: int, minInterval: int)
    requires row.autoSync
    ensures var adds := PendingAdds(row, upstream, mapping, rx);
            var c := Check(row, Some(upstream), mapping, rx, true, true, now, minInterval, true);
            && c.autoAdded == |adds| && c.modelsChanged == (adds != []) && c.row.detected == []
            && (adds != [] ==> c.row.models == Join(LocalModels(row.models) + adds, ','))
  {
    var adds := PendingAdds(row, upstream, mapping, rx);
    PendingAddsFacts(row, upstream, mapping, rx);
    if adds != [] { SyncedAdds(row.(removed := PendingRemoves(row, upstream, mapping), lastCheck := now), adds); }
  }

  /** After an auto-sync with comma-free names, detection finds nothing more to add and the same
      names to remove. */
  lemma AutoSyncConverges(row: Row, upstream: seq<string>, mapping: map<string, string>, rx: Regex,
                          now: int, minInterval: int)
    requires row.autoSync && CommaFree(PendingAdds(row, upstream, mapping, rx))
    ensures var row' := Check(row, Some(upstream), mapping, rx, true, true, now, minInterval, true).row;
            && PendingAdds(row', upstream, mapping, rx) == []
            && PendingRemoves(row', upstream, mapping) == PendingRemoves(row, upstream, mapping)
  {
    var adds, local := PendingAdds(row, upstream, mapping, rx), LocalModels(row.models);
    var row' := Check(row, Some(upstream), mapping, rx, true, true, now, minInterval, true).row;
    AutoSyncCounts(row, upstream, mapping, rx, now, minInterval);
    PendingAddsFacts(row, upstream, mapping, rx);
    PendingAddsFacts(row', upstream, mapping, rx);
    PendingRemovesFacts(row, upstream, mapping);
    PendingRemovesFacts(row', upstream, mapping);
    LocalIsFree(row.models);
    if adds == [] {
      SomeMember(PendingAdds(row', upstream, mapping, rx));
    } else {
      MergeFacts(local, adds);
      NormalizeFixes(local);
      NormalizeFixes(adds);
      AllOutside(adds, local);
      StoredListReadsBack(local + adds);
      SomeMember(PendingAdds(row', upstream, mapping, rx));
      var keep := IsStale(Normalize(upstream), mapping);
      FilterConcat(local, adds, keep);
      NoneKept(adds, keep);
    }
  }

  /** A name with a comma is never among the stored names, so it stays on offer. */
  lemma StaysOffered(row: Row, row': Row, upstream: seq<string>, mapping: map<string, string>, rx: Regex, x: string)
    requires x in PendingAdds(row, upstream, mapping, rx) && ',' in x && row'.ignored == row.ignored
    ensures x in PendingAdds(row', upstream, mapping, rx)
  {
    LocalIsFree(row'.models);
    PendingAddsFacts(row, upstream, mapping, rx);
    PendingAddsFacts(row', upstream, mapping, rx);
  }

  lemma CheckKeepsIgnored(row: Row, upstream: seq<string>, mapping: map<string, string>, rx: Regex, now: int, minInterval: int)
    ensures Check(row, Some(upstream), mapping, rx, true, true, now, minInterval, true).row.ignored == row.ignored
  {}

  /** A comma is all that can go wrong: auto-sync leaves nothing to add if and only if the names it
      adds are comma-free. */
  lemma AutoSyncConvergesIff(row: Row, upstream: seq<string>, mapping: map<string, string>, rx: Regex,
                             now: int, minInterval: int)
    requires row.autoSync
    ensures PendingAdds(Check(row, Some(upstream), mapping, rx, true, true, now, minInterval, true).row, upstream, mapping, rx) == []
            <==> CommaFree(PendingAdds(row, upstream, mapping, rx))
  {
    var adds := PendingAdds(row, upstream, mapping, rx);
    if CommaFree(adds) {
      AutoSyncConverges(row, upstream, mapping, rx, now, minInterval);
    } else {
      var i :| 0 <= i < |adds| && ',' in adds[i];
      CheckKeepsIgnored(row, upstream, mapping, rx, now, minInterval);
      var row' := Check(row, Some(upstream), mapping, rx, true, true, now, minInterval, true).row;
      StaysOffered(row, row', upstream, mapping, rx, adds[i]);
    }
  }

  lemma {:induction false} NoneKept(s: seq<string>, keep: string -> bool)
    requires forall x :: x in s ==> !keep(x)
    ensures Filter(s, keep) == []
  {
    if s != [] { NoneKept(s[1..], keep); }
  }

  // ---------------------------------------------------------------- applying a selection

  /** Every pending name ends up in exactly one place: added, ignored or still pending, and add
      wins over ignore. Nothing that was not pending is added, and an added name leaves the ignore list. */
  lemma ApplySplitsPending(row: Row, addInput: seq<string>, ignoreInput: seq<string>, removeInput: seq<string>, now: int)
    ensures var r := Apply(row, addInput, ignoreInput, removeInput, now);
            var pending := Normalize(row.detected);
      && (forall x :: x in r.added <==> x in pending && x in Normalize(addInput))
      && (forall x :: x in r.remaining <==> x in pending && x !in Normalize(addInput) && x !in Normalize(ignoreInput))
      && (forall x :: x in r.row.ignored <==>
            x !in r.added && (x in Normalize(row.ignored) || (x in pending && x in Normalize(ignoreInput))))
      && Canonical(r.added) && Canonical(r.remaining) && Canonical(r.row.ignored) && r.row.detected == r.remaining
      && Follows(r.added, Normalize(addInput)) && Follows(r.remaining, pending)
  {
    var pending := Normalize(row.detected);
    var r := Apply(row, addInput, ignoreInput, removeInput, now);
    var ignore := Intersect(ignoreInput, pending);
    NormalizeCanonical(row.detected);
    NormalizeFixes(pending);
    IntersectFacts(addInput, pending);
    IntersectFacts(ignoreInput, pending);
    NormalizeFixes(r.added);
    NormalizeFixes(ignore);
    MergeFacts(r.added, ignore);
    MergeIsNormalizedConcat(r.added, ignore);
    SubtractFacts(pending, r.added + ignore);
    MergeFacts(row.ignored, ignore);
    NormalizeFixes(Merge(row.ignored, ignore));
    SubtractFacts(Merge(row.ignored, ignore), r.added);
  }

  /** The rest of what an apply leaves: the models column is rewritten exactly when a name was added or
      removed, as the origin names in order with the added ones behind; the time is that of the apply. */
  lemma ApplyIs(row: Row, addInput: seq<string>, ignoreInput: seq<string>, removeInput: seq<string>, now: int)
    ensures var r := Apply(row, addInput, ignoreInput, removeInput, now); var origin := LocalModels(row.models);
      var next := ApplySelected(origin, r.added, r.removed);
      && r.modelsChanged == (next != origin) && Follows(next, Normalize(origin + r.added))
      && r.row.models == (if next == origin then row.models else Join(next, ','))
      && r.row.lastCheck == now && r.row.autoSync == row.autoSync
      && r.row == Row(r.row.models, r.row.ignored, r.remaining, r.remainingRemove, now, row.autoSync)
  {
    var r := Apply(row, addInput, ignoreInput, removeInput, now);
    ApplySelectedFacts(LocalModels(row.models), r.added, r.removed);
  }

  /** The removals applied are pending removals that were selected and not added; the rest stay pending. */
  lemma ApplySplitsRemovals(row: Row, addInput: seq<string>, ignoreInput: seq<string>, removeInput: seq<string>, now: int)
    ensures var r := Apply(row, addInput, ignoreInput, removeInput, now);
            var pending := Normalize(row.removed);
      && (forall x :: x in r.removed <==> x in pending && x in Normalize(removeInput) && x !in r.added)
      && (forall x :: x in r.remainingRemove <==> x in pending && x !in r.removed)
      && Canonical(r.remainingRemove) && r.row.removed == r.remainingRemove
      && (forall x :: x in ApplySelected(LocalModels(row.models), r.added, r.removed) <==>
            x in r.added || (x in LocalModels(row.models) && x !in r.removed))
  {
    var pending := Normalize(row.removed);
    var r := Apply(row, addInput, ignoreInput, removeInput, now);
    var selected := Intersect(removeInput, pending);
    NormalizeCanonical(row.removed);
    NormalizeFixes(pending);
    IntersectFacts(addInput, Normalize(row.detected));
    NormalizeFixes(r.added);
    IntersectFacts(removeInput, pending);
    NormalizeFixes(selected);
    SubtractFacts(selected, r.added);
    NormalizeFixes(r.removed);
    SubtractFacts(pending, r.removed);
    LocalIsFree(row.models);
    NormalizeFixes(LocalModels(row.models));
    ApplySelectedFacts(LocalModels(row.models), r.added, r.removed);
  }

  // ---------------------------------------------------------------- whole runs

  datatype Event =
    | Checking(upstream: Option<seq<string>>, mapping: map<string, string>, force: bool, allowAutoApply: bool,
               now: int, minInterval: int, saved: bool)
    | Applying(add: seq<string>, ignore: seq<string>, remove: seq<string>, now: int, saved: bool)

  function Step(row: Row, e: Event, rx: Regex): Row {
    match e
    case Checking(upstream, mapping, force, auto, now, minInterval, saved) =>
      Check(row, upstream, mapping, rx, force, auto, now, minInterval, saved).row
    case Applying(add, ignore, remove, now, saved) =>
      if saved then Apply(row, add, ignore, remove, now).row else row
  }

  function Replay(row: Row, events: seq<Event>, rx: Regex): Row {
    if events == [] then row else Step(Replay(row, events[..|events|-1], rx), events[|events|-1], rx)
  }

  /** Nothing is pending both ways, and nothing pending is ignored by name. */
  predicate Consistent(row: Row) {
    && Canonical(row.detected) && Canonical(row.removed)
    && forall x :: x in row.detected ==>
         x !in row.removed && (x in Normalize(row.ignored) ==> RegexPrefix <= x)
  }

  lemma CheckKeepsConsistent(row: Row, upstream: Option<seq<string>>, mapping: map<string, string>, rx: Regex,
                             force: bool, auto: bool, now: int, minInterval: int, saved: bool)
    requires Consistent(row)
    ensures Consistent(Check(row, upstream, mapping, rx, force, auto, now, minInterval, saved).row)
  {
    if upstream.Some? {
      var adds, ignored := PendingAdds(row, upstream.value, mapping, rx), Normalize(row.ignored);
      PendingAddsFacts(row, upstream.value, mapping, rx);
      PendingRemovesFacts(row, upstream.value, mapping);
      forall x | x in adds ensures x in ignored ==> RegexPrefix <= x {
        if x in ignored {
          var i :| 0 <= i < |ignored| && ignored[i] == x;
          assert RegexPrefix <= x || HidesName(x, x, rx);
        }
      }
    }
  }

  lemma ApplyKeepsConsistent(row: Row, add: seq<string>, ignore: seq<string>, remove: seq<string>, now: int)
    requires Consistent(row)
    ensures Consistent(Apply(row, add, ignore, remove, now).row)
  {
    NormalizeFixes(row.detected);
    NormalizeFixes(row.removed);
    ApplySplitsPending(row, add, ignore, remove, now);
    ApplySplitsRemovals(row, add, ignore, remove, now);
    NormalizeFixes(Apply(row, add, ignore, remove, now).row.ignored);
  }

  /** Over every run of checks, auto-syncs and applies the row stays consistent. */
  lemma {:induction false} RunsStayConsistent(row: Row, events: seq<Event>, rx: Regex)
    requires Consistent(row)
    ensures Consistent(Replay(row, events, rx))
  {
    if events != [] {
      var before, e := Replay(row, events[..|events|-1], rx), events[|events|-1];
      RunsStayConsistent(row, events[..|events|-1], rx);
      StepKeepsConsistent(before, e, rx);
    }
  }

  // ---------------------------------------------------------------- what a check leaves, and when it runs

  /** A check runs when it is forced, is the first, or comes at least the interval after the last one. */
  predicate Due(lastCheck: int, force: bool, now: int, minInterval: int) {
    force || lastCheck <= 0 || lastCheck + minInterval <= now
  }

  /** Everything a check leaves and reports: nothing unless it is due; of a failing save only the error;
      of a failing fetch the time of the check; otherwise what was found, filed as pending or, when
      syncing, added behind the models that are there. */
  lemma CheckIs(row: Row, upstream: Option<seq<string>>, mapping: map<string, string>, rx: Regex,
                force: bool, auto: bool, now: int, minInterval: int, saved: bool)
    ensures var c := Check(row, upstream, mapping, rx, force, auto, now, minInterval, saved);
      if !Due(row.lastCheck, force, now, minInterval) then c == Checked(row, false, 0, false)
      else if !saved then c.row == row && !c.modelsChanged && c.failed
      else if upstream.None? then c == Checked(row.(lastCheck := now), false, 0, true)
      else
        var adds, found := PendingAdds(row, upstream.value, mapping, rx),
                           row.(removed := PendingRemoves(row, upstream.value, mapping), lastCheck := now);
        if auto && row.autoSync && adds != []
        then c == Checked(found.(models := Join(LocalModels(row.models) + adds, ','), detected := []), true, |adds|, false)
        else c == Checked(found.(detected := adds), false, 0, false)
  {
    if upstream.Some? {
      var adds := PendingAdds(row, upstream.value, mapping, rx);
      var found := row.(removed := PendingRemoves(row, upstream.value, mapping), lastCheck := now);
      PendingAddsFacts(row, upstream.value, mapping, rx);
      if adds != [] { SyncedAdds(found, adds); }
    }
  }

  /** An unforced check does what a forced one does if the last check was long enough ago, or there was
      none, and otherwise nothing at all. */
  lemma UnforcedIsForced(row: Row, upstream: Option<seq<string>>, mapping: map<string, string>, rx: Regex,
                         auto: bool, now: int, minInterval: int, saved: bool)
    ensures var unforced := Check(row, upstream, mapping, rx, false, auto, now, minInterval, saved);
      if row.lastCheck <= 0 || row.lastCheck + minInterval <= now
      then unforced == Check(row, upstream, mapping, rx, true, auto, now, minInterval, saved)
      else unforced == Checked(row, false, 0, false)
  {}

  /** Whether an event stores anything. */
  predicate Takes(row: Row, e: Event) {
    e.saved && (e.Checking? ==> Due(row.lastCheck, e.force, e.now, e.minInterval))
  }

  /** Every check that runs and is saved, a failing fetch included, and every apply that is saved leaves
      its time; anything else leaves the whole row. */
  lemma StepTimes(row: Row, e: Event, rx: Regex)
    ensures if Takes(row, e) then Step(row, e, rx).lastCheck == e.now else Step(row, e, rx) == row
  {
    if e.Checking? {
      CheckIs(row, e.upstream, e.mapping, rx, e.force, e.allowAutoApply, e.now, e.minInterval, e.saved);
    }
  }

  predicate InOrder(events: seq<Event>) { forall i, j :: 0 <= i <= j < |events| ==> events[i].now <= events[j].now }

  lemma ReplayNext(row: Row, events: seq<Event>, k: nat, rx: Regex)
    requires k < |events|
    ensures Replay(row, events[..k+1], rx) == Step(Replay(row, events[..k], rx), events[k], rx)
  {
    assert events[..k+1][..k] == events[..k];
  }

  /** Each value is the time it is taken at, or the one before. */
  lemma {:induction false} TakenSince(values: seq<int>, times: seq<int>, taken: seq<bool>, i: nat, j: nat)
    requires |values| == |times| + 1 == |taken| + 1 && i < j <= |times| && taken[i]
    requires forall k :: 0 <= k < |times| ==> values[k+1] == if taken[k] then times[k] else values[k]
    requires forall k, l :: 0 <= k <= l < |times| ==> times[k] <= times[l]
    ensures times[i] <= values[j] <= times[j-1]
  {
    if i + 1 < j { TakenSince(values, times, taken, i, j - 1); }
  }

  ghost function LastCheckAt(row: Row, events: seq<Event>, k: nat, rx: Regex): int
    requires k <= |events|
  {
    Replay(row, events[..k], rx).lastCheck
  }

  ghost predicate TakenAt(row: Row, events: seq<Event>, k: nat, rx: Regex)
    requires k < |events|
  {
    Takes(Replay(row, events[..k], rx), events[k])
  }

  /** While the clock does not run backwards neither does the time of the last check. */
  lemma CheckedSince(row: Row, events: seq<Event>, i: nat, j: nat, rx: Regex)
    requires InOrder(events) && i < j <= |events| && TakenAt(row, events, i, rx)
    ensures events[i].now <= LastCheckAt(row, events, j, rx) <= events[j-1].now
  {
    var n := |events|;
    var values := seq(n + 1, k requires 0 <= k <= n => LastCheckAt(row, events, k, rx));
    var times := seq(n, k requires 0 <= k < n => events[k].now);
    var taken := seq(n, k requires 0 <= k < n => TakenAt(row, events, k, rx));
    forall k | 0 <= k < n ensures values[k+1] == if taken[k] then times[k] else values[k] { StepSince(row, events, k, rx); }
    TakenSince(values, times, taken, i, j);
  }

  lemma StepSince(row: Row, events: seq<Event>, k: nat, rx: Regex)
    requires k < |events|
    ensures LastCheckAt(row, events, k + 1, rx) == if TakenAt(row, events, k, rx) then events[k].now else LastCheckAt(row, events, k, rx)
  {
    ReplayNext(row, events, k, rx);
    StepTimes(Replay(row, events[..k], rx), events[k], rx);
  }

  /** Over every run, with a clock that does not run backwards, an unforced check that runs comes at least
      the interval after every saved check and every apply before it. */
  lemma UnforcedApart(row: Row, events: seq<Event>, i: nat, j: nat, rx: Regex)
    requires InOrder(events) && i < j < |events| && events[i].now > 0
    requires TakenAt(row, events, i, rx)
    requires events[j].Checking? && !events[j].force && Due(LastCheckAt(row, events, j, rx), false, events[j].now, events[j].minInterval)
    ensures events[j].now - events[i].now >= events[j].minInterval
  {
    CheckedSince(row, events, i, j, rx);
  }

  // ---------------------------------------------------------------- checks and applies that overlap

  /** The stored row, and what each check or apply under way has read; no lock keeps them apart. */
  datatype Shared = Shared(row: Row, seen: map<nat, Row>)

  datatype Act = Reads(who: nat) | Writes(who: nat, event: Event)

  /** Whether anything is stored at all. */
  predicate Stores(seen: Row, e: Event) {
    match e
    case Checking(_, _, force, _, now, minInterval, saved) => saved && (force || !(seen.lastCheck > 0 && now - seen.lastCheck < minInterval))
    case Applying(_, _, _, _, saved) => saved
  }

  /** Whether the models column is among what is stored. */
  predicate StoresModels(seen: Row, e: Event, rx: Regex) {
    match e
    case Checking(upstream, mapping, force, auto, now, minInterval, saved) =>
      Check(seen, upstream, mapping, rx, force, auto, now, minInterval, saved).modelsChanged
    case Applying(add, ignore, remove, now, _) => Apply(seen, add, ignore, remove, now).modelsChanged
  }

  /** The settings are stored as worked out from what was read, the models only if they changed. */
  function Stored(current: Row, seen: Row, e: Event, rx: Regex): Row {
    if !Stores(seen, e) then current
    else
      var next := Step(seen, e, rx);
      next.(models := if StoresModels(seen, e, rx) then next.models else current.models)
  }

  function Interleaved(row: Row, acts: seq<Act>, rx: Regex): Shared {
    if acts == [] then Shared(row, map[])
    else
      var s, a := Interleaved(row, acts[..|acts|-1], rx), acts[|acts|-1];
      match a
      case Reads(who) => s.(seen := s.seen[who := s.row])
      case Writes(who, e) => if who in s.seen then Shared(Stored(s.row, s.seen[who], e, rx), s.seen - {who}) else s
  }

  /** The event finds models to add or remove. */
  predicate Rewrites(seen: Row, e: Event, rx: Regex) {
    match e
    case Checking(upstream, mapping, _, auto, _, _, _) =>
      auto && seen.autoSync && upstream.Some? && PendingAdds(seen, upstream.value, mapping, rx) != []
    case Applying(add, ignore, remove, now, _) =>
      var r := Apply(seen, add, ignore, remove, now);
      ApplySelected(LocalModels(seen.models), r.added, r.removed) != LocalModels(seen.models)
  }

  /** What is stored over a row that others have replaced since: nothing if the event stores nothing;
      otherwise every setting as worked out from what was read, and the models column only if the event
      finds models to add or remove. */
  lemma StoredIs(current: Row, seen: Row, e: Event, rx: Regex)
    ensures Stored(current, seen, e, rx) ==
            if !Takes(seen, e) then current
            else Step(seen, e, rx).(models := if Rewrites(seen, e, rx) then Step(seen, e, rx).models else current.models)
  {
    if e.Checking? {
      CheckIs(seen, e.upstream, e.mapping, rx, e.force, e.allowAutoApply, e.now, e.minInterval, e.saved);
    } else {
      ApplyIs(seen, e.add, e.ignore, e.remove, e.now);
    }
  }

  /** Nothing to add or remove leaves the models column. */
  lemma StepKeepsModels(row: Row, e: Event, rx: Regex)
    ensures !Rewrites(row, e, rx) ==> Step(row, e, rx).models == row.models
  {
    if e.Checking? {
      CheckIs(row, e.upstream, e.mapping, rx, e.force, e.allowAutoApply, e.now, e.minInterval, e.saved);
    } else {
      ApplyIs(row, e.add, e.ignore, e.remove, e.now);
    }
  }

  /** A check or apply that nobody got between does exactly its step. */
  lemma StoredAlone(row: Row, e: Event, rx: Regex)
    ensures Stored(row, row, e, rx) == Step(row, e, rx)
  {
    StoredIs(row, row, e, rx);
    StepKeepsModels(row, e, rx);
    StepTimes(row, e, rx);
  }

  lemma InterleavedThen(row: Row, acts: seq<Act>, a: Act, rx: Regex)
    ensures var s := Interleaved(row, acts, rx);
            Interleaved(row, acts + [a], rx) ==
            match a
            case Reads(who) => Shared(s.row, s.seen[who := s.row])
            case Writes(who, e) => if who in s.seen then Shared(Stored(s.row, s.seen[who], e, rx), s.seen - {who}) else s
  {
    assert (acts + [a])[..|acts|] == acts;
  }

  /** After whatever came before, one that reads and writes with nobody in between does its step. */
  lemma AloneIsStep(row: Row, acts: seq<Act>, who: nat, e: Event, rx: Regex)
    ensures Interleaved(row, acts + [Reads(who)] + [Writes(who, e)], rx).row == Step(Interleaved(row, acts, rx).row, e, rx)
  {
    InterleavedThen(row, acts, Reads(who), rx);
    InterleavedThen(row, acts + [Reads(who)], Writes(who, e), rx);
    StoredAlone(Interleaved(row, acts, rx).row, e, rx);
  }

  /** Of two that both read before either writes, the second one's settings are all that is left, and of
      the first at most its models. */
  lemma OverlapLosesSettings(row: Row, acts: seq<Act>, p: nat, a: Event, q: nat, b: Event, rx: Regex)
    requires p != q
    ensures var start := Interleaved(row, acts, rx).row;
            var end := Interleaved(row, acts + [Reads(p)] + [Reads(q)] + [Writes(p, a)] + [Writes(q, b)], rx).row;
      && (!Takes(start, b) ==> end == Step(start, a, rx))
      && (Takes(start, b) ==> end == Step(start, b, rx).(models := if Rewrites(start, b, rx) then Step(start, b, rx).models else Step(start, a, rx).models))
  {
    var start, one := Interleaved(row, acts, rx).row, acts + [Reads(p)];
    InterleavedThen(row, acts, Reads(p), rx);
    InterleavedThen(row, one, Reads(q), rx);
    InterleavedThen(row, one + [Reads(q)], Writes(p, a), rx);
    InterleavedThen(row, one + [Reads(q)] + [Writes(p, a)], Writes(q, b), rx);
    StoredAlone(start, a, rx);
    StoredIs(Step(start, a, rx), start, b, rx);
  }

  lemma StepKeepsConsistent(row: Row, e: Event, rx: Regex)
    requires Consistent(row)
    ensures Consistent(Step(row, e, rx))
  {
    match e
    case Checking(upstream, mapping, force, auto, now, minInterval, saved) =>
      CheckKeepsConsistent(row, upstream, mapping, rx, force, auto, now, minInterval, saved);
    case Applying(add, ignore, remove, now, saved) =>
      ApplyKeepsConsistent(row, add, ignore, remove, now);
  }

  ghost predicate AllConsistent(s: Shared) { Consistent(s.row) && forall who :: who in s.seen ==> Consistent(s.seen[who]) }

  /** In every interleaving of any number of checks and applies the row stays consistent. */
  lemma {:induction false} RacesStayConsistent(row: Row, acts: seq<Act>, rx: Regex)
    requires Consistent(row)
    ensures AllConsistent(Interleaved(row, acts, rx))
  {
    if acts != [] {
      var s, a := Interleaved(row, acts[..|acts|-1], rx), acts[|acts|-1];
      RacesStayConsistent(row, acts[..|acts|-1], rx);
      if a.Writes? && a.who in s.seen { StepKeepsConsistent(s.seen[a.who], a.event, rx); }
    }
  }

  // ---------------------------------------------------------------- the code's own form

  /** A channel row that the two operations update in place. */
  class Channel {
    var models: string
    var ignored: seq<string>
    var detected: seq<string>
    var removed: seq<string>
    var lastCheck: int
    const autoSync: bool

    ghost function View(): Row
      reads this
    {
      Row(models, ignored, detected, removed, lastCheck, autoSync)
    }

    constructor (row: Row)
      ensures View() == row
    {
      models, ignored, detected, removed := row.models, row.ignored, row.detected, row.removed;
      lastCheck, autoSync := row.lastCheck, row.autoSync;
    }

    method CheckAndPersist(upstream: Option<seq<string>>, mapping: map<string, string>, rx: Regex, force: bool,
                           allowAutoApply: bool, now: int, minInterval: int, saved: bool)
      returns (modelsChanged: bool, autoAdded: int, failed: bool)
      modifies this
      ensures Checked(View(), modelsChanged, autoAdded, failed) ==
              Check(old(View()), upstream, mapping, rx, force, allowAutoApply, now, minInterval, saved)
    {
      modelsChanged, autoAdded, failed := false, 0, false;
      if !force && lastCheck > 0 && now - lastCheck < minInterval {
        return;
      }
      if upstream.None? {
        if saved { lastCheck := now; }
        return false, 0, true;
      }
      var row := Row(models, ignored, detected, removed, lastCheck, autoSync);
      var adds, removes := PendingAdds(row, upstream.value, mapping, rx), PendingRemoves(row, upstream.value, mapping);
      var next;
      next, autoAdded := FileAdditions(row.(removed := removes, lastCheck := now), adds,
                                       allowAutoApply && autoSync && adds != []);
      if !saved {
        return false, autoAdded, true;
      }
      modelsChanged := autoAdded > 0;
      models, detected, removed, lastCheck := next.models, next.detected, next.removed, next.lastCheck;
    }

    static method FileAdditions(row: Row, adds: seq<string>, sync: bool) returns (next: Row, autoAdded: int)
      ensures SyncOutcome(next, autoAdded) == Synced(row, adds, sync)
    {
      next, autoAdded := row.(detected := adds), 0;
      if sync {
        next := next.(detected := []);
        var origin := LocalModels(row.models);
        var merged := MergeModelNames(origin, adds);
        MergeIsNormalizedConcat(origin, adds);
        if |merged| > |origin| {
          next, autoAdded := next.(models := Join(merged, ',')), |merged| - |origin|;
        }
      }
    }

    /** The part before anything is stored. */
    static method Decide(row: Row, addInput: seq<string>, ignoreInput: seq<string>, removeInput: seq<string>, now: int)
      returns (r: Applied)
      ensures r == Apply(row, addInput, ignoreInput, removeInput, now)
    {
      var pendingAdd, pendingRemove := Normalize(row.detected), Normalize(row.removed);
      var added := Intersect(addInput, pendingAdd);
      var ignore := Intersect(ignoreInput, pendingAdd);
      var removed := Subtract(Intersect(removeInput, pendingRemove), added);
      var origin := LocalModels(row.models);
      var next := ApplySelected(origin, added, removed);
      var nextIgnored := NextIgnored(row.ignored, ignore, added);
      var remaining, remainingRemove := Subtract(pendingAdd, added + ignore), Subtract(pendingRemove, removed);
      var nextRow := row.(ignored := nextIgnored, detected := remaining, removed := remainingRemove, lastCheck := now);
      if origin != next {
        nextRow := nextRow.(models := Join(next, ','));
      }
      r := Applied(nextRow, added, removed, remaining, remainingRemove, origin != next);
    }

    static method NextIgnored(ignored: seq<string>, ignore: seq<string>, added: seq<string>) returns (next: seq<string>)
      ensures next == if added != [] then Subtract(Merge(ignored, ignore), added) else Merge(ignored, ignore)
    {
      next := MergeModelNames(ignored, ignore);
      MergeIsNormalizedConcat(ignored, ignore);
      if |added| > 0 {
        next := Subtract(next, added);
      }
    }

    method ApplyUpdates(addInput: seq<string>, ignoreInput: seq<string>, removeInput: seq<string>, now: int, saved: bool)
      returns (added: seq<string>, removedNames: seq<string>, remaining: seq<string>, remainingRemove: seq<string>,
               modelsChanged: bool)
      modifies this
      ensures var r := Apply(old(View()), addInput, ignoreInput, removeInput, now);
        && View() == (if saved then r.row else old(View()))
        && (saved ==> (added, removedNames, remaining, remainingRemove, modelsChanged) ==
                      (r.added, r.removed, r.remaining, r.remainingRemove, r.modelsChanged))
        && (!saved ==> added == removedNames == remaining == remainingRemove == [] && !modelsChanged)
    {
      var r := Decide(Row(models, ignored, detected, removed, lastCheck, autoSync), addInput, ignoreInput, removeInput, now);
      if !saved {
        return [], [], [], [], false;
      }
      models, ignored, detected, removed, lastCheck := r.row.models, r.row.ignored, r.row.detected, r.row.removed, r.row.lastCheck;
      return r.added, r.removed, r.remaining, r.remainingRemove, r.modelsChanged;
    }
  }
}
