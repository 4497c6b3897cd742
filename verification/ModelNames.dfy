/**
 Ordered sets of model names: the normalising list operations of
 controller/channel_upstream_update.go.
 */
module ModelNames {
  import opened Text

  predicate Distinct(s: seq<string>) {
    forall i, j :: 0 <= i < j < |s| ==> s[i] != s[j]
  }

  /** The shape every operation returns: no blanks, nothing to trim, no repeats. */
  predicate Canonical(s: seq<string>) {
    Distinct(s) && forall i :: 0 <= i < |s| ==> s[i] != [] && Trimmed(s[i], IsSpace)
  }

  function Cleaned(models: seq<string>): seq<string> {
    if models == [] then []
    else
      var name := TrimSpace(models[0]);
      (if name == [] then [] else [name]) + Cleaned(models[1..])
  }

  /** Keeps the first occurrence of every entry. */
  function Uniq(s: seq<string>): seq<string> {
    if s == [] then []
    else
      var u := Uniq(s[..|s|-1]);
      if s[|s|-1] in u then u else u + [s[|s|-1]]
  }

  function Normalize(models: seq<string>): seq<string> { Uniq(Cleaned(models)) }

  function Filter(s: seq<string>, keep: string -> bool): seq<string> {
    if s == [] then []
    else (if keep(s[0]) then [s[0]] else []) + Filter(s[1..], keep)
  }

  function NotIn(names: seq<string>): string -> bool { name => name !in names }
  function IsIn(names: seq<string>): string -> bool { name => name in names }

  /** What mergeModelNames computes: the new names go behind the old ones. */
  function Merge(base: seq<string>, appended: seq<string>): seq<string> {
    Normalize(base) + Filter(Normalize(appended), NotIn(Normalize(base)))
  }

  function Subtract(base: seq<string>, removed: seq<string>): seq<string> {
    Filter(Normalize(base), NotIn(Normalize(removed)))
  }

  function Intersect(base: seq<string>, allowed: seq<string>): seq<string> {
    Filter(Normalize(base), IsIn(Normalize(allowed)))
  }

  function ApplySelected(origin: seq<string>, add: seq<string>, remove: seq<string>): seq<string> {
    Subtract(Merge(origin, Normalize(add)), Subtract(Normalize(remove), Normalize(add)))
  }

  // ---------------------------------------------------------------- laws

  lemma {:induction false} UniqMembers(s: seq<string>, x: string)
    ensures x in Uniq(s) <==> x in s
  {
    if s != [] {
      UniqMembers(s[..|s|-1], x);
      assert s == s[..|s|-1] + [s[|s|-1]];
      if s[|s|-1] == x { UniqMembers(s[..|s|-1], s[|s|-1]); }
    }
  }

  lemma {:induction false} UniqDistinct(s: seq<string>)
    ensures Distinct(Uniq(s))
  {
    if s != [] { UniqDistinct(s[..|s|-1]); }
  }

  lemma {:induction false} UniqOfDistinct(s: seq<string>)
    requires Distinct(s)
    ensures Uniq(s) == s
  {
    if s != [] {
      UniqOfDistinct(s[..|s|-1]);
      assert s == s[..|s|-1] + [s[|s|-1]];
    }
  }

  function First(s: seq<string>, x: string): (i: nat)
    requires x in s
    ensures i < |s| && s[i] == x && x !in s[..i]
  {
    if s[0] == x then 0 else 1 + First(s[1..], x)
  }

  /** Names keep the order of their first occurrences. */
  lemma {:induction false} UniqOrder(s: seq<string>, i: nat, j: nat)
    requires i < j < |Uniq(s)|
    ensures Uniq(s)[i] in s && Uniq(s)[j] in s && First(s, Uniq(s)[i]) < First(s, Uniq(s)[j])
  {
    var init, u := s[..|s|-1], Uniq(s);
    UniqMembers(s, u[i]);
    UniqMembers(s, u[j]);
    UniqMembers(init, u[i]);
    UniqMembers(init, u[j]);
    assert s == init + [s[|s|-1]];
    if j < |Uniq(init)| { UniqOrder(init, i, j); }
  }

  /** The names of `s` come in the order they first have in `t`. */
  predicate Follows(s: seq<string>, t: seq<string>) {
    (forall i :: 0 <= i < |s| ==> s[i] in t) && forall i, j :: 0 <= i < j < |s| ==> First(t, s[i]) < First(t, s[j])
  }

  lemma NotFirst(s: seq<string>, x: string)
    requires s != [] && Distinct(s) && x in s[1..]
    ensures x in s && x != s[0] && First(s, x) == 1 + First(s[1..], x)
  {
    var k :| 0 <= k < |s[1..]| && s[1..][k] == x;
    assert s[k + 1] == x;
  }

  /** Filtering keeps the order. */
  lemma {:induction false} FilterFollows(s: seq<string>, keep: string -> bool)
    requires Distinct(s)
    ensures Follows(Filter(s, keep), s)
  {
    if s != [] {
      var rest, kept := s[1..], Filter(s[1..], keep);
      FilterFollows(rest, keep);
      assert s == [s[0]] + rest;
      forall i | 0 <= i < |kept| ensures kept[i] in rest && kept[i] != s[0] && First(s, kept[i]) == 1 + First(rest, kept[i]) {
        FilterMembers(rest, keep, kept[i]);
        assert kept[i] in kept;
        NotFirst(s, kept[i]);
      }
    }
  }

  lemma {:induction false} CleanedMembers(models: seq<string>, x: string)
    ensures x in Cleaned(models) <==> x != [] && exists i :: 0 <= i < |models| && TrimSpace(models[i]) == x
  {
    if models != [] {
      CleanedMembers(models[1..], x);
      if x in Cleaned(models[1..]) {
        var i :| 0 <= i < |models[1..]| && TrimSpace(models[1..][i]) == x;
        assert models[i+1] == models[1..][i];
      }
      if i :| 0 <= i < |models| && TrimSpace(models[i]) == x {
        if i > 0 { assert models[1..][i-1] == models[i]; }
      }
    }
  }

  lemma {:induction false} CleanedOfCanonical(s: seq<string>)
    requires forall i :: 0 <= i < |s| ==> s[i] != [] && Trimmed(s[i], IsSpace)
    ensures Cleaned(s) == s
  {
    if s != [] {
      TrimmedIsFixed(s[0], IsSpace);
      CleanedOfCanonical(s[1..]);
    }
  }

  /** Normalising gives a canonical list of exactly the trimmed, non-blank names. */
  lemma NormalizeCanonical(models: seq<string>)
    ensures Canonical(Normalize(models))
  {
    var r := Normalize(models);
    UniqDistinct(Cleaned(models));
    forall i | 0 <= i < |r| ensures r[i] != [] && Trimmed(r[i], IsSpace) {
      UniqMembers(Cleaned(models), r[i]);
      CleanedMembers(models, r[i]);
      var k :| 0 <= k < |models| && TrimSpace(models[k]) == r[i];
      TrimIsTrimmed(models[k], IsSpace);
    }
  }

  lemma NormalizeMembers(models: seq<string>, x: string)
    ensures x in Normalize(models) <==> x != [] && exists i :: 0 <= i < |models| && TrimSpace(models[i]) == x
  {
    UniqMembers(Cleaned(models), x);
    CleanedMembers(models, x);
  }

  /** A canonical list is a fixed point, so normalising twice is normalising once. */
  lemma NormalizeFixes(s: seq<string>)
    requires Canonical(s)
    ensures Normalize(s) == s
  {
    CleanedOfCanonical(s);
    UniqOfDistinct(s);
  }

  lemma {:induction false} FilterMembers(s: seq<string>, keep: string -> bool, x: string)
    ensures x in Filter(s, keep) <==> x in s && keep(x)
  {
    if s != [] {
      FilterMembers(s[1..], keep, x);
      assert s == [s[0]] + s[1..];
    }
  }

  lemma {:induction false} FilterCanonical(s: seq<string>, keep: string -> bool)
    requires Canonical(s)
    ensures Canonical(Filter(s, keep))
  {
    if s != [] {
      FilterCanonical(s[1..], keep);
      FilterMembers(s[1..], keep, s[0]);
      var rest := Filter(s[1..], keep);
      forall i | 0 <= i < |rest| ensures rest[i] != s[0] { assert rest[i] in rest; }
    }
  }

  /** Merging is normalising the concatenation: first occurrences win, in order. */
  lemma MergeIsNormalizedConcat(base: seq<string>, appended: seq<string>)
    ensures Merge(base, appended) == Normalize(base + appended)
  {
    CleanedConcat(base, appended);
    UniqConcat(Cleaned(base), Cleaned(appended));
  }

  lemma {:induction false} CleanedConcat(a: seq<string>, b: seq<string>)
    ensures Cleaned(a + b) == Cleaned(a) + Cleaned(b)
  {
    if a == [] {
      assert a + b == b;
    } else {
      assert (a + b)[1..] == a[1..] + b;
      CleanedConcat(a[1..], b);
    }
  }

  lemma {:induction false} FilterConcat(a: seq<string>, b: seq<string>, keep: string -> bool)
    ensures Filter(a + b, keep) == Filter(a, keep) + Filter(b, keep)
  {
    if a == [] {
      assert a + b == b;
    } else {
      var head := if keep(a[0]) then [a[0]] else [];
      var x, y := Filter(a[1..], keep), Filter(b, keep);
      assert (a + b)[1..] == a[1..] + b;
      FilterConcat(a[1..], b, keep);
      assert head + (x + y) == (head + x) + y;
    }
  }

  lemma FilterSnoc(s: seq<string>, last: string, keep: string -> bool)
    ensures Filter(s + [last], keep) == if keep(last) then Filter(s, keep) + [last] else Filter(s, keep)
  {
    FilterConcat(s, [last], keep);
    assert [last][1..] == [];
  }

  lemma {:induction false} UniqConcat(a: seq<string>, b: seq<string>)
    ensures Uniq(a + b) == Uniq(a) + Filter(Uniq(b), NotIn(Uniq(a)))
  {
    if b == [] {
      assert a + b == a;
    } else {
      var init, last := b[..|b|-1], b[|b|-1];
      assert (a + b)[..|a+b|-1] == a + init && (a + b)[|a+b|-1] == last;
      UniqConcat(a, init);
      FilterMembers(Uniq(init), NotIn(Uniq(a)), last);
      FilterConcat(Uniq(init), [last], NotIn(Uniq(a)));
      assert Filter([], NotIn(Uniq(a))) == [];
      assert Filter([last], NotIn(Uniq(a))) == if last in Uniq(a) then [] else [last];
    }
  }

  lemma MergeFacts(base: seq<string>, appended: seq<string>)
    ensures Canonical(Merge(base, appended))
    ensures forall x :: x in Merge(base, appended) <==> x in Normalize(base) || x in Normalize(appended)
  {
    MergeIsNormalizedConcat(base, appended);
    NormalizeCanonical(base + appended);
    forall x ensures x in Merge(base, appended) <==> x in Normalize(base) || x in Normalize(appended) {
      FilterMembers(Normalize(appended), NotIn(Normalize(base)), x);
    }
  }

  lemma SubtractFacts(base: seq<string>, removed: seq<string>)
    ensures Canonical(Subtract(base, removed))
    ensures forall x :: x in Subtract(base, removed) <==> x in Normalize(base) && x !in Normalize(removed)
    ensures Follows(Subtract(base, removed), Normalize(base))
  {
    NormalizeCanonical(base);
    FilterFollows(Normalize(base), NotIn(Normalize(removed)));
    FilterCanonical(Normalize(base), NotIn(Normalize(removed)));
    forall x ensures x in Subtract(base, removed) <==> x in Normalize(base) && x !in Normalize(removed) {
      FilterMembers(Normalize(base), NotIn(Normalize(removed)), x);
    }
  }

  lemma IntersectFacts(base: seq<string>, allowed: seq<string>)
    ensures Canonical(Intersect(base, allowed))
    ensures forall x :: x in Intersect(base, allowed) <==> x in Normalize(base) && x in Normalize(allowed)
    ensures Follows(Intersect(base, allowed), Normalize(base))
  {
    NormalizeCanonical(base);
    FilterFollows(Normalize(base), IsIn(Normalize(allowed)));
    FilterCanonical(Normalize(base), IsIn(Normalize(allowed)));
    forall x ensures x in Intersect(base, allowed) <==> x in Normalize(base) && x in Normalize(allowed) {
      FilterMembers(Normalize(base), IsIn(Normalize(allowed)), x);
    }
  }

  /** Add wins: the outcome holds the added names and those origin names that are not removed, in the
      order of the origin with the added names behind. */
  lemma ApplySelectedFacts(origin: seq<string>, add: seq<string>, remove: seq<string>)
    ensures Canonical(ApplySelected(origin, add, remove))
    ensures forall x :: x in ApplySelected(origin, add, remove) <==>
              x in Normalize(add) || (x in Normalize(origin) && x !in Normalize(remove))
    ensures Follows(ApplySelected(origin, add, remove), Normalize(origin + add))
  {
    var a, r := Normalize(add), Normalize(remove);
    NormalizeCanonical(add);
    NormalizeCanonical(remove);
    NormalizeFixes(a);
    NormalizeFixes(r);
    MergeFacts(origin, a);
    SubtractFacts(r, a);
    NormalizeFixes(Merge(origin, a));
    NormalizeFixes(Subtract(r, a));
    SubtractFacts(Merge(origin, a), Subtract(r, a));
    MergeIsNormalizedConcat(origin, add);
  }

  /** One more name behind those already merged. */
  lemma MergeOne(start: seq<string>, done: seq<string>, name: string)
    requires name !in done
    ensures var merged := start + Filter(done, NotIn(start));
            start + Filter(done + [name], NotIn(start)) == if name in merged then merged else merged + [name]
  {
    FilterSnoc(done, name, NotIn(start));
    FilterMembers(done, NotIn(start), name);
    var kept := Filter(done, NotIn(start));
    assert start + (kept + [name]) == (start + kept) + [name];
  }

  lemma SeenMore(seen: set<string>, merged: seq<string>, name: string)
    requires forall x :: x in seen <==> x in merged
    ensures forall x :: x in seen + {name} <==> x in merged + [name]
  {}

  /** mergeModelNames as written: a seen set grows beside the result. */
  method MergeModelNames(base: seq<string>, appended: seq<string>) returns (merged: seq<string>)
    ensures merged == Normalize(base + appended)
  {
    merged := Normalize(base);
    var seen := set x | x in merged;
    var more := Normalize(appended);
    ghost var start := merged;
    NormalizeCanonical(appended);
    for i := 0 to |more|
      invariant merged == start + Filter(more[..i], NotIn(start))
      invariant forall x :: x in seen <==> x in merged
    {
      MergeOne(start, more[..i], more[i]);
      assert more[..i+1] == more[..i] + [more[i]];
      SeenMore(seen, merged, more[i]);
      if more[i] !in seen {
        seen := seen + {more[i]};
        merged := merged + [more[i]];
      }
    }
    assert more[..|more|] == more;
    MergeIsNormalizedConcat(base, appended);
  }
}
