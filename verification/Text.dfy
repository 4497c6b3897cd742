/**
 The string operations the gateway relies on: trimming, splitting on a separator and joining.
 */
module Text {

  /** Unicode white space, the characters strings.TrimSpace removes. */
  predicate IsSpace(c: char) {
    var n := c as int;
    9 <= n <= 13 || n == 0x20 || n == 0x85 || n == 0xA0 || n == 0x1680 || 0x2000 <= n <= 0x200A
    || n == 0x2028 || n == 0x2029 || n == 0x202F || n == 0x205F || n == 0x3000
  }

  function TrimLeft(s: string, drop: char -> bool): string {
    if s != [] && drop(s[0]) then TrimLeft(s[1..], drop) else s
  }

  function TrimRight(s: string, drop: char -> bool): string {
    if s != [] && drop(s[|s|-1]) then TrimRight(s[..|s|-1], drop) else s
  }

  function TrimBy(s: string, drop: char -> bool): string { TrimRight(TrimLeft(s, drop), drop) }

  function TrimSpace(s: string): string { TrimBy(s, IsSpace) }

  /** A string with nothing to trim at either end. */
  predicate Trimmed(s: string, drop: char -> bool) {
    s == [] || (!drop(s[0]) && !drop(s[|s|-1]))
  }

  lemma {:induction false} TrimLeftClean(s: string, drop: char -> bool)
    ensures var r := TrimLeft(s, drop); (r == [] || !drop(r[0])) && |r| <= |s| && r == s[|s|-|r|..]
    ensures forall i :: 0 <= i < |s| - |TrimLeft(s, drop)| ==> drop(s[i])
  {
    if s != [] && drop(s[0]) {
      TrimLeftClean(s[1..], drop);
      assert forall i :: 1 <= i < |s| ==> s[i] == s[1..][i - 1];
    }
  }

  lemma {:induction false} TrimRightClean(s: string, drop: char -> bool)
    ensures var r := TrimRight(s, drop); (r == [] || !drop(r[|r|-1])) && |r| <= |s| && r == s[..|r|]
    ensures forall i :: |TrimRight(s, drop)| <= i < |s| ==> drop(s[i])
  {
    if s != [] && drop(s[|s|-1]) { TrimRightClean(s[..|s|-1], drop); }
  }

  /** The result of trimming is trimmed. */
  lemma TrimIsTrimmed(s: string, drop: char -> bool)
    ensures Trimmed(TrimBy(s, drop), drop)
  {
    TrimLeftClean(s, drop);
    TrimRightClean(TrimLeft(s, drop), drop);
  }

  predicate AllDropped(s: string, drop: char -> bool) { forall i :: 0 <= i < |s| ==> drop(s[i]) }

  /** Trimming takes away what is to be dropped at both ends and nothing else. */
  lemma TrimIs(s: string, drop: char -> bool) returns (front: string, back: string)
    ensures s == front + TrimBy(s, drop) + back && AllDropped(front, drop) && AllDropped(back, drop) && Trimmed(TrimBy(s, drop), drop)
  {
    var left := TrimLeft(s, drop);
    TrimLeftClean(s, drop);
    TrimRightClean(left, drop);
    TrimIsTrimmed(s, drop);
    front, back := s[..|s|-|left|], left[|TrimBy(s, drop)|..];
  }

  /** Trimming leaves a trimmed string alone; with TrimIsTrimmed, trimming is idempotent. */
  lemma TrimmedIsFixed(s: string, drop: char -> bool)
    requires Trimmed(s, drop)
    ensures TrimBy(s, drop) == s
  {}

  /** Every character of a trimmed string comes from the original. */
  lemma TrimKeepsChars(s: string, drop: char -> bool, c: char)
    requires c in TrimBy(s, drop)
    ensures c in s
  {
    TrimLeftClean(s, drop);
    TrimRightClean(TrimLeft(s, drop), drop);
  }

  function Split(s: string, sep: char): (parts: seq<string>)
    ensures |parts| >= 1
  {
    if s == [] then [[]]
    else
      var rest := Split(s[1..], sep);
      if s[0] == sep then [[]] + rest else [[s[0]] + rest[0]] + rest[1..]
  }

  function Join(parts: seq<string>, sep: char): string {
    if parts == [] then []
    else if |parts| == 1 then parts[0]
    else parts[0] + [sep] + Join(parts[1..], sep)
  }

  predicate AllFree(parts: seq<string>, sep: char) {
    forall i :: 0 <= i < |parts| ==> sep !in parts[i]
  }

  predicate NonEmptyParts(parts: seq<string>) {
    forall i :: 0 <= i < |parts| ==> parts[i] != []
  }

  /** No part of a split contains the separator. */
  lemma {:induction false} SplitIsFree(s: string, sep: char)
    ensures AllFree(Split(s, sep), sep)
  {
    if s != [] { SplitIsFree(s[1..], sep); }
  }

  lemma {:induction false} SplitFree(s: string, sep: char)
    requires sep !in s
    ensures Split(s, sep) == [s]
  {
    if s != [] {
      SplitFree(s[1..], sep);
      assert [s[0]] + s[1..] == s;
    }
  }

  lemma {:induction false} SplitPrefix(a: string, rest: string, sep: char)
    requires sep !in a
    ensures Split(a + [sep] + rest, sep) == [a] + Split(rest, sep)
  {
    var s := a + [sep] + rest;
    if a == [] {
      assert s[1..] == rest;
    } else {
      assert s[1..] == a[1..] + [sep] + rest;
      SplitPrefix(a[1..], rest, sep);
      assert [a[0]] + a[1..] == a;
    }
  }

  /** Splitting undoes joining exactly when no part contains the separator (and there is a part). */
  lemma {:induction false} SplitOfJoin(parts: seq<string>, sep: char)
    requires parts != []
    ensures Split(Join(parts, sep), sep) == parts <==> AllFree(parts, sep)
  {
    SplitIsFree(Join(parts, sep), sep);
    if AllFree(parts, sep) { SplitOfJoinFree(parts, sep); }
  }

  lemma {:induction false} SplitOfJoinFree(parts: seq<string>, sep: char)
    requires parts != [] && AllFree(parts, sep)
    ensures Split(Join(parts, sep), sep) == parts
  {
    if |parts| == 1 {
      SplitFree(parts[0], sep);
    } else {
      SplitOfJoinFree(parts[1..], sep);
      SplitPrefix(parts[0], Join(parts[1..], sep), sep);
    }
  }

  /** What parts come to once they are joined: those with a separator in them fall apart. */
  function Pieces(parts: seq<string>, sep: char): seq<string> {
    if parts == [] then [] else Split(parts[0], sep) + Pieces(parts[1..], sep)
  }

  lemma {:induction false} SplitConcat(a: string, rest: string, sep: char)
    ensures Split(a + [sep] + rest, sep) == Split(a, sep) + Split(rest, sep)
  {
    var s := a + [sep] + rest;
    if a == [] {
      assert s[1..] == rest;
    } else {
      assert s[1..] == a[1..] + [sep] + rest;
      SplitConcat(a[1..], rest, sep);
    }
  }

  lemma {:induction false} SplitOfJoinIsPieces(parts: seq<string>, sep: char)
    requires parts != []
    ensures Split(Join(parts, sep), sep) == Pieces(parts, sep)
  {
    if |parts| == 1 {
      assert Pieces(parts[1..], sep) == [];
    } else {
      SplitOfJoinIsPieces(parts[1..], sep);
      SplitConcat(parts[0], Join(parts[1..], sep), sep);
    }
  }

  lemma {:induction false} PiecesConcat(a: seq<string>, b: seq<string>, sep: char)
    ensures Pieces(a + b, sep) == Pieces(a, sep) + Pieces(b, sep)
  {
    if a == [] {
      assert a + b == b;
    } else {
      assert (a + b)[1..] == a[1..] + b;
      PiecesConcat(a[1..], b, sep);
    }
  }

  /** Parts are their own pieces exactly when none contains the separator. */
  lemma {:induction false} PiecesIff(parts: seq<string>, sep: char)
    ensures Pieces(parts, sep) == parts <==> AllFree(parts, sep)
    ensures |Pieces(parts, sep)| >= |parts|
    ensures AllFree(Pieces(parts, sep), sep)
  {
    if parts != [] {
      PiecesIff(parts[1..], sep);
      SplitIsFree(parts[0], sep);
      if sep !in parts[0] { SplitFree(parts[0], sep); }
    }
  }

  lemma {:induction false} PiecesMembers(parts: seq<string>, sep: char, x: string)
    ensures x in Pieces(parts, sep) <==> exists i :: 0 <= i < |parts| && x in Split(parts[i], sep)
  {
    if parts != [] {
      PiecesMembers(parts[1..], sep, x);
      if i :| 0 <= i < |parts| - 1 && x in Split(parts[1..][i], sep) { assert x in Split(parts[i + 1], sep); }
      if i :| 1 <= i < |parts| && x in Split(parts[i], sep) { assert parts[1..][i - 1] == parts[i]; }
    }
  }

  function Only(sep: char): char -> bool { c => c == sep }

  /** How a list column is read back: trim separators at the ends, then split; "" is no entry at all. */
  function ReadList(s: string, sep: char): seq<string> {
    if s == [] then [] else Split(TrimBy(s, Only(sep)), sep)
  }

  /** Joining undoes splitting. */
  lemma {:induction false} JoinOfSplit(s: string, sep: char)
    ensures Join(Split(s, sep), sep) == s
  {
    if s != [] {
      var rest := Split(s[1..], sep);
      JoinOfSplit(s[1..], sep);
      assert s == [s[0]] + s[1..];
      if s[0] == sep {
        assert Split(s, sep)[1..] == rest;
      } else {
        assert Split(s, sep)[1..] == rest[1..];
      }
    }
  }

  lemma {:induction false} JoinEnds(parts: seq<string>, sep: char)
    requires parts != [] && parts[0] != [] && parts[|parts|-1] != []
    ensures var j := Join(parts, sep); j != [] && j[0] == parts[0][0] && j[|j|-1] == parts[|parts|-1][|parts[|parts|-1]|-1]
  {
    if |parts| > 1 { JoinLast(parts, sep); }
  }

  lemma {:induction false} JoinLast(parts: seq<string>, sep: char)
    requires parts != [] && (parts[|parts|-1] != [] || |parts| > 1)
    ensures var j, last := Join(parts, sep), parts[|parts|-1];
            j != [] && j[|j|-1] == if last == [] then sep else last[|last|-1]
  {
    if |parts| == 2 && parts[1] == [] {
      assert Join(parts[1..], sep) == [];
    } else if |parts| > 1 {
      JoinLast(parts[1..], sep);
    }
  }

  /** A list of non-empty, separator-free entries survives being stored as text. */
  lemma ReadOfJoin(parts: seq<string>, sep: char)
    requires AllFree(parts, sep) && NonEmptyParts(parts)
    ensures ReadList(Join(parts, sep), sep) == parts
  {
    if parts != [] { ReadOfJoinIff(parts, sep); }
  }

  /** Splitting a non-empty text with no separator at its ends gives a first and a last entry that are not empty. */
  lemma SplitEnds(s: string, sep: char)
    requires s != [] && Trimmed(s, Only(sep))
    ensures var parts := Split(s, sep); parts[0] != [] && parts[|parts|-1] != []
  {
    var parts := Split(s, sep);
    JoinOfSplit(s, sep);
    if parts[|parts|-1] == [] && |parts| > 1 { JoinLast(parts, sep); }
  }

  /** A list survives being stored as text if and only if its entries are separator-free and the
      first and the last are not empty. */
  lemma ReadOfJoinIff(parts: seq<string>, sep: char)
    requires parts != []
    ensures ReadList(Join(parts, sep), sep) == parts <==> AllFree(parts, sep) && parts[0] != [] && parts[|parts|-1] != []
  {
    var text := Join(parts, sep);
    if AllFree(parts, sep) && parts[0] != [] && parts[|parts|-1] != [] {
      JoinEnds(parts, sep);
      assert Trimmed(text, Only(sep));
      TrimmedIsFixed(text, Only(sep));
      SplitOfJoinFree(parts, sep);
    } else if ReadList(text, sep) == parts {
      var trimmed := TrimBy(text, Only(sep));
      SplitIsFree(trimmed, sep);
      TrimIsTrimmed(text, Only(sep));
      if trimmed != [] { SplitEnds(trimmed, sep); }
    }
  }
}
