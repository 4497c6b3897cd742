/**
 Finding an Opus file's length from its Ogg pages (getOpusDuration of common/audio.go).
 The page format is that of section 6 of RFC 3533; granule positions count samples at 48 kHz,
 section 4 of RFC 7845.
 */
module OggWalker {

  type Byte = x: int | 0 <= x < 256

  const MAGIC: seq<Byte> := [79, 103, 103, 83]   // "OggS"
  const HEADER := 27
  const TWO_63 := 0x8000_0000_0000_0000
  const TWO_64 := 0x1_0000_0000_0000_0000

  // ---------------------------------------------------------------- little-endian numbers

  function FromLE(bytes: seq<Byte>): nat {
    if bytes == [] then 0 else bytes[0] + 256 * FromLE(bytes[1..])
  }

  function ToLE(n: nat, width: nat): seq<Byte> {
    if width == 0 then [] else [n % 256] + ToLE(n / 256, width - 1)
  }

  function Pow256(k: nat): nat { if k == 0 then 1 else 256 * Pow256(k - 1) }

  predicate Int64(g: int) { -TWO_63 <= g < TWO_63 }

  /** The conversion from uint64 to int64. */
  function Signed(u: nat): int { if u >= TWO_63 then u - TWO_64 else u }

  function Unsigned(g: int): nat
    requires Int64(g)
  {
    if g < 0 then g + TWO_64 else g
  }

  lemma {:induction false} RoundTripLE(n: nat, width: nat)
    requires n < Pow256(width)
    ensures |ToLE(n, width)| == width && FromLE(ToLE(n, width)) == n
    decreases width
  {
    if width > 0 {
      assert n / 256 < Pow256(width - 1);
      RoundTripLE(n / 256, width - 1);
      assert ToLE(n, width)[1..] == ToLE(n / 256, width - 1);
    }
  }

  lemma Pow256Of8()
    ensures Pow256(8) == TWO_64
  {
    assert Pow256(4) == 0x1_0000_0000;
    assert Pow256(8) == 256 * 256 * 256 * 256 * Pow256(4);
  }

  // ---------------------------------------------------------------- what the walker does

  function Sum(lacing: seq<Byte>): nat {
    if lacing == [] then 0 else lacing[0] + Sum(lacing[1..])
  }

  /** Segment by segment, from the end as well. */
  lemma {:induction false} SumAdds(lacing: seq<Byte>, last: Byte)
    ensures Sum(lacing + [last]) == Sum(lacing) + last
  {
    if lacing == [] {
      assert [last][1..] == [] && [] + [last] == [last];
    } else {
      assert (lacing + [last])[1..] == lacing[1..] + [last];
      SumAdds(lacing[1..], last);
    }
  }

  function GranuleAt(rest: seq<Byte>): int
    requires |rest| >= HEADER
  {
    Signed(FromLE(rest[6..14]))
  }

  datatype Visit = Visit(at: nat, granule: int)

  /** The pages recognised in the remaining bytes, `base` being how many came before. */
  function Visits(rest: seq<Byte>, base: nat): seq<Visit>
    decreases |rest|
  {
    if |rest| < HEADER then []
    else if rest[..4] != MAGIC then Visits(rest[1..], base + 1)
    else [Visit(base, GranuleAt(rest))] + AfterHeader(rest, base)
  }

  function AfterHeader(rest: seq<Byte>, base: nat): seq<Visit>
    requires |rest| >= HEADER
    decreases |rest|, 0
  {
    var lacingEnd := HEADER + rest[26];
    if lacingEnd > |rest| then []
    else
      var pageEnd := lacingEnd + Sum(rest[HEADER..lacingEnd]);
      if pageEnd >= |rest| then [] else Visits(rest[pageEnd..], base + pageEnd)
  }

  function Longest(visits: seq<Visit>): int {
    if visits == [] then 0
    else
      var best := Longest(visits[..|visits| - 1]);
      if visits[|visits| - 1].granule > best then visits[|visits| - 1].granule else best
  }

  // ---------------------------------------------------------------- pages

  datatype Page = Page(version: Byte, flags: Byte, granule: int, serialEtc: seq<Byte>, lacing: seq<Byte>, body: seq<Byte>)

  /** serialEtc is the bitstream serial number, page sequence number and checksum. */
  predicate WellFormed(p: Page) {
    && Int64(p.granule)
    && |p.serialEtc| == 12
    && |p.lacing| < 256
    && |p.body| == Sum(p.lacing)
  }

  function Header(p: Page): seq<Byte>
    requires WellFormed(p)
  {
    MAGIC + [p.version, p.flags] + ToLE(Unsigned(p.granule), 8) + p.serialEtc + [|p.lacing|]
  }

  function Encode(p: Page): seq<Byte>
    requires WellFormed(p)
  {
    Header(p) + p.lacing + p.body
  }

  lemma HeaderFacts(p: Page)
    requires WellFormed(p)
    ensures |Header(p)| == HEADER
    ensures Header(p)[..4] == MAGIC && Header(p)[26] == |p.lacing|
    ensures Signed(FromLE(Header(p)[6..14])) == p.granule
  {
    var g := ToLE(Unsigned(p.granule), 8);
    Pow256Of8();
    RoundTripLE(Unsigned(p.granule), 8);
    assert Header(p)[6..14] == g;
  }

  /** A page in front is recognised, and the walk resumes exactly behind it. */
  lemma PageVisited(p: Page, tail: seq<Byte>, base: nat)
    requires WellFormed(p)
    ensures Visits(Encode(p) + tail, base) == [Visit(base, p.granule)] + Visits(tail, base + |Encode(p)|)
  {
    var rest := Encode(p) + tail;
    HeaderFacts(p);
    assert rest[..HEADER] == Header(p);
    assert rest[..4] == Header(p)[..4];
    assert rest[26] == Header(p)[26];
    assert rest[6..14] == Header(p)[6..14];
    var lacingEnd := HEADER + |p.lacing|;
    assert rest[HEADER..lacingEnd] == p.lacing;
    assert rest[|Encode(p)|..] == tail;
  }

  // ---------------------------------------------------------------- bytes between pages

  predicate HasMagicAt(s: seq<Byte>, i: nat) { i + 4 <= |s| && s[i..i + 4] == MAGIC }

  ghost predicate Junk(s: seq<Byte>) { forall i :: 0 <= i < |s| ==> !HasMagicAt(s, i) }

  /** No byte of junk starts a magic number, not even one that reaches into a following page. */
  lemma NoMagicAcross(junk: seq<Byte>, tail: seq<Byte>, i: nat)
    requires Junk(junk) && i < |junk| && (|tail| >= 4 ==> tail[..4] == MAGIC)
    requires |tail| >= 4 || |tail| == 0
    ensures !HasMagicAt(junk + tail, i)
  {
    var s := junk + tail;
    if i + 4 <= |s| {
      if i + 4 <= |junk| {
        assert s[i..i + 4] == junk[i..i + 4];
        assert !HasMagicAt(junk, i);
      } else {
        var k := |junk| - i;
        assert s[i..i + 4][k] == tail[0] == tail[..4][0];
      }
    }
  }

  lemma SliceOfTail(s: seq<Byte>, i: nat)
    requires i + 5 <= |s|
    ensures s[1..][i..i + 4] == s[i + 1..i + 5]
  {}

  lemma JunkTail(junk: seq<Byte>)
    requires Junk(junk) && junk != []
    ensures Junk(junk[1..])
  {
    forall i: nat | i < |junk[1..]| ensures !HasMagicAt(junk[1..], i) {
      assert !HasMagicAt(junk, i + 1);
      if i + 5 <= |junk| { SliceOfTail(junk, i); }
    }
  }

  /** Junk is skipped byte by byte. */
  lemma {:induction false} JunkSkipped(junk: seq<Byte>, tail: seq<Byte>, base: nat)
    requires Junk(junk) && (|tail| >= 4 ==> tail[..4] == MAGIC)
    requires |tail| >= HEADER || |tail| == 0
    ensures Visits(junk + tail, base) == Visits(tail, base + |junk|)
    decreases |junk|
  {
    if junk == [] {
      assert junk + tail == tail;
    } else {
      var rest := junk + tail;
      NoMagicAcross(junk, tail, 0);
      assert rest[1..] == junk[1..] + tail;
      JunkTail(junk);
      JunkSkipped(junk[1..], tail, base + 1);
    }
  }

  // ---------------------------------------------------------------- whole files

  /** A page behind some junk, often none. */
  datatype Piece = Piece(junk: seq<Byte>, page: Page)

  ghost predicate Good(pieces: seq<Piece>) {
    forall i :: 0 <= i < |pieces| ==> WellFormed(pieces[i].page) && Junk(pieces[i].junk)
  }

  ghost function File(pieces: seq<Piece>, end: seq<Byte>): seq<Byte>
    requires Good(pieces)
  {
    if pieces == [] then end else pieces[0].junk + (Encode(pieces[0].page) + File(pieces[1..], end))
  }

  /** Where the pages begin, and what they say. */
  ghost function Pages(pieces: seq<Piece>, base: nat): seq<Visit>
    requires Good(pieces)
    decreases |pieces|
  {
    if pieces == [] then []
    else
      var start := base + |pieces[0].junk|;
      [Visit(start, pieces[0].page.granule)] + Pages(pieces[1..], start + |Encode(pieces[0].page)|)
  }

  lemma PieceVisited(piece: Piece, tail: seq<Byte>, base: nat)
    requires WellFormed(piece.page) && Junk(piece.junk)
    ensures var start := base + |piece.junk|;
            Visits(piece.junk + (Encode(piece.page) + tail), base) ==
            [Visit(start, piece.page.granule)] + Visits(tail, start + |Encode(piece.page)|)
  {
    HeaderFacts(piece.page);
    var page := Encode(piece.page) + tail;
    assert page[..4] == Header(piece.page)[..4];
    JunkSkipped(piece.junk, page, base);
    PageVisited(piece.page, tail, base + |piece.junk|);
  }

  /** Where the last of them ends. */
  ghost function EndOf(pieces: seq<Piece>, base: nat): nat
    requires Good(pieces)
    decreases |pieces|
  {
    if pieces == [] then base else EndOf(pieces[1..], base + |pieces[0].junk| + |Encode(pieces[0].page)|)
  }

  /** The walker visits exactly the page starts, whatever stray bytes lie before and between the pages,
      as long as those contain no magic number, and goes on with whatever is behind them. */
  lemma {:induction false} VisitsBehind(pieces: seq<Piece>, end: seq<Byte>, base: nat)
    requires Good(pieces)
    ensures Visits(File(pieces, end), base) == Pages(pieces, base) + Visits(end, EndOf(pieces, base))
    decreases |pieces|
  {
    if pieces == [] {
      assert [] + Visits(end, base) == Visits(end, base);
    } else {
      var rest, start := pieces[1..], base + |pieces[0].junk|;
      var next := start + |Encode(pieces[0].page)|;
      PieceVisited(pieces[0], File(rest, end), base);
      VisitsBehind(rest, end, next);
      Prepend(Visit(start, pieces[0].page.granule), Pages(rest, next), Visits(end, EndOf(rest, next)));
    }
  }

  lemma Prepend(v: Visit, pages: seq<Visit>, behind: seq<Visit>)
    ensures [v] + (pages + behind) == ([v] + pages) + behind
  {}

  /** So, with stray bytes at the end as well, the pages visited are the pages there. */
  lemma VisitsAreThePages(pieces: seq<Piece>, end: seq<Byte>, base: nat)
    requires Good(pieces) && Junk(end)
    ensures Visits(File(pieces, end), base) == Pages(pieces, base)
  {
    VisitsBehind(pieces, end, base);
    NothingVisited(end, EndOf(pieces, base));
    assert Pages(pieces, base) + [] == Pages(pieces, base);
  }

  lemma CutPage(p: Page, n: nat, base: nat)
    requires WellFormed(p) && n <= |Encode(p)|
    ensures Visits(Encode(p)[..n], base) == if n < 27 then [] else [Visit(base, p.granule)]
  {
    if n >= 27 {
      var rest := Encode(p)[..n];
      HeaderFacts(p);
      assert rest[..27] == Header(p);
      assert rest[..4] == rest[..27][..4] && rest[26] == rest[..27][26] && rest[6..14] == rest[..27][6..14];
      if 27 + |p.lacing| <= n {
        assert Encode(p)[..27 + |p.lacing|] == Header(p) + p.lacing;
        assert rest[27..27 + |p.lacing|] == Encode(p)[..27 + |p.lacing|][27..];
      }
    }
  }

  /** A file cut off inside a page: that page still counts if its first 27 bytes are there. */
  lemma CutFile(pieces: seq<Piece>, last: Page, n: nat)
    requires Good(pieces) && WellFormed(last) && n <= |Encode(last)|
    ensures Visits(File(pieces, Encode(last)[..n]), 0) ==
            Pages(pieces, 0) + if n < 27 then [] else [Visit(EndOf(pieces, 0), last.granule)]
  {
    VisitsBehind(pieces, Encode(last)[..n], 0);
    CutPage(last, n, EndOf(pieces, 0));
  }

  lemma NothingVisited(end: seq<Byte>, base: nat)
    requires Junk(end)
    ensures Visits(end, base) == []
  {
    assert end + [] == end;
    JunkSkipped(end, [], base);
  }

  /** The result is 0 or a granule position, and no granule position is greater. */
  lemma {:induction false} LongestIsMax(visits: seq<Visit>)
    ensures Longest(visits) >= 0
    ensures Longest(visits) == 0 || exists v :: v in visits && v.granule == Longest(visits)
    ensures forall v :: v in visits ==> v.granule <= Longest(visits)
  {
    if visits != [] {
      LongestIsMax(visits[..|visits| - 1]);
      assert visits == visits[..|visits| - 1] + [visits[|visits| - 1]];
    }
  }

  lemma {:induction false} PageGranules(pieces: seq<Piece>, base: nat)
    requires Good(pieces)
    ensures |Pages(pieces, base)| == |pieces|
    ensures forall i :: 0 <= i < |pieces| ==> Pages(pieces, base)[i].granule == pieces[i].page.granule
    decreases |pieces|
  {
    if pieces != [] {
      PageGranules(pieces[1..], base + |pieces[0].junk| + |Encode(pieces[0].page)|);
    }
  }

  /** So the length of a file is the greatest granule position of its pages, and 0 when none is
      positive; pages marked -1, on which no packet ends, never count. */
  lemma FileLength(pieces: seq<Piece>, end: seq<Byte>)
    requires Good(pieces) && Junk(end)
    ensures var total := Longest(Visits(File(pieces, end), 0));
            && total >= 0
            && (forall i :: 0 <= i < |pieces| ==> pieces[i].page.granule <= total)
            && (total == 0 || exists i :: 0 <= i < |pieces| && pieces[i].page.granule == total)
  {
    VisitsAreThePages(pieces, end, 0);
    PageGranules(pieces, 0);
    var pages := Pages(pieces, 0);
    LongestIsMax(pages);
    forall i | 0 <= i < |pieces| ensures pieces[i].page.granule <= Longest(pages) {
      assert pages[i] in pages;
    }
  }

  // ---------------------------------------------------------------- the loop

  method PageSize(lacing: seq<Byte>) returns (size: nat)
    ensures size == Sum(lacing)
  {
    size := 0;
    for i := 0 to |lacing|
      invariant size + Sum(lacing[i..]) == Sum(lacing)
    {
      size := size + lacing[i];
      assert lacing[i..][1..] == lacing[i + 1..];
    }
    assert lacing[|lacing|..] == [];
  }

  lemma LongestAppend(visits: seq<Visit>, v: Visit)
    ensures Longest(visits + [v]) == if v.granule > Longest(visits) then v.granule else Longest(visits)
  {
    assert (visits + [v])[..|visits|] == visits;
  }

  /** Skipping forward; a seek may go past the end. */
  function Skip(rest: seq<Byte>, n: nat): seq<Byte> { if n <= |rest| then rest[n..] else [] }

  lemma Regroup(seen: seq<Visit>, v: Visit, rest: seq<Visit>)
    ensures seen + ([v] + rest) == (seen + [v]) + rest
  {
  }

  /** Behind a recognised header: how far to skip, unless the segment table is cut short. */
  method SkipPage(rest: seq<Byte>, ghost base: nat) returns (more: bool, next: seq<Byte>, ghost at: nat)
    requires |rest| >= HEADER
    ensures |next| < |rest|
    ensures AfterHeader(rest, base) == Pending(more, next, at)
  {
    var n := HEADER + rest[26];
    more := n <= |rest|;
    if more {
      var size := PageSize(rest[HEADER..n]);
      n := n + size;
    }
    next, at := Skip(rest, n), base + n;
  }

  ghost function Pending(more: bool, rest: seq<Byte>, base: nat): seq<Visit> {
    if more then Visits(rest, base) else []
  }

  /** The total the loop reports, the reader being what it still has; every round moves at least one
      byte on. */
  method TotalGranules(data: seq<Byte>) returns (total: int)
    ensures total == Longest(Visits(data, 0))
  {
    total := 0;
    var rest, more := data, true;
    ghost var pos: nat, seen: seq<Visit>, pending := 0, [], Visits(data, 0);
    while more && |rest| >= HEADER
      invariant total == Longest(seen)
      invariant Visits(data, 0) == seen + pending
      invariant pending == Pending(more, rest, pos)
      decreases |rest|
    {
      if rest[..4] != MAGIC {
        rest, pos := rest[1..], pos + 1;
      } else {
        var granule := GranuleAt(rest);
        ghost var v := Visit(pos, granule);
        pending := AfterHeader(rest, pos);
        Regroup(seen, v, pending);
        LongestAppend(seen, v);
        if granule > total { total := granule; }
        seen := seen + [v];
        more, rest, pos := SkipPage(rest, pos);
      }
    }
    assert seen + [] == seen;
  }

  method OpusDuration(data: seq<Byte>) returns (seconds: real)
    ensures seconds == Longest(Visits(data, 0)) as real / 48000.0
  {
    var total := TotalGranules(data);
    seconds := total as real / 48000.0;
  }
}
