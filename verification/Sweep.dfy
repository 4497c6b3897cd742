/**
 The keyset-paged sweep over all enabled channels
 (runChannelUpstreamModelUpdateTaskOnce and its two manual siblings).
 */
module Sweep {

  datatype Channel = Channel(id: int, enabled: bool, checkEnabled: bool)

  /** The channel table, listed by primary key. */
  predicate IsTable(table: seq<Channel>) {
    && (forall i :: 0 <= i < |table| ==> table[i].id > 0)
    && (forall i, j :: 0 <= i < j < |table| ==> table[i].id < table[j].id)
  }

  /** Enabled channels in id order, restricted to ids behind `lastID` when that is positive. */
  function Behind(table: seq<Channel>, lastID: int): seq<Channel> {
    if table == [] then []
    else (if table[0].enabled && (lastID > 0 ==> table[0].id > lastID) then [table[0]] else []) + Behind(table[1..], lastID)
  }

  function Enabled(table: seq<Channel>): seq<Channel> { Behind(table, 0) }

  /** The page query. */
  function Page(table: seq<Channel>, lastID: int, limit: nat): seq<Channel> {
    var rows := Behind(table, lastID);
    if |rows| <= limit then rows else rows[..limit]
  }

  /** The channels among `rows` whose settings ask for the check. */
  function CheckEnabled(rows: seq<Channel>): seq<Channel> {
    if rows == [] then []
    else CheckEnabled(rows[..|rows|-1]) + (if rows[|rows|-1].checkEnabled then [rows[|rows|-1]] else [])
  }

  /** Which they are, once each and in id order. */
  lemma {:induction false} CheckedExact(rows: seq<Channel>)
    requires IsTable(rows)
    ensures IsTable(CheckEnabled(rows))
    ensures forall c :: c in CheckEnabled(rows) <==> c in rows && c.checkEnabled
  {
    if rows != [] {
      var init := rows[..|rows|-1];
      CheckedExact(init);
      assert rows == init + [rows[|rows|-1]];
      forall c | c in CheckEnabled(init) ensures c.id < rows[|rows|-1].id { assert c in init; }
    }
  }

  /** The enabled list holds exactly the enabled channels, in id order. */
  lemma {:induction false} EnabledExact(table: seq<Channel>)
    requires IsTable(table)
    ensures IsTable(Enabled(table))
    ensures forall c :: c in Enabled(table) <==> c in table && c.enabled
  {
    if table != [] {
      EnabledExact(table[1..]);
      assert table == [table[0]] + table[1..];
      forall c | c in Enabled(table[1..]) ensures table[0].id < c.id { assert c in table[1..]; }
    }
  }

  /** Restricting to ids behind the `k`-th enabled channel leaves exactly the channels after it. */
  lemma {:induction false} BehindIsSuffix(table: seq<Channel>, k: nat, lastID: int)
    requires lastID > 0 && k <= |Enabled(table)|
    requires forall i :: 0 <= i < k ==> Enabled(table)[i].id <= lastID
    requires forall i :: k <= i < |Enabled(table)| ==> Enabled(table)[i].id > lastID
    ensures Behind(table, lastID) == Enabled(table)[k..]
  {
    if table != [] {
      var rest := Enabled(table[1..]);
      if table[0].enabled {
        assert Enabled(table) == [table[0]] + rest;
        assert forall i :: 0 <= i < |rest| ==> rest[i] == Enabled(table)[i+1];
        if k == 0 {
          BehindIsSuffix(table[1..], 0, lastID);
          assert table[0] == Enabled(table)[0] && rest[0..] == rest && Enabled(table)[0..] == Enabled(table);
        } else {
          BehindIsSuffix(table[1..], k - 1, lastID);
          assert table[0] == Enabled(table)[0] && Enabled(table)[k..] == rest[k-1..];
        }
      } else {
        assert Enabled(table) == rest;
        BehindIsSuffix(table[1..], k, lastID);
      }
    }
  }

  /** The page after the first `k` enabled channels. */
  lemma PageAfter(table: seq<Channel>, k: nat, lastID: int, limit: nat)
    requires IsTable(table) && k <= |Enabled(table)|
    requires lastID == if k == 0 then 0 else Enabled(table)[k-1].id
    ensures var left := Enabled(table)[k..];
            Page(table, lastID, limit) == if |left| <= limit then left else left[..limit]
  {
    var all := Enabled(table);
    assert k == 0 ==> all[k..] == all;
    assert k > 0 ==> Behind(table, lastID) == all[k..] by {
      if k > 0 {
        EnabledExact(table);
        BehindIsSuffix(table, k, lastID);
      }
    }
  }

  /** Where a sweep stands: the channels visited so far and the last id among them. */
  ghost predicate At(table: seq<Channel>, visited: seq<Channel>, lastID: int) {
    visited <= Enabled(table) && lastID == if visited == [] then 0 else visited[|visited|-1].id
  }

  /** One page moves the sweep on, and a short page ends it. */
  lemma NextPage(table: seq<Channel>, visited: seq<Channel>, lastID: int, limit: nat)
    requires IsTable(table) && At(table, visited, lastID) && limit > 0
    ensures var page := Page(table, lastID, limit);
      && |page| <= limit
      && (|page| < limit ==> visited + page == Enabled(table))
      && (page != [] ==> At(table, visited + page, page[|page|-1].id))
  {
    var all := Enabled(table);
    PageAfter(table, |visited|, lastID, limit);
    assert all == visited + all[|visited|..];
  }

  /** The number of rows in `pages` full pages. */
  function Capacity(pages: nat, batchSize: nat): nat {
    if pages == 0 then 0 else Capacity(pages - 1, batchSize) + batchSize
  }

  /** The sweep: pages until an empty or short page, or a failing query. Over a fixed table it
      visits the enabled channels exactly once each, in id order, with one query more than there
      are full pages; a failing query cuts it down to a whole number of full pages. */
  method Run(table: seq<Channel>, batchSize: nat, queryFails: nat -> bool)
    returns (visited: seq<Channel>, checked: seq<Channel>, queries: nat)
    requires IsTable(table) && batchSize > 0
    ensures (forall q :: !queryFails(q)) ==>
              visited == Enabled(table) && queries > 0
              && Capacity(queries - 1, batchSize) <= |visited| < Capacity(queries, batchSize)
    ensures visited <= Enabled(table) && IsTable(checked)
    ensures forall c :: c in checked <==> c in visited && c.checkEnabled
    ensures visited != Enabled(table) ==>
              queries > 0 && queryFails(queries - 1) && |visited| == Capacity(queries - 1, batchSize)
  {
    visited, checked, queries := [], [], 0;
    var lastID := 0;
    while true
      invariant At(table, visited, lastID) && checked == CheckEnabled(visited)
      invariant |visited| == Capacity(queries, batchSize)
      decreases |Enabled(table)| - |visited|
    {
      queries := queries + 1;
      if queryFails(queries - 1) { break; }
      var page := Page(table, lastID, batchSize);
      NextPage(table, visited, lastID, batchSize);
      if |page| == 0 {
        assert visited + page == visited;
        break;
      }
      lastID := page[|page|-1].id;
      visited, checked := Visit(visited, checked, page);
      if |page| < batchSize { break; }
    }
    EnabledExact(table);
    CheckedExact(visited);
  }

  /** The inner loop over one page. */
  method Visit(visited: seq<Channel>, checked: seq<Channel>, page: seq<Channel>)
    returns (visited': seq<Channel>, checked': seq<Channel>)
    requires checked == CheckEnabled(visited)
    ensures visited' == visited + page && checked' == CheckEnabled(visited')
  {
    visited', checked' := visited, checked;
    for i := 0 to |page|
      invariant visited' == visited + page[..i] && checked' == CheckEnabled(visited')
    {
      assert page[..i+1] == page[..i] + [page[i]];
      visited' := visited' + [page[i]];
      assert visited'[..|visited'|-1] == visited + page[..i];
      if page[i].checkEnabled { checked' := checked' + [page[i]]; }
    }
    assert page[..|page|] == page;
  }
}
