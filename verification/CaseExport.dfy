/**
 * Keyset paging over cases by (submittedAt, id), newest first, and the export that walks
 * the pages while other requests insert cases.
 */
module CaseExport {
  import opened Prelude

  /** The paging key of one case; the id makes it unique. */
  datatype CaseKey = CaseKey(submittedAt: int, id: int)

  predicate Before(a: CaseKey, b: CaseKey) {
    a.submittedAt < b.submittedAt || (a.submittedAt == b.submittedAt && a.id < b.id)
  }

  /** The cursor condition of the page query. */
  predicate PastCursor(k: CaseKey, cursor: Option<CaseKey>) {
    cursor.None? || Before(k, cursor.value)
  }

  ghost predicate Descending(s: seq<CaseKey>) {
    forall i, j :: 0 <= i < j < |s| ==> Before(s[j], s[i])
  }

  ghost function Elements(s: seq<CaseKey>): set<CaseKey> {
    set k | k in s
  }

  ghost function Remaining(table: set<CaseKey>, cursor: Option<CaseKey>): set<CaseKey> {
    set k | k in table && PastCursor(k, cursor)
  }

  /** What `ORDER BY submittedAt DESC, id DESC LIMIT limit` returns behind the cursor. */
  ghost predicate IsPage(table: set<CaseKey>, cursor: Option<CaseKey>, limit: nat, rows: seq<CaseKey>) {
    Descending(rows) && Elements(rows) <= Remaining(table, cursor) && |rows| <= limit &&
    (|rows| < limit ==> Elements(rows) == Remaining(table, cursor)) &&
    forall k, r :: k in Remaining(table, cursor) && k !in rows && r in rows ==> Before(k, r)
  }

  lemma {:induction false} NewestExists(s: set<CaseKey>)
    requires s != {}
    ensures exists k :: k in s && forall o :: o in s && o != k ==> Before(o, k)
  {
    var k :| k in s;
    if s - {k} != {} {
      NewestExists(s - {k});
      var m :| m in s - {k} && forall o :: o in s - {k} && o != m ==> Before(o, m);
      var newest := if Before(k, m) then m else k;
      forall o | o in s && o != newest ensures Before(o, newest) {
        assert o == k || o in s - {k};
      }
    } else {
      assert s == {k};
    }
  }

  method QueryPage(table: set<CaseKey>, cursor: Option<CaseKey>, limit: nat) returns (rows: seq<CaseKey>)
    ensures IsPage(table, cursor, limit, rows)
  {
    rows := [];
    var rest := set k | k in table && PastCursor(k, cursor);
    while |rows| < limit && rest != {}
      invariant |rows| <= limit && Descending(rows)
      invariant Elements(rows) + rest == Remaining(table, cursor)
      invariant forall k, r :: k in rest && r in rows ==> Before(k, r)
      decreases rest
    {
      NewestExists(rest);
      var newest :| newest in rest && forall o :: o in rest && o != newest ==> Before(o, newest);
      assert Elements(rows + [newest]) == Elements(rows) + {newest};
      rows := rows + [newest];
      rest := rest - {newest};
    }
  }

  /**
   * One page. `table` is what the page query sees and `later` what the look-ahead query,
   * a separate statement, sees.
   */
  method ListCases(table: set<CaseKey>, later: set<CaseKey>, limit: nat, cursor: Option<CaseKey>)
    returns (rows: seq<CaseKey>, nextCursor: Option<CaseKey>)
    ensures IsPage(table, cursor, limit, rows)
    ensures nextCursor.Some? ==> rows != [] && nextCursor.value == rows[|rows| - 1]
    ensures nextCursor.Some? <==>
      |rows| == limit > 0 && Remaining(Remaining(later, cursor), Some(rows[|rows| - 1])) != {}
  {
    rows := QueryPage(table, cursor, limit);
    nextCursor := None;
    if |rows| == limit && |rows| > 0 {
      var last := rows[|rows| - 1];
      var lookahead := set k | k in later && PastCursor(k, cursor) && Before(k, last);
      assert lookahead == Remaining(Remaining(later, cursor), Some(last));
      if lookahead != {} {
        nextCursor := Some(last);
      }
    }
  }

  lemma DescendingAppend(s: seq<CaseKey>, t: seq<CaseKey>, cursor: Option<CaseKey>)
    requires Descending(s) && Descending(t)
    requires s != [] ==> cursor == Some(s[|s| - 1])
    requires forall k :: k in t ==> PastCursor(k, cursor)
    ensures Descending(s + t) && Elements(s + t) == Elements(s) + Elements(t)
  {
    forall i, j | 0 <= i < j < |s + t| ensures Before((s + t)[j], (s + t)[i]) {
      if i < |s| <= j {
        assert (s + t)[j] in t;
        assert i == |s| - 1 || Before(s[|s| - 1], s[i]);
      }
    }
  }

  /** Two strictly descending listings of the same cases are the same listing. */
  lemma {:induction false} DescendingIsUnique(s: seq<CaseKey>, t: seq<CaseKey>)
    requires Descending(s) && Descending(t) && Elements(s) == Elements(t)
    ensures s == t
    decreases |s|
  {
    if s == [] {
      assert Elements(t) == {};
      EmptyListing(t);
    } else {
      assert s[0] in Elements(t) && t != [] && t[0] in Elements(s);
      assert s[0] == t[0];
      assert forall k :: k in s[1..] <==> k in s && k != s[0] by { DropHead(s); }
      assert forall k :: k in t[1..] <==> k in t && k != t[0] by { DropHead(t); }
      forall k ensures k in s[1..] <==> k in t[1..] {
        assert k in Elements(s) <==> k in Elements(t);
      }
      assert Elements(s[1..]) == Elements(t[1..]);
      DescendingIsUnique(s[1..], t[1..]);
    }
  }

  lemma EmptyListing(s: seq<CaseKey>)
    ensures s != [] ==> Elements(s) != {}
  {
    if s != [] {
      assert s[0] in Elements(s);
    }
  }

  lemma DropHead(s: seq<CaseKey>)
    requires Descending(s) && s != []
    ensures forall k :: k in s[1..] <==> k in s && k != s[0]
  {
    assert s == [s[0]] + s[1..];
    forall k | k in s[1..] ensures k != s[0] {
      var i :| 0 <= i < |s[1..]| && s[1..][i] == k;
      assert Before(s[i + 1], s[0]);
    }
  }

  /**
   * The export. `world(i)` is the table as the i-th query sees it: cases are only ever
   * added, and finitely many in all. The walk ends, moves strictly downward, never repeats
   * a case, invents none, and misses none that was there from the start; on a table that
   * nobody touches it is exactly the plain listing, whatever the page size.
   */
  method ExportCases(world: nat -> set<CaseKey>, ghost universe: set<CaseKey>, pageSize: nat)
    returns (exported: seq<CaseKey>, queries: nat)
    requires pageSize >= 1
    requires forall i: nat, j: nat :: i <= j ==> world(i) <= world(j)
    requires forall i: nat :: world(i) <= universe
    ensures Descending(exported)
    ensures queries > 0 && world(0) <= Elements(exported) <= world(queries - 1)
    ensures world(0) == world(queries - 1) ==>
      forall listing :: Descending(listing) && Elements(listing) == world(0) ==> exported == listing
  {
    exported := [];
    queries := 0;
    var cursor: Option<CaseKey> := None;
    while true
      invariant Descending(exported)
      invariant exported == [] ==> cursor.None?
      invariant exported != [] ==> cursor == Some(exported[|exported| - 1])
      invariant world(0) <= Elements(exported) + Remaining(world(0), cursor)
      invariant queries > 0 ==> Elements(exported) <= world(queries - 1)
      invariant queries == 0 ==> exported == []
      decreases Remaining(universe, cursor)
    {
      var rows, nextCursor := ListCases(world(queries), world(queries + 1), pageSize, cursor);
      assert world(0) <= world(queries) <= world(queries + 1);
      forall k | k in rows ensures PastCursor(k, cursor) {
        assert k in Elements(rows);
      }
      ghost var previous := exported;
      DescendingAppend(exported, rows, cursor);
      exported := exported + rows;
      queries := queries + 2;
      PageCovers(world(queries - 2), world(0), cursor, pageSize, rows);
      if nextCursor.None? {
        LastPage(world(0), world(queries - 2), world(queries - 1), cursor, pageSize, rows);
        break;
      }
      assert nextCursor.value in Elements(rows);
      assert nextCursor.value in Remaining(universe, cursor);
      assert Remaining(universe, nextCursor) < Remaining(universe, cursor);
      cursor := nextCursor;
    }
    forall listing | world(0) == world(queries - 1) && Descending(listing) && Elements(listing) == world(0)
      ensures exported == listing
    {
      DescendingIsUnique(exported, listing);
    }
  }

  /** After a page, an old case is on the page or still ahead of its last row. */
  lemma PageCovers(table: set<CaseKey>, old0: set<CaseKey>, cursor: Option<CaseKey>, limit: nat, rows: seq<CaseKey>)
    requires old0 <= table && limit >= 1 && IsPage(table, cursor, limit, rows)
    ensures rows != [] ==> Remaining(old0, cursor) <= Elements(rows) + Remaining(old0, Some(rows[|rows| - 1]))
    ensures |rows| < limit ==> Remaining(old0, cursor) <= Elements(rows)
  {
    forall k | k in Remaining(old0, cursor) && k !in Elements(rows) && rows != []
      ensures Before(k, rows[|rows| - 1])
    {
      assert k in Remaining(table, cursor) && rows[|rows| - 1] in rows;
    }
  }

  lemma LastPage(
      old0: set<CaseKey>, table: set<CaseKey>, later: set<CaseKey>, cursor: Option<CaseKey>, limit: nat,
      rows: seq<CaseKey>)
    requires old0 <= table <= later && limit >= 1 && IsPage(table, cursor, limit, rows)
    requires !(|rows| == limit && Remaining(Remaining(later, cursor), Some(rows[|rows| - 1])) != {})
    ensures Remaining(old0, cursor) <= Elements(rows)
  {
    PageCovers(table, old0, cursor, limit, rows);
    if |rows| == limit {
      var last := rows[|rows| - 1];
      assert Remaining(Remaining(later, cursor), Some(last)) == {};
      forall k | k in Remaining(old0, cursor) ensures k in Elements(rows) {
        assert k in Remaining(later, cursor);
        assert k !in Remaining(Remaining(later, cursor), Some(last));
        assert !PastCursor(k, Some(last));
      }
    }
  }
}
