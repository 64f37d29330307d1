/** When cutting each type to its own best rows first costs nothing: whether a search returns the front of all
    hits in its own order. */
module SearchFront {
  import opened Wrappers
  import opened Text
  import opened Search

  // ----- when the result is the front of all hits in its own order

  /** At the type's cut, rows of one rounded rank are both kept and dropped. */
  ghost predicate TiedAtCut(found: Found, n: nat, v: int) {
    var sorted := SortBy(SqlLeq, found.rows);
    exists i, j :: 0 <= i < n <= j < |sorted| && RowRank(sorted[i]) == v == RowRank(sorted[j])
  }

  /** Where a type is cut at a tie, there are enough better hits for the result without the tied ones. */
  ghost predicate NoTieReached(types: seq<Found>, n: nat) {
    forall found, v | found in types && TiedAtCut(found, n, v) :: Count(HitRank, AllHits(types), v + 1) >= n
  }

  /** No row is dropped at a tie whose hit does not come after `c`. */
  ghost predicate NoTieUpTo(downcase: string -> string, found: Found, n: nat, c: Hit) {
    forall j | n <= j < |SortBy(SqlLeq, found.rows)|
               && ByKey(downcase)(FormatResult(found.kind, SortBy(SqlLeq, found.rows)[j]), c) ::
      !TiedAtCut(found, n, RowRank(SortBy(SqlLeq, found.rows)[j]))
  }

  /** One for the hits not after `c`. */
  function NotAfter<T>(leq: (T, T) -> bool, c: T): T -> int { x => if leq(x, c) then 1 else 0 }

  lemma {:induction false} NoneCounted<T>(rank: T -> int, s: seq<T>, v: int)
    requires forall x | x in s :: rank(x) < v
    ensures Count(rank, s, v) == 0
  {
    if s != [] {
      assert s[|s| - 1] in s && forall x | x in s[..|s| - 1] :: x in s;
      NoneCounted(rank, s[..|s| - 1], v);
    }
  }

  lemma CutBelow(sorted: seq<Row>, i: nat, j: nat)
    requires SortedBy(SqlLeq, sorted) && i < j < |sorted| && RowRank(sorted[i]) != RowRank(sorted[j])
    ensures RowRank(sorted[i]) > RowRank(sorted[j])
  {
    assert SqlLeq(sorted[i], sorted[j]);
    RoundingKeepsOrder(sorted[j].rank, sorted[i].rank);
  }

  /** The rows a cut drops. */
  function Dropped<T>(s: seq<T>, n: nat): seq<T> { if |s| <= n then [] else s[n..] }

  lemma FormattedParts(kind: string, rows: seq<Row>, n: nat)
    ensures FormatAll(kind, First(rows, n)) + FormatAll(kind, Dropped(rows, n)) == FormatAll(kind, rows)
  {
    hide RoundRank;
    assert First(rows, n) + Dropped(rows, n) == rows;
  }

  lemma CutHitsBelow(found: Found, n: nat, i: nat, j: nat)
    requires
      var sorted := SortBy(SqlLeq, found.rows);
      i < |First(sorted, n)| && j < |Dropped(sorted, n)| && !TiedAtCut(found, n, RowRank(sorted[n + j]))
    ensures
      var sorted := SortBy(SqlLeq, found.rows);
      FormatAll(found.kind, First(sorted, n))[i].rank > FormatAll(found.kind, Dropped(sorted, n))[j].rank
  {
    SqlTotal();
    SortBySorts(SqlLeq, found.rows);
    var sorted := SortBy(SqlLeq, found.rows);
    assert RowRank(sorted[i]) != RowRank(sorted[n + j]);
    CutBelow(sorted, i, n + j);
    hide SortBy, TotalOrder, SortedBy, TiedAtCut, RoundRank;
  }

  function CutHits(found: Found, n: nat): seq<Hit> { FormatAll(found.kind, Dropped(SortBy(SqlLeq, found.rows), n)) }

  lemma TypeCounted(f: Hit -> int, found: Found, n: nat)
    ensures Count(f, FormatAll(found.kind, found.rows), 1)
        == Count(f, SearchType(found, n), 1) + Count(f, CutHits(found, n), 1)
  {
    SqlTotal();
    SortBySorts(SqlLeq, found.rows);
    var sorted := SortBy(SqlLeq, found.rows);
    FormatPermuted(found.kind, sorted, found.rows);
    FormattedParts(found.kind, sorted, n);
    hide SortBy, TotalOrder, SortedBy, FormatAll, Count;
    CountPermuted(f, FormatAll(found.kind, sorted), FormatAll(found.kind, found.rows), 1);
    CountConcat(f, SearchType(found, n), CutHits(found, n), 1);
  }

  lemma TypeNotAfter(downcase: string -> string, found: Found, n: nat, c: Hit)
    requires NoTieUpTo(downcase, found, n, c)
    ensures
      var f := NotAfter(ByKey(downcase), c);
      Min(n, Count(f, SearchType(found, n), 1)) == Min(n, Count(f, FormatAll(found.kind, found.rows), 1))
  {
    var f, cut := NotAfter(ByKey(downcase), c), CutHits(found, n);
    TypeCounted(f, found, n);
    if j: nat :| j < |cut| && ByKey(downcase)(cut[j], c) {
      KeptNotAfter(downcase, found, n, c, j);
    } else {
      hide SortBy, NoTieUpTo, ByKey, CutHits, SearchType;
      forall x | x in cut
        ensures f(x) < 1
      {
        var k: nat :| k < |cut| && cut[k] == x;
      }
      NoneCounted(f, cut, 1);
    }
  }

  /** If a dropped hit does not come after `c`, no kept one does. */
  lemma KeptNotAfter(downcase: string -> string, found: Found, n: nat, c: Hit, j: nat)
    requires NoTieUpTo(downcase, found, n, c) && j < |Dropped(SortBy(SqlLeq, found.rows), n)|
    requires ByKey(downcase)(FormatAll(found.kind, Dropped(SortBy(SqlLeq, found.rows), n))[j], c)
    ensures
      var kept := SearchType(found, n);
      |kept| == n && Count(NotAfter(ByKey(downcase), c), kept, 1) == n
  {
    var f, sorted, kept := NotAfter(ByKey(downcase), c), SortBy(SqlLeq, found.rows), SearchType(found, n);
    var y := FormatAll(found.kind, Dropped(sorted, n))[j];
    assert y == FormatResult(found.kind, sorted[n + j]) && !TiedAtCut(found, n, RowRank(sorted[n + j]));
    ByKeyTotal(downcase);
    forall i: nat | i < |kept|
      ensures f(kept[i]) >= 1
    {
      CutHitsBelow(found, n, i, j);
      assert ByKey(downcase)(kept[i], y) && ByKey(downcase)(y, c);
    }
    hide SortBy, TotalOrder, NoTieUpTo, ByKey;
    CountBounds(f, kept, 1);
  }

  lemma {:induction false} MergeNotAfter(downcase: string -> string, types: seq<Found>, n: nat, c: Hit)
    requires forall found | found in types :: NoTieUpTo(downcase, found, n, c)
    ensures
      var f := NotAfter(ByKey(downcase), c);
      Min(n, Count(f, Merge(types, n), 1)) == Min(n, Count(f, AllHits(types), 1))
  {
    if types != [] {
      var f, init, last := NotAfter(ByKey(downcase), c), types[..|types| - 1], types[|types| - 1];
      assert last in types && forall found | found in init :: found in types;
      MergeNotAfter(downcase, init, n, c);
      TypeNotAfter(downcase, last, n, c);
      hide NoTieUpTo, SearchType, NotAfter, ByKey, Count;
      CountConcat(f, Merge(init, n), SearchType(last, n), 1);
      CountConcat(f, AllHits(init), FormatAll(last.kind, last.rows), 1);
    }
  }

  lemma {:induction false} CountImplied(f: Hit -> int, s: seq<Hit>, v: int)
    requires forall x: Hit | x.rank >= v :: f(x) >= 1
    ensures Count(f, s, 1) >= Count(HitRank, s, v)
  {
    if s != [] {
      CountImplied(f, s[..|s| - 1], v);
    }
  }

  /** Up to `n`, cutting loses no hit that does not come after `c`. */
  lemma CutsNotAfter(downcase: string -> string, types: seq<Found>, n: nat, c: Hit)
    requires NoTieReached(types, n)
    ensures
      var f := NotAfter(ByKey(downcase), c);
      Min(n, Count(f, Merge(types, n), 1)) == Min(n, Count(f, AllHits(types), 1))
  {
    hide NoTieUpTo, Merge, AllHits, Count, ByKey;
    if forall found | found in types :: NoTieUpTo(downcase, found, n, c) {
      MergeNotAfter(downcase, types, n, c);
    } else {
      var found :| found in types && !NoTieUpTo(downcase, found, n, c);
      var v := TieFound(downcase, found, n, c);
      hide TiedAtCut;
      EnoughBetter(downcase, types, n, c, v);
    }
  }

  lemma TieFound(downcase: string -> string, found: Found, n: nat, c: Hit) returns (v: int)
    requires !NoTieUpTo(downcase, found, n, c)
    ensures TiedAtCut(found, n, v) && c.rank <= v
  {
    var sorted := SortBy(SqlLeq, found.rows);
    hide SortBy, TiedAtCut, StringLeq, Downcased, RoundRank;
    var j :| n <= j < |sorted| && ByKey(downcase)(FormatResult(found.kind, sorted[j]), c)
      && TiedAtCut(found, n, RowRank(sorted[j]));
    v := RowRank(sorted[j]);
  }

  /** With enough hits above the rank of `c` neither list has fewer than `n` that come no later. */
  lemma EnoughBetter(downcase: string -> string, types: seq<Found>, n: nat, c: Hit, v: int)
    requires c.rank <= v && Count(HitRank, AllHits(types), v + 1) >= n
    ensures
      var f := NotAfter(ByKey(downcase), c);
      Min(n, Count(f, Merge(types, n), 1)) == n == Min(n, Count(f, AllHits(types), 1))
  {
    hide Merge, AllHits, Count, StringLeq, Downcased;
    var f := NotAfter(ByKey(downcase), c);
    assert forall x: Hit | x.rank >= v + 1 :: f(x) >= 1;
    MergeCount(types, n, v + 1);
    CountImplied(f, Merge(types, n), v + 1);
    CountImplied(f, AllHits(types), v + 1);
  }

  lemma NotAfterDescends<T(!new)>(leq: (T, T) -> bool, s: seq<T>, c: T)
    requires TotalOrder(leq) && SortedBy(leq, s)
    ensures Descending(NotAfter(leq, c), s)
  {
    forall j, k | 0 <= j < k < |s|
      ensures NotAfter(leq, c)(s[j]) >= NotAfter(leq, c)(s[k])
    {
      assert leq(s[j], s[k]);
    }
  }

  /** Two sorted lists with as many elements, up to `n`, not after each one: the first does not come later. */
  lemma FrontNotAfter<T(!new)>(leq: (T, T) -> bool, s: seq<T>, t: seq<T>, n: nat, i: nat)
    requires TotalOrder(leq) && SortedBy(leq, s) && SortedBy(leq, t) && i < n && i < |s|
    requires Min(n, Count(NotAfter(leq, s[i]), s, 1)) == Min(n, Count(NotAfter(leq, s[i]), t, 1))
    ensures i < |t| && leq(t[i], s[i])
  {
    NotAfterDescends(leq, s, s[i]);
    NotAfterDescends(leq, t, s[i]);
    PositionByCount(NotAfter(leq, s[i]), s, 1, i);
    PositionByCount(NotAfter(leq, s[i]), t, 1, i);
  }

  /** The result is the front of the other list, as far as the order can tell. */
  predicate KeysAgree(downcase: string -> string, result: seq<Hit>, best: seq<Hit>, n: nat) {
    && |result| == |First(best, n)|
    && forall i | 0 <= i < |result| ::
         && result[i].rank == best[i].rank && result[i].id == best[i].id
         && Downcased(downcase, result[i].title) == Downcased(downcase, best[i].title)
  }

  /** When no tie at a type's cut is reached the result is, key by key, the front of all hits in its own order. */
  lemma FrontOfAllHits(downcase: string -> string, types: seq<Found>, limit: int, result: seq<Hit>, best: seq<Hit>)
    requires Returns(downcase, types, limit, result) && SortOf(ByKey(downcase), best, AllHits(types))
    requires NoTieReached(types, NormalizeLimit(limit))
    ensures KeysAgree(downcase, result, best, NormalizeLimit(limit))
  {
    hide NoTieReached, SortOf, Downcased, HitLeq;
    SortedLength(ByKey(downcase), best, AllHits(types));
    NoneOutranks(downcase, types, limit, result);
    forall i: nat | i < |result|
      ensures
        && result[i].rank == best[i].rank && result[i].id == best[i].id
        && Downcased(downcase, result[i].title) == Downcased(downcase, best[i].title)
    {
      FrontAt(downcase, types, limit, result, best, i);
    }
  }

  lemma FrontAt(downcase: string -> string, types: seq<Found>, limit: int, result: seq<Hit>, best: seq<Hit>, i: nat)
    requires Returns(downcase, types, limit, result) && SortOf(ByKey(downcase), best, AllHits(types))
    requires NoTieReached(types, NormalizeLimit(limit)) && i < |result| == |First(best, NormalizeLimit(limit))|
    ensures result[i].rank == best[i].rank && result[i].id == best[i].id
    ensures Downcased(downcase, result[i].title) == Downcased(downcase, best[i].title)
  {
    var n, leq := NormalizeLimit(limit), ByKey(downcase);
    var sorted :| SortOf(leq, sorted, Merge(types, n)) && result == First(sorted, n);
    ByKeyTotal(downcase);
    hide TotalOrder, Count, Merge, AllHits, HitLeq, NoTieReached;
    CutsNotAfter(downcase, types, n, sorted[i]);
    CutsNotAfter(downcase, types, n, best[i]);
    CountPermuted(NotAfter(leq, sorted[i]), sorted, Merge(types, n), 1);
    CountPermuted(NotAfter(leq, sorted[i]), best, AllHits(types), 1);
    CountPermuted(NotAfter(leq, best[i]), sorted, Merge(types, n), 1);
    CountPermuted(NotAfter(leq, best[i]), best, AllHits(types), 1);
    assert result[i] == sorted[i];
    FrontNotAfter(leq, sorted, best, n, i);
    FrontNotAfter(leq, best, sorted, n, i);
    SameKey(downcase, result[i], best[i]);
  }

  lemma SameKey(downcase: string -> string, a: Hit, b: Hit)
    requires ByKey(downcase)(a, b) && ByKey(downcase)(b, a)
    ensures a.rank == b.rank && Downcased(downcase, a.title) == Downcased(downcase, b.title) && a.id == b.id
  {
    StringLeqAntisymmetric(Downcased(downcase, a.title), Downcased(downcase, b.title));
    hide StringLeq, Downcased;
  }

  lemma SortedLength<T(!new)>(leq: (T, T) -> bool, sorted: seq<T>, s: seq<T>)
    requires SortOf(leq, sorted, s)
    ensures |sorted| == |s|
  {
    assert |multiset(sorted)| == |sorted| && |multiset(s)| == |s|;
  }

  // ----- when it is, whatever the titles

  function Titled(rows: seq<Row>, k: nat, titles: (nat, int) -> string): (r: seq<Row>)
    ensures |r| == |rows| && forall i | 0 <= i < |rows| :: r[i] == rows[i].(title := Some(titles(k, rows[i].id)))
  {
    seq(|rows|, i requires 0 <= i < |rows| => rows[i].(title := Some(titles(k, rows[i].id))))
  }

  /** The same matches under other titles, by type and id. */
  function WithTitles(types: seq<Found>, titles: (nat, int) -> string): (r: seq<Found>)
    ensures
      |r| == |types| && forall k | 0 <= k < |types| :: r[k] == Found(types[k].kind, Titled(types[k].rows, k, titles))
  {
    seq(|types|, k requires 0 <= k < |types| => Found(types[k].kind, Titled(types[k].rows, k, titles)))
  }

  /** However the matches are titled, every result is the front of all hits in their own order. */
  ghost predicate AlwaysFront(downcase: string -> string, types: seq<Found>, limit: int) {
    forall titles: (nat, int) -> string, result: seq<Hit>, best: seq<Hit> |
      Returns(downcase, WithTitles(types, titles), limit, result)
      && SortOf(ByKey(downcase), best, AllHits(WithTitles(types, titles))) ::
      KeysAgree(downcase, result, best, NormalizeLimit(limit))
  }

  predicate UniqueIds(rows: seq<Row>) { forall i, j | 0 <= i < j < |rows| :: rows[i].id != rows[j].id }

  lemma {:induction false} InsertTitled(x: Row, s: seq<Row>, k: nat, titles: (nat, int) -> string)
    ensures
      Insert(SqlLeq, x.(title := Some(titles(k, x.id))), Titled(s, k, titles))
      == Titled(Insert(SqlLeq, x, s), k, titles)
  {
    if s != [] {
      assert Titled(s, k, titles)[1..] == Titled(s[1..], k, titles);
      InsertTitled(x, s[1..], k, titles);
    }
  }

  /** The database's order does not look at titles. */
  lemma {:induction false} SortTitled(rows: seq<Row>, k: nat, titles: (nat, int) -> string)
    ensures SortBy(SqlLeq, Titled(rows, k, titles)) == Titled(SortBy(SqlLeq, rows), k, titles)
  {
    if rows != [] {
      assert Titled(rows, k, titles)[1..] == Titled(rows[1..], k, titles);
      SortTitled(rows[1..], k, titles);
      InsertTitled(rows[0], SortBy(SqlLeq, rows[1..]), k, titles);
    }
  }

  lemma {:induction false} CountTitled(rows: seq<Row>, k: nat, titles: (nat, int) -> string, v: int)
    ensures Count(RowRank, Titled(rows, k, titles), v) == Count(RowRank, rows, v)
  {
    if rows != [] {
      assert Titled(rows, k, titles)[..|rows| - 1] == Titled(rows[..|rows| - 1], k, titles);
      CountTitled(rows[..|rows| - 1], k, titles, v);
    }
  }

  lemma {:induction false} CountAllTitled(types: seq<Found>, titles: (nat, int) -> string, v: int)
    ensures Count(HitRank, AllHits(WithTitles(types, titles)), v) == Count(HitRank, AllHits(types), v)
  {
    if types != [] {
      var init, k := types[..|types| - 1], |types| - 1;
      var last, last' := types[k], WithTitles(types, titles)[k];
      assert WithTitles(types, titles)[..k] == WithTitles(init, titles);
      CountAllTitled(init, titles, v);
      CountFormatted(last.kind, last.rows, v);
      CountFormatted(last'.kind, last'.rows, v);
      CountTitled(last.rows, k, titles, v);
      hide Count, AllHits;
      AllHitsLast(types);
      AllHitsLast(WithTitles(types, titles));
      CountConcat(HitRank, AllHits(init), FormatAll(last.kind, last.rows), v);
      CountConcat(HitRank, AllHits(WithTitles(init, titles)), FormatAll(last'.kind, last'.rows), v);
    }
  }

  lemma AllHitsLast(types: seq<Found>)
    requires types != []
    ensures
      var last := types[|types| - 1];
      AllHits(types) == AllHits(types[..|types| - 1]) + FormatAll(last.kind, last.rows)
  {
  }

  lemma TiedTitled(types: seq<Found>, titles: (nat, int) -> string, k: nat, n: nat, v: int)
    requires k < |types|
    ensures TiedAtCut(WithTitles(types, titles)[k], n, v) <==> TiedAtCut(types[k], n, v)
  {
    SortTitled(types[k].rows, k, titles);
    hide SortBy;
    var sorted, sorted' := SortBy(SqlLeq, types[k].rows), SortBy(SqlLeq, WithTitles(types, titles)[k].rows);
    assert forall i | 0 <= i < |sorted| :: RowRank(sorted'[i]) == RowRank(sorted[i]);
  }

  lemma ReachedTitled(types: seq<Found>, titles: (nat, int) -> string, n: nat)
    requires NoTieReached(types, n)
    ensures NoTieReached(WithTitles(types, titles), n)
  {
    hide TiedAtCut, Count, AllHits;
    forall found, v | found in WithTitles(types, titles) && TiedAtCut(found, n, v)
      ensures Count(HitRank, AllHits(WithTitles(types, titles)), v + 1) >= n
    {
      var k: nat :| k < |types| && WithTitles(types, titles)[k] == found;
      TiedTitled(types, titles, k, n, v);
      CountAllTitled(types, titles, v + 1);
    }
  }

  lemma {:induction false} AllHitsAre(types: seq<Found>, p: Hit -> bool)
    requires forall found, r | found in types && r in found.rows :: p(FormatResult(found.kind, r))
    ensures forall x | x in AllHits(types) :: p(x)
  {
    if types != [] {
      var init, last := types[..|types| - 1], types[|types| - 1];
      assert last in types && forall found | found in init :: found in types;
      AllHitsAre(init, p);
    }
  }

  lemma {:induction false} MergedAre(types: seq<Found>, n: nat, p: Hit -> bool)
    requires
      forall found, r | found in types && r in First(SortBy(SqlLeq, found.rows), n) :: p(FormatResult(found.kind, r))
    ensures forall x | x in Merge(types, n) :: p(x)
  {
    if types != [] {
      var init, last := types[..|types| - 1], types[|types| - 1];
      assert last in types && forall found | found in init :: found in types;
      hide SortBy, First;
      MergedAre(init, n, p);
    }
  }

  lemma {:induction false} IdOnce(rows: seq<Row>, id: int)
    requires UniqueIds(rows)
    ensures Count((r: Row) => if r.id == id then 1 else 0, rows, 1) <= 1
  {
    var f := (r: Row) => if r.id == id then 1 else 0;
    if rows != [] {
      var init, last := rows[..|rows| - 1], rows[|rows| - 1];
      IdOnce(init, id);
      if last.id == id {
        NoneCounted(f, init, 1);
      }
    }
  }

  lemma {:induction false} CountTwo(f: Row -> int, s: seq<Row>, i: nat, j: nat)
    requires i < j < |s| && f(s[i]) >= 1 && f(s[j]) >= 1
    ensures Count(f, s, 1) >= 2
  {
    var init := s[..|s| - 1];
    if j == |s| - 1 {
      if Count(f, init, 1) == 0 {
        CountOne(f, init, i);
      }
    } else {
      CountTwo(f, init, i, j);
    }
  }

  lemma {:induction false} CountOne(f: Row -> int, s: seq<Row>, i: nat)
    requires i < |s| && f(s[i]) >= 1
    ensures Count(f, s, 1) >= 1
  {
    if i < |s| - 1 {
      CountOne(f, s[..|s| - 1], i);
    }
  }

  lemma SortedUnique(rows: seq<Row>)
    requires UniqueIds(rows)
    ensures UniqueIds(SortBy(SqlLeq, rows))
  {
    SqlTotal();
    SortBySorts(SqlLeq, rows);
    hide SortBy, Count;
    var sorted := SortBy(SqlLeq, rows);
    forall i, j | 0 <= i < j < |sorted|
      ensures sorted[i].id != sorted[j].id
    {
      var f := (r: Row) => if r.id == sorted[j].id then 1 else 0;
      IdOnce(rows, sorted[j].id);
      CountPermuted(f, rows, sorted, 1);
      if sorted[i].id == sorted[j].id {
        CountTwo(f, sorted, i, j);
      }
    }
  }

  /** One row of type `k` under one title, all others under another. */
  function Promote(k: nat, id: int, lo: string, hi: string): (nat, int) -> string {
    (m, i) => if m == k && i == id then lo else hi
  }

  lemma SameRow(rows: seq<Row>, a: Row, b: Row)
    requires UniqueIds(rows) && a in rows && b in rows && a.id == b.id
    ensures a == b
  {
    var i :| 0 <= i < |rows| && rows[i] == a;
    var j :| 0 <= j < |rows| && rows[j] == b;
    assert i == j;
  }

  lemma PromotedHits(types: seq<Found>, k: nat, row: Row, lo: string, hi: string)
    requires k < |types| && UniqueIds(types[k].rows) && row in types[k].rows
    ensures
      var hits := AllHits(WithTitles(types, Promote(k, row.id, lo, hi)));
      forall x | x in hits :: x.title == Some(hi) || (x.title == Some(lo) && x.rank == RowRank(row))
  {
    var titles := Promote(k, row.id, lo, hi);
    var types' := WithTitles(types, titles);
    var p := (x: Hit) => x.title == Some(hi) || (x.title == Some(lo) && x.rank == RowRank(row));
    hide RoundRank;
    forall found, r | found in types' && r in found.rows
      ensures p(FormatResult(found.kind, r))
    {
      var m: nat :| m < |types'| && types'[m] == found;
      var i: nat :| i < |found.rows| && found.rows[i] == r;
      assert r == types[m].rows[i].(title := Some(titles(m, types[m].rows[i].id)));
      if m == k && types[m].rows[i].id == row.id {
        SameRow(types[k].rows, types[k].rows[i], row);
      }
    }
    AllHitsAre(types', p);
  }

  lemma {:induction false} HitListed(types: seq<Found>, k: nat, i: nat)
    requires k < |types| && i < |types[k].rows|
    ensures FormatResult(types[k].kind, types[k].rows[i]) in AllHits(types)
  {
    var init, last := types[..|types| - 1], types[|types| - 1];
    if k == |types| - 1 {
      assert FormatAll(last.kind, last.rows)[i] == FormatResult(last.kind, last.rows[i]);
    } else {
      HitListed(init, k, i);
    }
  }

  lemma PromotedMerge(types: seq<Found>, k: nat, j: nat, n: nat, lo: string, hi: string)
    requires k < |types| && UniqueIds(types[k].rows) && n <= j < |SortBy(SqlLeq, types[k].rows)|
    ensures
      var titles := Promote(k, SortBy(SqlLeq, types[k].rows)[j].id, lo, hi);
      forall x | x in Merge(WithTitles(types, titles), n) :: x.title == Some(hi)
  {
    SortedUnique(types[k].rows);
    var dropped := SortBy(SqlLeq, types[k].rows)[j];
    var titles := Promote(k, dropped.id, lo, hi);
    var types' := WithTitles(types, titles);
    var p := (x: Hit) => x.title == Some(hi);
    forall found, r | found in types' && r in First(SortBy(SqlLeq, found.rows), n)
      ensures p(FormatResult(found.kind, r))
    {
      var m: nat :| m < |types'| && types'[m] == found;
      SortTitled(types[m].rows, m, titles);
      hide SortBy, RoundRank;
      var sorted := SortBy(SqlLeq, types[m].rows);
      var i: nat :| i < n && i < |sorted| && Titled(sorted, m, titles)[i] == r;
      assert m == k ==> sorted[i].id != dropped.id;
    }
    hide SortBy;
    MergedAre(types', n, p);
  }

  /** A reached tie: titles that put the dropped row first make the result miss it. */
  lemma ReachedTieMisses(downcase: string -> string, lo: string, hi: string, types: seq<Found>, limit: int, k: nat,
    v: int)
    requires StringLeq(downcase(lo), downcase(hi)) && downcase(lo) != downcase(hi)
    requires k < |types| && UniqueIds(types[k].rows) && TiedAtCut(types[k], NormalizeLimit(limit), v)
    requires Count(HitRank, AllHits(types), v + 1) < NormalizeLimit(limit)
    ensures !AlwaysFront(downcase, types, limit)
  {
    hide AllHits, Merge, Count, StringLeq, Returns, SortOf, KeysAgree;
    var titles, y := DroppedFirst(types, k, NormalizeLimit(limit), v, lo, hi);
    CountAllTitled(types, titles, v + 1);
    MissedAtFront(downcase, lo, hi, WithTitles(types, titles), limit, y);
  }

  /** Titles under which the one hit titled `lo` is of rank `v` and cut. */
  lemma DroppedFirst(types: seq<Found>, k: nat, n: nat, v: int, lo: string, hi: string)
    returns (titles: (nat, int) -> string, y: Hit)
    requires k < |types| && UniqueIds(types[k].rows) && TiedAtCut(types[k], n, v)
    ensures
      var hits := AllHits(WithTitles(types, titles));
      && y in hits && y.title == Some(lo) && y.rank == v
      && (forall x | x in hits :: x.title == Some(hi) || (x.title == Some(lo) && x.rank == v))
    ensures forall x | x in Merge(WithTitles(types, titles), n) :: x.title == Some(hi)
  {
    var sorted := SortBy(SqlLeq, types[k].rows);
    hide AllHits, Merge, RoundRank, SortBy;
    var i, j :| 0 <= i < n <= j < |sorted| && RowRank(sorted[i]) == v == RowRank(sorted[j]);
    titles := Promote(k, sorted[j].id, lo, hi);
    var at := WhereSorted(types[k].rows, j);
    PromotedHits(types, k, sorted[j], lo, hi);
    PromotedMerge(types, k, j, n, lo, hi);
    HitListed(WithTitles(types, titles), k, at);
    y := FormatResult(types[k].kind, WithTitles(types, titles)[k].rows[at]);
  }

  lemma WhereSorted(rows: seq<Row>, j: nat) returns (at: nat)
    requires j < |SortBy(SqlLeq, rows)|
    ensures at < |rows| && rows[at] == SortBy(SqlLeq, rows)[j]
  {
    SqlTotal();
    SortBySorts(SqlLeq, rows);
    hide SortBy, TotalOrder;
    var x := SortBy(SqlLeq, rows)[j];
    assert x in multiset(SortBy(SqlLeq, rows));
    assert x in rows;
    at :| 0 <= at < |rows| && rows[at] == x;
  }

  lemma Arrangement<T(!new)>(leq: (T, T) -> bool, sorted: seq<T>, s: seq<T>)
    requires SortOf(leq, sorted, s)
    ensures forall x :: x in sorted <==> x in s
  {
    assert forall x :: x in sorted <==> x in multiset(sorted);
    assert forall x :: x in s <==> x in multiset(s);
  }

  lemma Sorted(downcase: string -> string, hits: seq<Hit>) returns (sorted: seq<Hit>)
    ensures SortOf(ByKey(downcase), sorted, hits)
  {
    ByKeyTotal(downcase);
    SortBySorts(ByKey(downcase), hits);
    sorted := SortBy(ByKey(downcase), hits);
  }

  lemma ResultMerged(downcase: string -> string, types: seq<Found>, limit: int, result: seq<Hit>)
    requires Returns(downcase, types, limit, result)
    ensures forall x | x in result :: x in Merge(types, NormalizeLimit(limit))
  {
    var n := NormalizeLimit(limit);
    var sorted :| SortOf(ByKey(downcase), sorted, Merge(types, n)) && result == First(sorted, n);
    Arrangement(ByKey(downcase), sorted, Merge(types, n));
    hide SortOf, Merge;
    assert forall x | x in result :: x in sorted;
  }

  /** When the only hits titled `lo` are of the rank of `y` and not merged, the result is not the front. */
  lemma MissedAtFront(downcase: string -> string, lo: string, hi: string, types: seq<Found>, limit: int, y: Hit)
    requires StringLeq(downcase(lo), downcase(hi)) && downcase(lo) != downcase(hi)
    requires y in AllHits(types) && y.title == Some(lo)
    requires forall x | x in AllHits(types) :: x.title == Some(hi) || (x.title == Some(lo) && x.rank == y.rank)
    requires forall x | x in Merge(types, NormalizeLimit(limit)) :: x.title == Some(hi)
    requires Count(HitRank, AllHits(types), y.rank + 1) < NormalizeLimit(limit)
    ensures
      exists result, best ::
        && Returns(downcase, types, limit, result) && SortOf(ByKey(downcase), best, AllHits(types))
        && !KeysAgree(downcase, result, best, NormalizeLimit(limit))
  {
    hide AllHits, Merge, Count, StringLeq, Returns, SortOf, Search.Search, HitLeq, SortBy;
    var n := NormalizeLimit(limit);
    SearchReturns(downcase, types, limit);
    var result := Search.Search(downcase, types, limit);
    var best := Sorted(downcase, AllHits(types));
    Arrangement(ByKey(downcase), best, AllHits(types));
    ResultMerged(downcase, types, limit, result);
    var p := FirstTitled(best, lo, y);
    EarlyEnough(downcase, lo, hi, types, best, p, y.rank, n);
    if |result| == |First(best, n)| {
      assert result[p] in result;
      assert Downcased(downcase, result[p].title) != Downcased(downcase, best[p].title);
    }
  }

  lemma FirstTitled(s: seq<Hit>, lo: string, y: Hit) returns (p: nat)
    requires y in s && y.title == Some(lo)
    ensures p < |s| && s[p].title == Some(lo) && forall i | 0 <= i < p :: s[i].title != Some(lo)
  {
    p := 0;
    while s[p].title != Some(lo)
      invariant p < |s| && forall i | 0 <= i < p :: s[i].title != Some(lo)
      decreases |s| - p
    {
      assert exists i :: 0 <= i < |s| && s[i] == y;
      p := p + 1;
    }
  }

  /** All hits before the first one titled `lo` are of higher rank. */
  lemma EarlyEnough(downcase: string -> string, lo: string, hi: string, types: seq<Found>, best: seq<Hit>, p: nat,
    v: int, n: nat)
    requires StringLeq(downcase(lo), downcase(hi)) && downcase(lo) != downcase(hi)
    requires SortOf(ByKey(downcase), best, AllHits(types)) && Count(HitRank, AllHits(types), v + 1) < n
    requires forall x | x in AllHits(types) :: x.title == Some(hi) || (x.title == Some(lo) && x.rank == v)
    requires p < |best| && best[p].title == Some(lo) && forall i | 0 <= i < p :: best[i].title != Some(lo)
    ensures p < n
  {
    hide AllHits, Count, StringLeq, SortOf, HitLeq;
    SortedFacts(downcase, best, AllHits(types), v + 1);
    if p >= n {
      HigherBefore(downcase, lo, hi, best[n - 1], best[p]);
      PositionByCount(HitRank, best, v + 1, n - 1);
    }
  }

  lemma SortedFacts(downcase: string -> string, sorted: seq<Hit>, s: seq<Hit>, v: int)
    requires SortOf(ByKey(downcase), sorted, s)
    ensures Count(HitRank, sorted, v) == Count(HitRank, s, v) && Descending(HitRank, sorted)
    ensures forall i | 0 <= i < |sorted| :: sorted[i] in s
    ensures forall i, j | 0 <= i < j < |sorted| :: ByKey(downcase)(sorted[i], sorted[j])
  {
    CountPermuted(HitRank, sorted, s, v);
    ByKeyDescends(downcase, sorted);
    Arrangement(ByKey(downcase), sorted, s);
    hide Count, HitLeq;
    assert forall i | 0 <= i < |sorted| :: sorted[i] in sorted;
  }

  lemma HigherBefore(downcase: string -> string, lo: string, hi: string, x: Hit, y: Hit)
    requires StringLeq(downcase(lo), downcase(hi)) && downcase(lo) != downcase(hi)
    requires ByKey(downcase)(x, y) && x.title == Some(hi) && y.title == Some(lo)
    ensures x.rank > y.rank
  {
    if StringLeq(downcase(hi), downcase(lo)) { StringLeqAntisymmetric(downcase(hi), downcase(lo)); }
    hide StringLeq;
  }

  /** Whatever the titles the result is the front of all hits in their own order, iff no type's cut is at a
      tie that the result reaches. */
  lemma AlwaysFrontIff(downcase: string -> string, a: string, b: string, types: seq<Found>, limit: int)
    requires downcase(a) != downcase(b) && forall found | found in types :: UniqueIds(found.rows)
    ensures AlwaysFront(downcase, types, limit) <==> NoTieReached(types, NormalizeLimit(limit))
  {
    var n := NormalizeLimit(limit);
    hide TiedAtCut, Count, AllHits, Merge, KeysAgree, StringLeq, Returns, SortOf;
    if NoTieReached(types, n) {
      forall titles: (nat, int) -> string, result: seq<Hit>, best: seq<Hit> |
        Returns(downcase, WithTitles(types, titles), limit, result)
        && SortOf(ByKey(downcase), best, AllHits(WithTitles(types, titles)))
        ensures KeysAgree(downcase, result, best, n)
      {
        ReachedTitled(types, titles, n);
        FrontOfAllHits(downcase, WithTitles(types, titles), limit, result, best);
      }
    } else {
      var found, v :| found in types && TiedAtCut(found, n, v) && Count(HitRank, AllHits(types), v + 1) < n;
      var k: nat :| k < |types| && types[k] == found;
      StringLeqTotal(downcase(a), downcase(b));
      if StringLeq(downcase(a), downcase(b)) {
        ReachedTieMisses(downcase, a, b, types, limit, k, v);
      } else {
        ReachedTieMisses(downcase, b, a, types, limit, k, v);
      }
    }
  }

  /** The list need not be the front of all hits in its own order: a type is cut by id, so the match
      whose title comes first can be the one left out. */
  lemma TitlesCutById(downcase: string -> string, url: string)
    requires downcase("a") == "a" && downcase("b") == "b"
    ensures
      var types := [Found("course", [Row(1, Some("b"), url, 0.5), Row(2, Some("a"), url, 0.5)])];
      var b, a := Hit("course", 1, Some("b"), url, 500000), Hit("course", 2, Some("a"), url, 500000);
      && Search.Search(downcase, types, 1) == [b] && a in AllHits(types)
      && HitLeq(downcase, a, b) && !HitLeq(downcase, b, a)
  {
    assert !StringLeq("b", "a") && StringLeq("a", "b");
    var course, titleA, titleB := "course", Some("a"), Some("b");
    hide StringLeq;
    CutById(downcase, course, Row(1, titleB, url, 0.5), Row(2, titleA, url, 0.5), 0.5);
  }

  lemma CutById(downcase: string -> string, kind: string, first: Row, second: Row, rank: real)
    requires first.rank == second.rank == rank && first.id < second.id
    ensures Search.Search(downcase, [Found(kind, [first, second])], 1) == [FormatResult(kind, first)]
    ensures FormatResult(kind, second) in AllHits([Found(kind, [first, second])])
  {
    hide HitLeq, FormatResult;
    var rows := [first, second];
    var found, hit := Found(kind, rows), FormatResult(kind, first);
    assert rows[1..] == [second] && SortBy(SqlLeq, [second]) == [second];
    assert SortBy(SqlLeq, rows) == rows && First(rows, 1) == [first];
    assert FormatAll(kind, [first]) == [hit];
    assert [found][..0] == [] && Merge([found], 1) == [] + [hit];
    assert SearchType(found, 1) == [hit] && Merge([found], 1) == [hit];
    assert [hit][1..] == [] && SortBy(ByKey(downcase), [hit]) == [hit];
    assert NormalizeLimit(1) == 1 && First([hit], 1) == [hit];
    assert FormatAll(kind, rows)[1] == FormatResult(kind, second);
    assert AllHits([found]) == [] + FormatAll(kind, rows);
  }
}
