/** Search over several record types: each type is cut to its best rows by the database, the rest are
    merged, sorted and cut again. */
module Search {
  import opened Wrappers
  import opened Text

  /** A matching row of one type, with the database's own rank. */
  datatype Row = Row(id: int, title: Option<string>, url: string, rank: real)

  /** A result; its rank in millionths. */
  datatype Hit = Hit(kind: string, id: int, title: Option<string>, url: string, rank: int)

  /** The matches of one searched type. */
  datatype Found = Found(kind: string, rows: seq<Row>)

  const DEFAULT_LIMIT := 10

  function NormalizeLimit(limit: int): (r: nat)
    ensures 1 <= r <= 50 && (1 <= limit <= 50 ==> r == limit) && (limit > 50 ==> r == 50) && (limit <= 0 ==> r == 10)
  {
    if limit <= 0 then DEFAULT_LIMIT else if limit < 50 then limit else 50
  }

  /** Six decimals, halves away from zero. */
  function RoundRank(raw: real): int {
    if raw >= 0.0 then (raw * 1000000.0 + 0.5).Floor else -((-raw) * 1000000.0 + 0.5).Floor
  }

  function FormatResult(kind: string, row: Row): Hit { Hit(kind, row.id, row.title, row.url, RoundRank(row.rank)) }

  function FormatAll(kind: string, rows: seq<Row>): (hits: seq<Hit>)
    ensures |hits| == |rows| && forall i | 0 <= i < |rows| :: hits[i] == FormatResult(kind, rows[i])
  {
    seq(|rows|, i requires 0 <= i < |rows| => FormatResult(kind, rows[i]))
  }

  // ----- sorting and cutting

  function First<T>(s: seq<T>, n: nat): seq<T> { if |s| <= n then s else s[..n] }

  ghost predicate SortedBy<T(!new)>(leq: (T, T) -> bool, s: seq<T>) {
    forall i, j | 0 <= i < j < |s| :: leq(s[i], s[j])
  }

  /** Ruby's sort does not say how it orders equal keys: any sorted arrangement will do. */
  ghost predicate SortOf<T(!new)>(leq: (T, T) -> bool, sorted: seq<T>, s: seq<T>) {
    multiset(sorted) == multiset(s) && SortedBy(leq, sorted)
  }

  ghost predicate TotalOrder<T(!new)>(leq: (T, T) -> bool) {
    && (forall x, y :: leq(x, y) || leq(y, x))
    && (forall x, y, z :: leq(x, y) && leq(y, z) ==> leq(x, z))
  }

  function Insert<T>(leq: (T, T) -> bool, x: T, s: seq<T>): seq<T> {
    if s == [] then [x] else if leq(x, s[0]) then [x] + s else [s[0]] + Insert(leq, x, s[1..])
  }

  function SortBy<T>(leq: (T, T) -> bool, s: seq<T>): seq<T> {
    if s == [] then [] else Insert(leq, s[0], SortBy(leq, s[1..]))
  }

  lemma LeadsInserted<T(!new)>(leq: (T, T) -> bool, first: T, x: T, rest: seq<T>, inserted: seq<T>)
    requires leq(first, x) && SortedBy(leq, [first] + rest) && SortedBy(leq, inserted)
    requires multiset(inserted) == multiset{x} + multiset(rest)
    ensures SortedBy(leq, [first] + inserted)
  {
    forall y | y in inserted
      ensures leq(first, y)
    {
      assert y in multiset(inserted);
      if y != x {
        assert y in rest;
        var j :| 0 <= j < |rest| && rest[j] == y;
        assert ([first] + rest)[0] == first && ([first] + rest)[j + 1] == y;
      }
    }
  }

  lemma {:induction false} InsertKeeps<T(!new)>(leq: (T, T) -> bool, x: T, s: seq<T>)
    requires TotalOrder(leq) && SortedBy(leq, s)
    ensures multiset(Insert(leq, x, s)) == multiset{x} + multiset(s) && SortedBy(leq, Insert(leq, x, s))
  {
    if s != [] && !leq(x, s[0]) {
      var rest := s[1..];
      InsertKeeps(leq, x, rest);
      assert s == [s[0]] + rest;
      var inserted := Insert(leq, x, rest);
      assert leq(s[0], x);
      LeadsInserted(leq, s[0], x, rest, inserted);
    } else if s != [] {
      forall y | y in s
        ensures leq(x, y)
      {
        assert y == s[0] || exists j | 0 < j < |s| :: s[j] == y;
      }
    }
  }

  lemma {:induction false} SortBySorts<T(!new)>(leq: (T, T) -> bool, s: seq<T>)
    requires TotalOrder(leq)
    ensures SortOf(leq, SortBy(leq, s), s)
  {
    if s != [] {
      SortBySorts(leq, s[1..]);
      InsertKeeps(leq, s[0], SortBy(leq, s[1..]));
      assert s == [s[0]] + s[1..];
    }
  }

  /** `ORDER BY search_rank DESC, id ASC` */
  predicate SqlLeq(a: Row, b: Row) { a.rank > b.rank || (a.rank == b.rank && a.id <= b.id) }

  function Downcased(downcase: string -> string, title: Option<string>): string {
    downcase(if title.Some? then title.value else "")
  }

  /** Order of the keys `[-rank, title.downcase, id]`. */
  predicate HitLeq(downcase: string -> string, a: Hit, b: Hit) {
    var x, y := Downcased(downcase, a.title), Downcased(downcase, b.title);
    a.rank > b.rank || (a.rank == b.rank && StringLeq(x, y) && (x == y ==> a.id <= b.id))
  }

  function ByKey(downcase: string -> string): (Hit, Hit) -> bool { (a, b) => HitLeq(downcase, a, b) }

  // ----- the search

  function SearchType(found: Found, limit: nat): seq<Hit> {
    FormatAll(found.kind, First(SortBy(SqlLeq, found.rows), limit))
  }

  function Merge(types: seq<Found>, limit: nat): seq<Hit> {
    if types == [] then [] else Merge(types[..|types| - 1], limit) + SearchType(types[|types| - 1], limit)
  }

  function AllHits(types: seq<Found>): seq<Hit> {
    if types == [] then [] else
    var last := types[|types| - 1];
    AllHits(types[..|types| - 1]) + FormatAll(last.kind, last.rows)
  }

  /** A list the search may return. */
  ghost predicate Returns(downcase: string -> string, types: seq<Found>, limit: int, result: seq<Hit>) {
    var n := NormalizeLimit(limit);
    exists sorted :: SortOf(ByKey(downcase), sorted, Merge(types, n)) && result == First(sorted, n)
  }

  function Search(downcase: string -> string, types: seq<Found>, limit: int): seq<Hit> {
    First(SortBy(ByKey(downcase), Merge(types, NormalizeLimit(limit))), NormalizeLimit(limit))
  }

  lemma ByKeyTotal(downcase: string -> string)
    ensures TotalOrder(ByKey(downcase))
  {
    var leq := ByKey(downcase);
    forall a, b
      ensures leq(a, b) || leq(b, a)
    {
      StringLeqTotal(Downcased(downcase, a.title), Downcased(downcase, b.title));
    }
    forall a, b, c | leq(a, b) && leq(b, c)
      ensures leq(a, c)
    {
      var x, y, z := Downcased(downcase, a.title), Downcased(downcase, b.title), Downcased(downcase, c.title);
      if a.rank == b.rank == c.rank {
        StringLeqTransitive(x, y, z);
        if x == z { StringLeqAntisymmetric(x, y); }
      }
    }
  }

  lemma SearchReturns(downcase: string -> string, types: seq<Found>, limit: int)
    ensures Returns(downcase, types, limit, Search(downcase, types, limit))
  {
    ByKeyTotal(downcase);
    SortBySorts(ByKey(downcase), Merge(types, NormalizeLimit(limit)));
  }

  // ----- counting the hits at or above a rank

  function Ranks(hits: seq<Hit>): (ranks: seq<int>)
    ensures |ranks| == |hits| && forall i | 0 <= i < |hits| :: ranks[i] == hits[i].rank
  {
    seq(|hits|, i requires 0 <= i < |hits| => hits[i].rank)
  }

  function RowRank(row: Row): int { RoundRank(row.rank) }

  function HitRank(hit: Hit): int { hit.rank }

  function Count<T>(rank: T -> int, s: seq<T>, v: int): nat {
    if s == [] then 0 else Count(rank, s[..|s| - 1], v) + if rank(s[|s| - 1]) >= v then 1 else 0
  }

  function Min(a: nat, b: nat): nat { if a < b then a else b }

  ghost predicate Descending<T>(rank: T -> int, s: seq<T>) {
    forall i, j | 0 <= i < j < |s| :: rank(s[i]) >= rank(s[j])
  }

  lemma {:induction false} CountBounds<T>(rank: T -> int, s: seq<T>, v: int)
    ensures Count(rank, s, v) <= |s|
    ensures Count(rank, s, v) == |s| <==> forall i | 0 <= i < |s| :: rank(s[i]) >= v
  {
    if s != [] {
      var init := s[..|s| - 1];
      CountBounds(rank, init, v);
      assert forall i | 0 <= i < |init| :: init[i] == s[i];
    }
  }

  lemma {:induction false} CountConcat<T>(rank: T -> int, a: seq<T>, b: seq<T>, v: int)
    ensures Count(rank, a + b, v) == Count(rank, a, v) + Count(rank, b, v)
  {
    if b == [] {
      assert a + b == a;
    } else {
      assert (a + b)[..|a + b| - 1] == a + b[..|b| - 1];
      CountConcat(rank, a, b[..|b| - 1], v);
    }
  }

  lemma Removed<T>(init: seq<T>, before: seq<T>, after: seq<T>, x: T)
    requires multiset(init + [x]) == multiset(before + [x] + after)
    ensures multiset(init) == multiset(before + after)
  {
    assert multiset(init + [x]) == multiset(init) + multiset{x};
    assert multiset(before + [x] + after) == multiset(before) + multiset{x} + multiset(after);
    assert multiset(init) == multiset(init + [x]) - multiset{x};
  }

  lemma {:induction false} CountPermuted<T>(rank: T -> int, a: seq<T>, b: seq<T>, v: int)
    requires multiset(a) == multiset(b)
    ensures Count(rank, a, v) == Count(rank, b, v) && |a| == |b|
  {
    if a == [] {
      assert |b| == |multiset(b)| == 0;
    } else {
      var init, x := a[..|a| - 1], a[|a| - 1];
      assert a == init + [x];
      assert x in multiset(b);
      var i :| 0 <= i < |b| && b[i] == x;
      var before, after := b[..i], b[i + 1..];
      assert b == before + [x] + after;
      Removed(init, before, after, x);
      CountPermuted(rank, init, before + after, v);
      CountConcat(rank, before, after, v);
      CountConcat(rank, before + [x], after, v);
      CountConcat(rank, before, [x], v);
      assert (before + [x])[..|before|] == before;
    }
  }

  /** Cutting a list sorted by rank keeps as many hits at or above a rank as fit. */
  lemma {:induction false} CountFirst<T>(rank: T -> int, s: seq<T>, n: nat, v: int)
    requires Descending(rank, s)
    ensures Count(rank, First(s, n), v) == Min(n, Count(rank, s, v))
  {
    CountBounds(rank, s, v);
    if |s| > n {
      var init := s[..|s| - 1];
      assert forall i | 0 <= i < |init| :: init[i] == s[i];
      CountFirst(rank, init, n, v);
      assert First(init, n) == First(s, n);
      CountBounds(rank, init, v);
    }
  }

  lemma {:induction false} CountFormatted(kind: string, rows: seq<Row>, v: int)
    ensures Count(HitRank, FormatAll(kind, rows), v) == Count(RowRank, rows, v)
  {
    if rows != [] {
      var init := rows[..|rows| - 1];
      CountFormatted(kind, init, v);
      assert FormatAll(kind, rows)[..|rows| - 1] == FormatAll(kind, init);
    }
  }

  /** Rounding keeps the order, so the database's order is an order of the rounded ranks too. */
  lemma RoundingKeepsOrder(a: real, b: real)
    requires a <= b
    ensures RoundRank(a) <= RoundRank(b)
  {
    if a >= 0.0 {
      assert a * 1000000.0 + 0.5 <= b * 1000000.0 + 0.5;
    } else if b >= 0.0 {
      assert (-a) * 1000000.0 + 0.5 >= 0.0;
    } else {
      assert (-b) * 1000000.0 + 0.5 <= (-a) * 1000000.0 + 0.5;
    }
  }

  lemma SqlTotal()
    ensures TotalOrder(SqlLeq)
  {
  }

  lemma TypeCount(found: Found, n: nat, v: int)
    ensures Count(HitRank, SearchType(found, n), v) == Min(n, Count(HitRank, FormatAll(found.kind, found.rows), v))
  {
    SqlTotal();
    SortBySorts(SqlLeq, found.rows);
    var sorted := SortBy(SqlLeq, found.rows);
    forall i, j | 0 <= i < j < |sorted|
      ensures RowRank(sorted[i]) >= RowRank(sorted[j])
    {
      assert SqlLeq(sorted[i], sorted[j]);
      RoundingKeepsOrder(sorted[j].rank, sorted[i].rank);
    }
    CountFirst(RowRank, sorted, n, v);
    CountPermuted(RowRank, sorted, found.rows, v);
    CountFormatted(found.kind, found.rows, v);
    CountFormatted(found.kind, First(sorted, n), v);
  }

  /** Cutting each type first loses nothing a cut of the whole would have kept. */
  lemma {:induction false} MergeCount(types: seq<Found>, n: nat, v: int)
    ensures Min(n, Count(HitRank, Merge(types, n), v)) == Min(n, Count(HitRank, AllHits(types), v))
  {
    if types != [] {
      var init, last := types[..|types| - 1], types[|types| - 1];
      MergeCount(init, n, v);
      TypeCount(last, n, v);
      CountConcat(HitRank, Merge(init, n), SearchType(last, n), v);
      CountConcat(HitRank, AllHits(init), FormatAll(last.kind, last.rows), v);
    }
  }

  lemma ResultCount(downcase: string -> string, types: seq<Found>, limit: int, result: seq<Hit>, v: int)
    requires Returns(downcase, types, limit, result)
    ensures Count(HitRank, result, v) == Min(NormalizeLimit(limit), Count(HitRank, AllHits(types), v))
    ensures Descending(HitRank, result)
  {
    var n := NormalizeLimit(limit);
    var sorted :| SortOf(ByKey(downcase), sorted, Merge(types, n)) && result == First(sorted, n);
    ByKeyDescends(downcase, sorted);
    CountFirst(HitRank, sorted, n, v);
    CountPermuted(HitRank, sorted, Merge(types, n), v);
    MergeCount(types, n, v);
  }

  lemma ByKeyDescends(downcase: string -> string, hits: seq<Hit>)
    requires SortedBy(ByKey(downcase), hits)
    ensures Descending(HitRank, hits)
  {
    forall i, j | 0 <= i < j < |hits|
      ensures HitRank(hits[i]) >= HitRank(hits[j])
    {
      assert ByKey(downcase)(hits[i], hits[j]);
    }
  }

  // ----- what a search returns

  lemma PositionByCount<T>(rank: T -> int, s: seq<T>, v: int, i: nat)
    requires Descending(rank, s)
    ensures Count(rank, s, v) > i <==> i < |s| && rank(s[i]) >= v
  {
    CountBounds(rank, s, v);
    if i < |s| {
      var upTo := First(s, i + 1);
      CountFirst(rank, s, i + 1, v);
      CountBounds(rank, upTo, v);
      assert upTo[i] == s[i] && forall j | 0 <= j < i :: upTo[j] == s[j];
    }
  }

  lemma SameRankAt(a: seq<Hit>, b: seq<Hit>, i: nat)
    requires Descending(HitRank, a) && Descending(HitRank, b) && i < |a|
    requires forall v :: Count(HitRank, a, v) == Count(HitRank, b, v)
    ensures i < |b| && a[i].rank == b[i].rank
  {
    PositionByCount(HitRank, a, a[i].rank, i);
    PositionByCount(HitRank, b, a[i].rank, i);
    PositionByCount(HitRank, a, b[i].rank, i);
    PositionByCount(HitRank, b, b[i].rank, i);
  }

  lemma SameCountsSameRanks(a: seq<Hit>, b: seq<Hit>)
    requires Descending(HitRank, a) && Descending(HitRank, b)
    requires forall v :: Count(HitRank, a, v) == Count(HitRank, b, v)
    ensures Ranks(a) == Ranks(b)
  {
    if a != [] { SameRankAt(a, b, |a| - 1); }
    if b != [] { SameRankAt(b, a, |b| - 1); }
    forall i: nat | i < |a|
      ensures a[i].rank == b[i].rank
    {
      SameRankAt(a, b, i);
    }
  }

  /** The ranks returned are exactly the highest `limit` of all matches of all types: those at the front
      of any arrangement of all hits by descending rank. */
  lemma TopRanks(downcase: string -> string, types: seq<Found>, limit: int, result: seq<Hit>, best: seq<Hit>)
    requires Returns(downcase, types, limit, result)
    requires multiset(best) == multiset(AllHits(types)) && Descending(HitRank, best)
    ensures Ranks(result) == Ranks(First(best, NormalizeLimit(limit)))
  {
    var n := NormalizeLimit(limit);
    forall v
      ensures Count(HitRank, result, v) == Count(HitRank, First(best, n), v)
    {
      ResultCount(downcase, types, limit, result, v);
      CountPermuted(HitRank, best, AllHits(types), v);
      CountFirst(HitRank, best, n, v);
    }
    ResultCount(downcase, types, limit, result, 0);
    SameCountsSameRanks(result, First(best, n));
  }

  lemma FormatMiddle(kind: string, before: seq<Row>, x: Row, after: seq<Row>)
    ensures multiset(FormatAll(kind, before + [x] + after))
        == multiset(FormatAll(kind, before + after)) + multiset{FormatResult(kind, x)}
  {
    var front, back, hit := FormatAll(kind, before), FormatAll(kind, after), FormatResult(kind, x);
    assert FormatAll(kind, before + [x] + after) == front + [hit] + back;
    assert FormatAll(kind, before + after) == front + back;
    assert multiset(front + [hit] + back) == multiset(front) + multiset{hit} + multiset(back);
    assert multiset(front + back) == multiset(front) + multiset(back);
  }

  lemma {:induction false} FormatPermuted(kind: string, a: seq<Row>, b: seq<Row>)
    requires multiset(a) == multiset(b)
    ensures multiset(FormatAll(kind, a)) == multiset(FormatAll(kind, b))
  {
    if a == [] {
      assert |b| == |multiset(b)| == 0;
    } else {
      var init, x := a[..|a| - 1], a[|a| - 1];
      assert a == init + [x];
      assert x in multiset(b);
      var i :| 0 <= i < |b| && b[i] == x;
      var before, after := b[..i], b[i + 1..];
      assert b == before + [x] + after;
      Removed(init, before, after, x);
      FormatPermuted(kind, init, before + after);
      FormatMiddle(kind, init, x, []);
      FormatMiddle(kind, before, x, after);
      assert init + [x] + [] == a && init + [] == init;
    }
  }

  lemma FirstWithin<T>(s: seq<T>, n: nat)
    ensures multiset(First(s, n)) <= multiset(s)
  {
    if |s| > n {
      assert s == s[..n] + s[n..];
    }
  }

  lemma {:induction false} MergeWithin(types: seq<Found>, n: nat)
    ensures multiset(Merge(types, n)) <= multiset(AllHits(types))
  {
    if types != [] {
      var init, last := types[..|types| - 1], types[|types| - 1];
      MergeWithin(init, n);
      SqlTotal();
      SortBySorts(SqlLeq, last.rows);
      var sorted := SortBy(SqlLeq, last.rows);
      FormatPermuted(last.kind, sorted, last.rows);
      assert SearchType(last, n) == First(FormatAll(last.kind, sorted), n);
      FirstWithin(FormatAll(last.kind, sorted), n);
      assert multiset(Merge(types, n)) == multiset(Merge(init, n)) + multiset(SearchType(last, n));
      assert multiset(AllHits(types)) == multiset(AllHits(init)) + multiset(FormatAll(last.kind, last.rows));
    }
  }

  /** The result is sorted, as long as it can be, and repeats no match; what it leaves out outranks
      nothing in it. */
  lemma NoneOutranks(downcase: string -> string, types: seq<Found>, limit: int, result: seq<Hit>)
    requires Returns(downcase, types, limit, result)
    ensures SortedBy(ByKey(downcase), result)
    ensures |result| == Min(NormalizeLimit(limit), |AllHits(types)|)
    ensures multiset(result) <= multiset(AllHits(types))
    ensures forall x, y | x in result && y in multiset(AllHits(types)) - multiset(result) :: y.rank <= x.rank
  {
    var n, all := NormalizeLimit(limit), AllHits(types);
    ResultWithin(downcase, types, limit, result);
    LongEnough(downcase, types, limit, result);
    forall x, y | x in result && y in multiset(all) - multiset(result)
      ensures y.rank <= x.rank
    {
      ResultCount(downcase, types, limit, result, y.rank);
      OmittedCounts(all, result, y);
      CountBounds(HitRank, result, y.rank);
    }
  }

  lemma ResultWithin(downcase: string -> string, types: seq<Found>, limit: int, result: seq<Hit>)
    requires Returns(downcase, types, limit, result)
    ensures SortedBy(ByKey(downcase), result) && |result| <= NormalizeLimit(limit)
    ensures multiset(result) <= multiset(AllHits(types))
  {
    var n, leq := NormalizeLimit(limit), ByKey(downcase);
    var sorted :| SortOf(leq, sorted, Merge(types, n)) && result == First(sorted, n);
    FirstWithin(sorted, n);
    MergeWithin(types, n);
    forall i, j | 0 <= i < j < |result|
      ensures leq(result[i], result[j])
    {
      assert result[i] == sorted[i] && result[j] == sorted[j];
    }
  }

  lemma OmittedCounts(all: seq<Hit>, kept: seq<Hit>, y: Hit)
    requires multiset(kept) <= multiset(all) && y in multiset(all) - multiset(kept)
    ensures Count(HitRank, kept, y.rank) < Count(HitRank, all, y.rank)
  {
    var rest := Arranged(multiset(all) - multiset(kept));
    assert multiset(kept + rest) == multiset(all);
    CountPermuted(HitRank, kept + rest, all, y.rank);
    CountConcat(HitRank, kept, rest, y.rank);
    assert y in rest by { assert y in multiset(rest); }
    CountSome(rest, y);
  }

  ghost function Arranged(m: multiset<Hit>): (s: seq<Hit>)
    ensures multiset(s) == m
    decreases |m|
  {
    if m == multiset{} then [] else
    var x :| x in m;
    [x] + Arranged(m - multiset{x})
  }

  lemma {:induction false} CountSome(s: seq<Hit>, y: Hit)
    requires y in s
    ensures Count(HitRank, s, y.rank) > 0
  {
    if s[|s| - 1] != y {
      CountSome(s[..|s| - 1], y);
    }
  }

  /** Counted at a rank no hit is below. */
  lemma LongEnough(downcase: string -> string, types: seq<Found>, limit: int, result: seq<Hit>)
    requires Returns(downcase, types, limit, result) && multiset(result) <= multiset(AllHits(types))
    ensures |result| == Min(NormalizeLimit(limit), |AllHits(types)|)
  {
    var all := AllHits(types);
    var v := Lowest(all);
    ResultCount(downcase, types, limit, result, v);
    CountBounds(HitRank, all, v);
    CountBounds(HitRank, result, v);
    forall i | 0 <= i < |result|
      ensures HitRank(result[i]) >= v
    {
      assert result[i] in multiset(result);
      assert result[i] in all;
    }
  }

  function Lowest(s: seq<Hit>): (v: int)
    ensures forall h | h in s :: h.rank >= v
  {
    if s == [] then 0 else
    var v := Lowest(s[1..]);
    if s[0].rank < v then s[0].rank else v
  }

  /** Whatever order equal keys are put in, two searches over the same matches agree on the keys. */
  lemma OnlyTiesDiffer(downcase: string -> string, types: seq<Found>, limit: int, a: seq<Hit>, b: seq<Hit>, i: nat)
    requires Returns(downcase, types, limit, a) && Returns(downcase, types, limit, b) && i < |a|
    ensures i < |b|
    ensures a[i].rank == b[i].rank && Downcased(downcase, a[i].title) == Downcased(downcase, b[i].title)
        && a[i].id == b[i].id
  {
    var n, leq := NormalizeLimit(limit), ByKey(downcase);
    ByKeyTotal(downcase);
    var s :| SortOf(leq, s, Merge(types, n)) && a == First(s, n);
    var t :| SortOf(leq, t, Merge(types, n)) && b == First(t, n);
    SortedAlike(leq, s, t, i);
    SortedAlike(leq, t, s, i);
    assert leq(a[i], b[i]) && leq(b[i], a[i]);
    var x, y := Downcased(downcase, a[i].title), Downcased(downcase, b[i].title);
    StringLeqAntisymmetric(x, y);
  }

  lemma SortedAlike<T(!new)>(leq: (T, T) -> bool, s: seq<T>, t: seq<T>, i: nat)
    requires TotalOrder(leq) && SortedBy(leq, s) && SortedBy(leq, t) && multiset(s) == multiset(t) && i < |s|
    ensures i < |t| && leq(t[i], s[i])
  {
    var c := s[i];
    var notAbove := (x: T) => if leq(x, c) then 1 else 0;
    assert Descending(notAbove, s) by {
      forall j, k | 0 <= j < k < |s| ensures notAbove(s[j]) >= notAbove(s[k]) { assert leq(s[j], s[k]); }
    }
    assert Descending(notAbove, t) by {
      forall j, k | 0 <= j < k < |t| ensures notAbove(t[j]) >= notAbove(t[k]) { assert leq(t[j], t[k]); }
    }
    CountPermuted(notAbove, s, t, 1);
    PositionByCount(notAbove, s, 1, i);
    PositionByCount(notAbove, t, 1, i);
  }
}
