/** The keys a search sorts and shows its hits by. */
module SearchKeys {
  import opened Text
  import opened Search

  /** A type's hits are its best rows: by rank, then by id, cut to the limit, and shown under the type. */
  lemma TypeHits(found: Found, n: nat) returns (sorted: seq<Row>)
    ensures multiset(sorted) == multiset(found.rows)
    ensures forall i, j | 0 <= i < j < |sorted| ::
              sorted[i].rank > sorted[j].rank || (sorted[i].rank == sorted[j].rank && sorted[i].id <= sorted[j].id)
    ensures
      var hits := SearchType(found, n);
      && |hits| == (if |sorted| <= n then |sorted| else n)
      && forall i | 0 <= i < |hits| ::
           && hits[i].kind == found.kind && hits[i].id == sorted[i].id && hits[i].title == sorted[i].title
           && hits[i].url == sorted[i].url && hits[i].rank == RoundRank(sorted[i].rank)
  {
    SqlTotal();
    SortBySorts(SqlLeq, found.rows);
    sorted := SortBy(SqlLeq, found.rows);
    hide SortBy, TotalOrder;
    forall i, j | 0 <= i < j < |sorted|
      ensures sorted[i].rank > sorted[j].rank || (sorted[i].rank == sorted[j].rank && sorted[i].id <= sorted[j].id)
    {
      assert SqlLeq(sorted[i], sorted[j]);
    }
    hide RoundRank;
  }

  /** Hits are sorted by rank downwards, then by title without regard to case, a missing one first, then by id. */
  lemma HitsOrdered(downcase: string -> string, a: Hit, b: Hit)
    ensures
      var x := downcase(match a.title case Some(t) => t case None => "");
      var y := downcase(match b.title case Some(t) => t case None => "");
      && (a.rank > b.rank ==> HitLeq(downcase, a, b) && !HitLeq(downcase, b, a))
      && (a.rank == b.rank && x != y ==> (HitLeq(downcase, a, b) <==> StringLeq(x, y)))
      && (a.rank == b.rank && x == y ==> (HitLeq(downcase, a, b) <==> a.id <= b.id))
  {
    var x := downcase(match a.title case Some(t) => t case None => "");
    StringLeqTotal(x, x);
    hide StringLeq;
  }

  /** Ranks are rounded to the nearest millionth, halves away from zero. */
  lemma NearestMillionth(raw: real)
    ensures RoundRank(raw) as real - 0.5 <= raw * 1000000.0 <= RoundRank(raw) as real + 0.5
    ensures raw >= 0.0 ==> raw * 1000000.0 < RoundRank(raw) as real + 0.5
    ensures raw < 0.0 ==> RoundRank(raw) as real - 0.5 < raw * 1000000.0
  {
  }

  /** The types are merged in the order they are searched, and the search is the front of the merged hits in order. */
  lemma MergedInOrder(downcase: string -> string, types: seq<Found>, found: Found, limit: int, n: nat)
    ensures Merge([], n) == [] && Merge(types + [found], n) == Merge(types, n) + SearchType(found, n)
    ensures SortOf(ByKey(downcase), SortBy(ByKey(downcase), Merge(types, n)), Merge(types, n))
    ensures limit <= 0 ==> NormalizeLimit(limit) == 10
  {
    assert (types + [found])[..|types|] == types;
    ByKeyTotal(downcase);
    SortBySorts(ByKey(downcase), Merge(types, n));
  }
}
