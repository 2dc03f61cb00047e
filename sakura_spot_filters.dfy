/** Narrowing the spot list by prefecture and by collection; an unset filter lets every spot
    through, and with both unset the list itself is returned. */
module SakuraSpotFilters {
  import opened Wrappers
  import opened SakuraSpotSchema
  import opened SakuraSpots
  import opened Sequences

  datatype Filters = Filters(prefectureId: Option<real>, collection: Option<Collection>)

  /** The filter callback: the prefecture matches when that filter is set, and the spot's
      collections contain the collection when that filter is set (none if it has no list). */
  predicate Matches(f: Filters, s: SakuraSpot) {
    && (f.prefectureId.None? || s.prefecture.id == f.prefectureId.value)
    && (f.collection.None? || (s.spot.collections.Some? && f.collection.value in s.spot.collections.value))
  }

  /** `Array.prototype.filter` with `Matches`: the matching spots in order, each as often as
      in the input. */
  function Keep(spots: seq<SakuraSpot>, f: Filters): (r: seq<SakuraSpot>)
    ensures |r| <= |spots|
    ensures forall i :: 0 <= i < |r| ==> Matches(f, r[i])
    ensures forall i :: 0 <= i < |spots| && Matches(f, spots[i]) ==> spots[i] in r
    ensures forall x :: x in r ==> x in spots
    ensures IsSubsequence(r, spots)
    ensures |r| == CountWhere(spots, (s: SakuraSpot) => Matches(f, s))
  {
    if |spots| == 0 then []
    else
      var rest := Keep(spots[1..], f);
      assert forall i :: 1 <= i < |spots| ==> spots[i] == spots[1..][i - 1];
      assert forall x :: x in spots[1..] ==> x in spots;
      FilterStep(spots[0], Matches(f, spots[0]), rest, spots[1..]);
      if Matches(f, spots[0]) then [spots[0]] + rest else rest
  }

  /** The recursive filter is the generic one, so each matching spot occurs in it as often as
      in `spots`. */
  lemma KeepIsFilter(spots: seq<SakuraSpot>, f: Filters)
    ensures Keep(spots, f) == Filter(spots, (s: SakuraSpot) => Matches(f, s))
  {
    FilterDetermined(Keep(spots, f), spots, (s: SakuraSpot) => Matches(f, s));
  }

  /** `filterSakuraSpots`: the list itself when no filter is set, otherwise `Keep`. Either way
      the result holds as many spots as match. */
  function FilterSakuraSpots(spots: seq<SakuraSpot>, f: Filters): (r: seq<SakuraSpot>)
    ensures f.prefectureId.None? && f.collection.None? ==> r == spots
    ensures forall i :: 0 <= i < |r| ==> Matches(f, r[i])
    ensures forall i :: 0 <= i < |spots| && Matches(f, spots[i]) ==> spots[i] in r
    ensures |r| == CountWhere(spots, (s: SakuraSpot) => Matches(f, s))
  {
    if f.prefectureId.None? && f.collection.None? then
      CountWhereExtremes(spots, (s: SakuraSpot) => Matches(f, s));
      spots
    else Keep(spots, f)
  }

  /** The result keeps the input's order. */
  lemma FilterIsSubsequence(spots: seq<SakuraSpot>, f: Filters)
    ensures IsSubsequence(FilterSakuraSpots(spots, f), spots)
  {
    if f.prefectureId.None? && f.collection.None? {
      SubsequenceRefl(spots);
    }
  }

  /** Whatever the filters, the result is the generic filter with `Matches`. */
  lemma FilterIsGenericFilter(spots: seq<SakuraSpot>, f: Filters)
    ensures FilterSakuraSpots(spots, f) == Filter(spots, (s: SakuraSpot) => Matches(f, s))
  {
    FilterIsSubsequence(spots, f);
    FilterDetermined(FilterSakuraSpots(spots, f), spots, (s: SakuraSpot) => Matches(f, s));
  }

  lemma {:induction false} KeepAll(spots: seq<SakuraSpot>, f: Filters)
    requires forall i :: 0 <= i < |spots| ==> Matches(f, spots[i])
    ensures Keep(spots, f) == spots
  {
    if |spots| > 0 {
      KeepAll(spots[1..], f);
      assert [spots[0]] + spots[1..] == spots;
    }
  }

  /** Filtering twice with the same filters is filtering once. */
  lemma FilterIdempotent(spots: seq<SakuraSpot>, f: Filters)
    ensures FilterSakuraSpots(FilterSakuraSpots(spots, f), f) == FilterSakuraSpots(spots, f)
  {
    if !(f.prefectureId.None? && f.collection.None?) {
      KeepAll(Keep(spots, f), f);
    }
  }
}
