/** Marker size and colour of a spot: the radius grows with the number of trees in three
    bands, and the "100 best sakura spots" collection takes the pink colour. */
module SpotMarker {
  import opened Wrappers
  import opened SakuraSpotSchema
  import opened SakuraSpots

  const Sakura100MarkerColor: string := "#f472b6"
  const OtherMarkerColor: string := "#60a5fa"
  const Sakura100ColorClass: string := "fill-pink-400"
  const OtherColorClass: string := "fill-blue-400"

  /** Radius 4 without a tree count or below 500 trees, 6 below 2000, 8 from 2000 on. */
  function MarkerRadiusFromTrees(trees: Option<real>): (r: int)
    ensures r == 4 || r == 6 || r == 8
    ensures trees.None? ==> r == 4
    ensures trees.Some? ==> (r == 4 <==> trees.value < 500.0)
    ensures trees.Some? ==> (r == 8 <==> trees.value >= 2000.0)
  {
    if trees.None? then 4
    else if trees.value < 500.0 then 4
    else if trees.value < 2000.0 then 6
    else 8
  }

  /** More trees never give a smaller marker. */
  lemma MarkerRadiusMonotone(a: real, b: real)
    requires a <= b
    ensures MarkerRadiusFromTrees(Some(a)) <= MarkerRadiusFromTrees(Some(b))
  {
  }

  function SpotMarkerRadius(s: SakuraSpot): (r: int)
    ensures r == MarkerRadiusFromTrees(s.spot.trees)
  {
    MarkerRadiusFromTrees(s.spot.trees)
  }

  /** The spot belongs to the "sakura100" collection; a spot without collections does not. */
  predicate IsSakura100Spot(s: SakuraSpot) {
    s.spot.collections.Some? && Sakura100 in s.spot.collections.value
  }

  function SpotMarkerColor(s: SakuraSpot): (c: string)
    ensures c == Sakura100MarkerColor <==> IsSakura100Spot(s)
    ensures c == Sakura100MarkerColor || c == OtherMarkerColor
  {
    if IsSakura100Spot(s) then Sakura100MarkerColor else OtherMarkerColor
  }

  function SpotMarkerColorClass(s: SakuraSpot): (c: string)
    ensures c == Sakura100ColorClass <==> IsSakura100Spot(s)
    ensures c == Sakura100ColorClass || c == OtherColorClass
  {
    if IsSakura100Spot(s) then Sakura100ColorClass else OtherColorClass
  }

  /** The colour and the colour class always name the same variant. */
  lemma ColorAndClassAgree(s: SakuraSpot)
    ensures (SpotMarkerColor(s) == Sakura100MarkerColor) == (SpotMarkerColorClass(s) == Sakura100ColorClass)
  {
  }
}
