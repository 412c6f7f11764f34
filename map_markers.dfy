/** The map page's marker colour: four grain-size classes split at 0.3, 0.4
    and 0.5 millimetres. */
module MapMarkers {

  const VeryFine: string := "#10b981"  // green
  const Fine: string := "#3b82f6"      // blue
  const Medium: string := "#f59e0b"    // yellow
  const Coarse: string := "#ef4444"    // red

  /** The classes from finest to coarsest. */
  const Scale: seq<string> := [VeryFine, Fine, Medium, Coarse]

  /** `getMarkerColor`: the first threshold the grain size stays under picks
      the colour; 0.5 and above is red. */
  function MarkerColor(grainSize: real): (c: string)
    ensures c in Scale
    ensures grainSize < 0.3 <==> c == VeryFine
    ensures 0.3 <= grainSize < 0.4 <==> c == Fine
    ensures 0.4 <= grainSize < 0.5 <==> c == Medium
    ensures 0.5 <= grainSize <==> c == Coarse
  {
    if grainSize < 0.3 then VeryFine
    else if grainSize < 0.4 then Fine
    else if grainSize < 0.5 then Medium
    else Coarse
  }

  /** The position of a colour on the scale. */
  function Rank(c: string): (k: nat)
    requires c in Scale
    ensures k < |Scale| && Scale[k] == c
  {
    if c == VeryFine then 0 else if c == Fine then 1 else if c == Medium then 2 else 3
  }

  /** A larger grain never gets a finer class. */
  lemma MarkerColorMonotone(g1: real, g2: real)
    requires g1 <= g2
    ensures Rank(MarkerColor(g1)) <= Rank(MarkerColor(g2))
  {
  }

  /** The boundary 0.5 itself is coarse, although the map legend labels the
      coarse class "&gt;0.5mm" and the medium one "0.4-0.5mm". */
  lemma HalfMillimetreIsCoarse()
    ensures MarkerColor(0.5) == Coarse
  {
  }
}
