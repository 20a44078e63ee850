/** The per-row "pick the marked bubble" rule shared by the three recognisers.

    Each recogniser scans a row once, keeping a running best value and the index
    where it was reached, and replaces them only when the current value is
    strictly better. `FirstBest` is that rule stated on a whole sequence of
    scores: higher is better, and a floor (absent = minus infinity) must be
    strictly exceeded before anything is chosen. */
module Selection {
  import opened Common

  /** `v` strictly exceeds the floor; an absent floor is minus infinity. */
  predicate Above(v: real, floor: Option<real>)
  {
    floor.None? || v > floor.value
  }

  /** The first index of the greatest score above the floor, if any score is above it. */
  function FirstBest(s: seq<real>, floor: Option<real>): (k: Option<nat>)
    ensures k.None? <==> forall j :: 0 <= j < |s| ==> !Above(s[j], floor)
    ensures k.Some? ==> k.value < |s| && Above(s[k.value], floor)
    ensures k.Some? ==> forall j :: 0 <= j < |s| ==> s[j] <= s[k.value]
    ensures k.Some? ==> forall j :: 0 <= j < k.value ==> s[j] < s[k.value]
  {
    if |s| == 0 then None
    else
      var b := FirstBest(s[..|s| - 1], floor);
      var v := s[|s| - 1];
      if (b.None? && Above(v, floor)) || (b.Some? && v > s[b.value]) then Some(|s| - 1) else b
  }

  /** The index a JavaScript loop leaves in its `-1`-initialised index variable. */
  function IndexOrMinusOne(k: Option<nat>): int
  {
    if k.Some? then k.value else -1
  }

  /** Appending one score extends the rule by one comparison with the running best. */
  lemma FirstBestSnoc(s: seq<real>, v: real, floor: Option<real>)
    ensures FirstBest(s + [v], floor) ==
      var b := FirstBest(s, floor);
      if (b.None? && Above(v, floor)) || (b.Some? && v > s[b.value]) then Some(|s|) else b
  {
    assert (s + [v])[..|s|] == s;
  }
}
