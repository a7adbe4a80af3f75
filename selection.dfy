/**
 * The best-so-far scan shared by `chooseBestVehicleGreedy` and `chooseBestVehicleWeighted`:
 * start from `bestScore = Infinity` and take a candidate only when its score is strictly
 * below the best so far. Skipped candidates are given the score `Infinity`, which never wins.
 */
module Selection {
  import opened Wrappers
  import opened TravelTime

  /** The scan over `scores`, left to right: the chosen index and the best score. */
  function ScanMin(scores: seq<Minutes>): (r: (Option<nat>, Minutes))
    ensures r.0.Some? ==> r.0.value < |scores| && r.1 == scores[r.0.value] && Below(r.1, Infinity)
    ensures r.0.None? ==> r.1 == Infinity
  {
    if scores == [] then (None, Infinity)
    else
      var prev := ScanMin(scores[..|scores| - 1]);
      var last := scores[|scores| - 1];
      if Below(last, prev.1) then (Some(|scores| - 1), last) else prev
  }

  /** The index the scan settles on, if any. */
  function FirstMin(scores: seq<Minutes>): Option<nat> {
    ScanMin(scores).0
  }

  /** `i` holds a finite score no other score is below, and every earlier score is strictly worse. */
  ghost predicate IsFirstMin(scores: seq<Minutes>, i: nat) {
    && i < |scores|
    && Below(scores[i], Infinity)
    && (forall j :: 0 <= j < |scores| ==> !Below(scores[j], scores[i]))
    && (forall j :: 0 <= j < i ==> Below(scores[i], scores[j]))
  }

  /** The scan returns the first minimal finite score, and nothing exactly when every score is `Infinity`. */
  lemma {:induction false} FirstMinSpec(scores: seq<Minutes>)
    ensures FirstMin(scores).Some? ==> IsFirstMin(scores, FirstMin(scores).value)
    ensures FirstMin(scores).None? <==> forall j :: 0 <= j < |scores| ==> scores[j] == Infinity
  {
    if scores != [] {
      var n := |scores|;
      var init := scores[..n - 1];
      FirstMinSpec(init);
      assert forall j :: 0 <= j < n - 1 ==> init[j] == scores[j];
    }
  }
}
