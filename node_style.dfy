/**
 * The age and visual-weight model of `render_canvas` (render_engine.py):
 * how recent a push is, and how far out, how large and how opaque its node is drawn.
 */
module NodeStyle {
  import opened Text

  /** The normalising window `14 * 24 * 3600` seconds. */
  const AgeWindow: int := 14 * 24 * 3600

  const BaseClass: string := "activity-node"
  const RecentClass: string := "recent-node"

  /** Python's `min(x, 1)`. */
  function MinOne(x: real): real {
    if x <= 1.0 then x else 1.0
  }

  /**
   * `1 - min(age / W, 1)` for an age of `elapsed` seconds. Only the upper end of
   * `age / W` is clamped, so a timestamp in the future yields a factor above 1.
   */
  function AgeFactor(elapsed: int): (af: real)
    ensures af >= 0.0
    ensures elapsed >= 0 ==> af <= 1.0
    ensures elapsed < 0 ==> af > 1.0
    ensures elapsed >= AgeWindow ==> af == 0.0
  {
    1.0 - MinOne(elapsed as real / AgeWindow as real)
  }

  /** An older event never has a larger age factor; inside the window it has a strictly smaller one. */
  lemma AgeFactorNonIncreasing(older: int, newer: int)
    requires newer <= older
    ensures AgeFactor(older) <= AgeFactor(newer)
    ensures newer < older && newer < AgeWindow ==> AgeFactor(older) < AgeFactor(newer)
  {
  }

  /** Inside the window the factor falls linearly from 1 (just now) to 0 (fourteen days ago). */
  lemma AgeFactorInsideWindow(elapsed: int)
    requires 0 <= elapsed <= AgeWindow
    ensures AgeFactor(elapsed) * AgeWindow as real == (AgeWindow - elapsed) as real
  {
  }

  /** `40 + 80 * af * jitter`: how far from its hub centre a node is placed. */
  function Distance(af: real, jitter: real): (d: real)
    ensures 0.0 <= af <= 1.0 && 0.8 <= jitter <= 1.2 ==> 40.0 <= d <= 136.0
  {
    assert 0.0 <= af <= 1.0 && 0.8 <= jitter <= 1.2 ==> af * jitter <= 1.2 by {
      if 0.0 <= af <= 1.0 && 0.8 <= jitter <= 1.2 {
        assert af * jitter <= 1.0 * jitter;
      }
    }
    40.0 + 80.0 * af * jitter
  }

  /** Both ends of the distance range are reached: the upper bound is 136, not 120. */
  lemma DistanceRangeTight()
    ensures Distance(0.0, 1.0) == 40.0
    ensures Distance(1.0, 1.2) == 136.0
  {
  }

  /** For a fixed jitter, a larger factor is never placed closer, and strictly farther when the jitter is positive. */
  lemma DistanceMonotone(af1: real, af2: real, jitter: real)
    requires af1 <= af2 && jitter >= 0.0
    ensures Distance(af1, jitter) <= Distance(af2, jitter)
    ensures af1 < af2 && jitter > 0.0 ==> Distance(af1, jitter) < Distance(af2, jitter)
  {
    if af1 < af2 && jitter > 0.0 {
      var d := af2 - af1;
      assert d * jitter > 0.0;
      assert af2 * jitter == af1 * jitter + d * jitter;
      assert Distance(af2, jitter) == 40.0 + 80.0 * af2 * jitter;
      assert Distance(af1, jitter) == 40.0 + 80.0 * af1 * jitter;
      assert Distance(af2, jitter) - Distance(af1, jitter) == 80.0 * (d * jitter);
    } else {
      assert af1 * jitter <= af2 * jitter;
    }
  }

  /** `4 + 4 * af`: the node radius. */
  function Radius(af: real): (r: real)
    ensures 0.0 <= af <= 1.0 ==> 4.0 <= r <= 8.0
  {
    4.0 + 4.0 * af
  }

  /** `0.6 + 0.4 * af`: the node opacity. */
  function Opacity(af: real): (o: real)
    ensures 0.0 <= af <= 1.0 ==> 0.6 <= o <= 1.0
  {
    0.6 + 0.4 * af
  }

  /** A larger age factor never gives a smaller or fainter node. */
  lemma WeightMonotone(af1: real, af2: real)
    requires af1 <= af2
    ensures Radius(af1) <= Radius(af2)
    ensures Opacity(af1) <= Opacity(af2)
  {
  }

  /** The node's CSS class: `activity-node`, plus ` recent-node` when `af > 0.8`. */
  function NodeClass(af: real): (c: string)
    ensures BaseClass <= c
    ensures Occurs(RecentClass, c) <==> af > 0.8
  {
    if af > 0.8 then
      assert OccursAt(RecentClass, BaseClass + " " + RecentClass, 14);
      BaseClass + " " + RecentClass
    else
      NotRecent();
      BaseClass
  }

  /** The plain class does not name the pulsing animation. */
  lemma NotRecent()
    ensures !Occurs(RecentClass, BaseClass)
  {
    forall i | 0 <= i && i + |RecentClass| <= |BaseClass| ensures !OccursAt(RecentClass, BaseClass, i) {
      assert BaseClass[i] != RecentClass[0];
    }
  }
}
