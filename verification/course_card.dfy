/**
 * The listing card (src/components/CourseCard.tsx): the shape of a listed
 * course, the sold-shares percentage and the colour tier of the ROI badge.
 */
module CourseCard {
  import opened Schema

  /** The `Course` interface the marketplace listing and its cards use. */
  datatype Listing = Listing(
    id: int,
    title: string,
    creator: string,
    price: int,
    totalShares: int,
    availableShares: int,
    sharePrice: int,
    revenueShared: int,
    totalRevenue: int,
    students: int,
    image: string,
    category: string,
    roi: int)

  /**
   * `(total - available) / total * 100`. With no shares at all the
   * division has no finite value (`None`).
   */
  function SharesPercentage(c: Listing): (r: Option<real>)
    ensures r.None? <==> c.totalShares == 0
    ensures r.Some? ==> r.value * c.totalShares as real == (c.totalShares - c.availableShares) as real * 100.0
    ensures r.Some? && 0 <= c.availableShares <= c.totalShares ==> 0.0 <= r.value <= 100.0
    ensures c.totalShares != 0 && c.availableShares == c.totalShares ==> r == Some(0.0)
    ensures c.totalShares != 0 && c.availableShares == 0 ==> r == Some(100.0)
  {
    if c.totalShares == 0 then None
    else
      var t := c.totalShares as real;
      var sold := (c.totalShares - c.availableShares) as real;
      assert 0 <= c.availableShares <= c.totalShares ==> 0.0 <= sold / t <= 1.0 by {
        if 0 <= c.availableShares <= c.totalShares {
          assert 0.0 <= sold <= t;
          DivideAtMostOne(sold, t);
        }
      }
      assert c.availableShares == 0 ==> sold / t == 1.0;
      Some(sold / t * 100.0)
  }

  lemma DivideAtMostOne(a: real, b: real)
    requires 0.0 <= a <= b && b > 0.0
    ensures 0.0 <= a / b <= 1.0
  {
    assert a / b * b == a;
  }

  datatype Tier = Green | Yellow | Blue {
    /** Position of the tier from lowest (blue) to highest (green). */
    function Rank(): nat {
      match this
      case Blue => 0
      case Yellow => 1
      case Green => 2
    }
  }

  /** The badge colour for an ROI figure: above 200 green, above 100 yellow, otherwise blue. */
  function RoiTier(roi: int): (t: Tier)
    ensures t == Green <==> roi > 200
    ensures t == Yellow <==> 100 < roi <= 200
    ensures t == Blue <==> roi <= 100
  {
    if roi > 200 then Green
    else if roi > 100 then Yellow
    else Blue
  }

  /** A higher ROI never gets a lower tier. */
  lemma RoiTierMonotone(a: int, b: int)
    requires a <= b
    ensures RoiTier(a).Rank() <= RoiTier(b).Rank()
  {
  }
}
