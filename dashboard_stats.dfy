/**
 * The dashboard's summary cards: the activity score and the "show all"
 * links of the two recent-activity panels.
 */
module DashboardStats {

  /**
   * `Math.min(100, Math.round((favourites * 10 + inquiries * 5) / 2))`. The
   * halved sum is a whole number or ends in .5, which `Math.round` rounds
   * up, so the rounded value is `(sum + 1) / 2` in whole numbers.
   */
  function ActivityScore(favorites: nat, inquiries: nat): (score: int)
    ensures 0 <= score <= 100
    ensures var sum := favorites * 10 + inquiries * 5;
      score == 100 || 2 * score - 1 <= sum < 2 * score + 1
    ensures score == 100 <==> favorites * 10 + inquiries * 5 >= 199
  {
    var sum := favorites * 10 + inquiries * 5;
    var rounded := (sum + 1) / 2;
    if rounded < 100 then rounded else 100
  }

  /** More activity never lowers the score. */
  lemma ActivityScoreMonotone(f: nat, i: nat, f': nat, i': nat)
    requires f <= f' && i <= i'
    ensures ActivityScore(f, i) <= ActivityScore(f', i')
  {
  }

  /** Twenty favourites, or forty enquiries, already give the full score. */
  lemma ActivityScoreSaturates()
    ensures ActivityScore(20, 0) == 100 && ActivityScore(19, 0) == 95
    ensures ActivityScore(0, 40) == 100 && ActivityScore(0, 39) == 98
    ensures ActivityScore(1, 1) == 8
  {
  }

  /** How many entries the recent-activity panels show: `list.slice(0, 3)`. */
  const RecentLimit := 3

  function Recent<T>(s: seq<T>): (r: seq<T>)
    ensures |r| <= RecentLimit && |r| <= |s| && r == s[..|r|]
    ensures |s| <= RecentLimit ==> r == s
  {
    if |s| <= RecentLimit then s else s[..RecentLimit]
  }

  /** `count > 3` */
  predicate ShowAll(count: nat) {
    count > RecentLimit
  }

  /** The "show all" link appears exactly when the panel leaves entries out. */
  lemma ShowAllWhenTruncated<T>(s: seq<T>)
    ensures ShowAll(|s|) <==> |Recent(s)| < |s|
  {
  }
}
