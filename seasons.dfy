/** The anime season of a calendar month, as used for the seasonal listing. */
module Seasons {

  /** The four season names the catalog uses: spring, summer, fall, winter. */
  datatype Season = Spring | Summer | Fall | Winter

  /** `getCurrentSeason`, with the month (1 for January) passed in instead of read from the clock. */
  function SeasonOfMonth(month: int): Season
  {
    if 3 <= month <= 5 then Spring
    else if 6 <= month <= 8 then Summer
    else if 9 <= month <= 11 then Fall
    else Winter
  }

  /** The season each month of the year falls in, stated per season. */
  lemma SeasonRanges(month: int)
    requires 1 <= month <= 12
    ensures SeasonOfMonth(month) == Spring <==> month in {3, 4, 5}
    ensures SeasonOfMonth(month) == Summer <==> month in {6, 7, 8}
    ensures SeasonOfMonth(month) == Fall <==> month in {9, 10, 11}
    ensures SeasonOfMonth(month) == Winter <==> month in {12, 1, 2}
  {
  }

  /** The seasons in the order they start within a year counted from December. */
  function QuarterSeason(q: int): Season
    requires 0 <= q < 4
  {
    [Winter, Spring, Summer, Fall][q]
  }

  /** An independent definition: seasons are the quarters of a year that starts in December. */
  lemma {:induction false} SeasonIsQuarter(month: int)
    requires 1 <= month <= 12
    ensures SeasonOfMonth(month) == QuarterSeason((month % 12) / 3)
  {
    if month == 12 {
      assert month % 12 == 0;
    } else {
      assert month % 12 == month;
    }
  }

  /** The months of the year in season `s`. */
  function MonthsOf(s: Season): set<int>
  {
    set m | 1 <= m <= 12 && SeasonOfMonth(m) == s
  }

  /** Every season takes exactly three of the twelve months. */
  lemma SeasonsHaveThreeMonths(s: Season)
    ensures |MonthsOf(s)| == 3
  {
    var expected := match s
      case Spring => {3, 4, 5}
      case Summer => {6, 7, 8}
      case Fall => {9, 10, 11}
      case Winter => {12, 1, 2};
    forall m ensures m in MonthsOf(s) <==> m in expected {
      if 1 <= m <= 12 {
        SeasonRanges(m);
      }
    }
    assert MonthsOf(s) == expected;
  }
}
