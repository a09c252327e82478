/** The calendar page: the month grid (blank cells up to the first
    weekday, then one cell per day), the posts shown on a day, and how many
    fit in a cell. The grid's dates are calendar dates in the viewer's time
    zone; whether an instant falls on a given local date is an input. */
module CalendarView {
  import opened Base
  import opened Seqs
  import opened Gregorian
  import opened Domain

  /** `cells` is the grid of `month` (1 to 12) of `year`: as many blank
      cells as the weekday of the 1st (0 for Sunday), then the days 1 to the
      month's length in order. */
  predicate IsMonthGrid(cells: seq<Option<CivilDate>>, year: int, month: int)
    requires 1 <= month <= 12
  {
    var lead := Weekday(CivilDate(year, month, 1));
    && |cells| == lead + DaysInMonth(year, month)
    && (forall i :: 0 <= i < lead ==> cells[i].None?)
    && (forall i :: lead <= i < |cells| ==> cells[i] == Some(CivilDate(year, month, i - lead + 1)))
  }

  /** The year the `Date(year, month, day)` constructor uses: a two-digit
      year 0 to 99 stands for 1900 to 1999. */
  function ConstructorYear(year: int): (y: int)
    ensures 0 <= year <= 99 ==> y == 1900 + year
    ensures !(0 <= year <= 99) ==> y == year
  {
    if 0 <= year <= 99 then 1900 + year else year
  }

  /** `getDaysInMonth` for the month (1 to 12) of `year` that the viewed
      date falls in. */
  method MonthGrid(viewYear: int, month: int) returns (cells: seq<Option<CivilDate>>)
    requires 1 <= month <= 12
    ensures IsMonthGrid(cells, ConstructorYear(viewYear), month)
    ensures 0 <= |cells| - DaysInMonth(ConstructorYear(viewYear), month) <= 6
  {
    var year := ConstructorYear(viewYear);
    var lead := Weekday(CivilDate(year, month, 1));
    var length := DaysInMonth(year, month);
    cells := [];
    var i := 0;
    while i < lead
      invariant 0 <= i <= lead && |cells| == i
      invariant forall j :: 0 <= j < i ==> cells[j].None?
    {
      cells := cells + [None];
      i := i + 1;
    }
    var day := 1;
    while day <= length
      invariant 1 <= day <= length + 1 && |cells| == lead + day - 1
      invariant forall j :: 0 <= j < lead ==> cells[j].None?
      invariant forall j :: lead <= j < |cells| ==> cells[j] == Some(CivilDate(year, month, j - lead + 1))
    {
      cells := cells + [Some(CivilDate(year, month, day))];
      day := day + 1;
    }
  }

  /** In the grid every date sits in the column of its weekday, so the rows
      of seven are weeks starting on Sunday; and every day of the month
      appears, exactly at its place. */
  lemma GridColumnsAreWeekdays(cells: seq<Option<CivilDate>>, year: int, month: int)
    requires 1 <= month <= 12 && IsMonthGrid(cells, year, month)
    ensures forall i :: 0 <= i < |cells| && cells[i].Some? ==>
      ValidDate(cells[i].value) && Weekday(cells[i].value) == i % 7
    ensures forall d :: 1 <= d <= DaysInMonth(year, month) ==>
      cells[Weekday(CivilDate(year, month, 1)) + d - 1] == Some(CivilDate(year, month, d))
  {
    var first := CivilDate(year, month, 1);
    var lead := Weekday(first);
    forall i | 0 <= i < |cells| && cells[i].Some?
      ensures ValidDate(cells[i].value) && Weekday(cells[i].value) == i % 7
    {
      var day := i - lead + 1;
      WeekdayOffset(first, day);
      assert cells[i].value == first.(day := day);
    }
  }

  /** `getPostsForDate`: no date gives nothing; otherwise the scheduled posts
      whose time falls on that local date, of the chosen type unless the
      filter is `all`. */
  function PostsForDate(posts: seq<Post>, date: Option<CivilDate>, typeFilter: string,
                        localDate: Time -> CivilDate): (r: seq<Post>)
    ensures date.None? ==> r == []
    ensures IsSubsequence(r, posts)
    ensures forall p :: p in r <==>
      && p in posts && date.Some? && p.scheduledAt.Some? && localDate(p.scheduledAt.value) == date.value
      && (typeFilter == "all" || Lower(TypeName(p.kind)) == typeFilter)
  {
    if date.None? then []
    else
      var keep := (p: Post) =>
        && p.scheduledAt.Some? && localDate(p.scheduledAt.value) == date.value
        && (typeFilter == "all" || Lower(TypeName(p.kind)) == typeFilter);
      forall p ensures p in Filter(posts, keep) <==> p in posts && keep(p) {
        FilterMembership(posts, keep, p);
      }
      Filter(posts, keep)
  }

  /** With the filter at `all`, the posts of a day are those of every type:
      the per-type lists together hold them all. */
  lemma AllTypesCovered(posts: seq<Post>, date: CivilDate, localDate: Time -> CivilDate, p: Post)
    requires p in PostsForDate(posts, Some(date), "all", localDate)
    ensures p in PostsForDate(posts, Some(date), Lower(TypeName(p.kind)), localDate)
  {
  }

  /** A day cell: the first two posts, and `+n more` for the rest when there
      are more than two. */
  datatype DayCell = DayCell(shown: seq<Post>, more: Option<nat>)

  function CellFor(dayPosts: seq<Post>): (c: DayCell)
    ensures |c.shown| <= 2 && |c.shown| <= |dayPosts| && c.shown == dayPosts[..|c.shown|]
    ensures c.more.Some? <==> |dayPosts| > 2
    ensures |c.shown| + c.more.GetOr(0) == |dayPosts|
    ensures |c.shown| == 2 || c.shown == dayPosts
    ensures c.more == if |dayPosts| > 2 then Some(|dayPosts| - 2) else None
  {
    if |dayPosts| > 2 then DayCell(dayPosts[..2], Some(|dayPosts| - 2))
    else DayCell(dayPosts, None)
  }

  /** A day's cell shows only posts scheduled on that day that pass the
      type filter, the earliest-listed first, and the `+n more` note counts
      exactly the day's posts left out. */
  lemma CellShowsDayPosts(posts: seq<Post>, date: CivilDate, typeFilter: string,
                          localDate: Time -> CivilDate)
    ensures var day := PostsForDate(posts, Some(date), typeFilter, localDate);
      var c := CellFor(day);
      && (forall p :: p in c.shown ==>
            p in posts && p.scheduledAt.Some? && localDate(p.scheduledAt.value) == date
            && (typeFilter == "all" || Lower(TypeName(p.kind)) == typeFilter))
      && (forall p :: p in day && p !in c.shown ==> c.more.Some?)
      && |c.shown| + c.more.GetOr(0) == |day|
  {
    var day := PostsForDate(posts, Some(date), typeFilter, localDate);
    var c := CellFor(day);
    forall p | p in c.shown
      ensures p in day
    {
      var k :| 0 <= k < |c.shown| && c.shown[k] == p;
      assert day[k] == p;
    }
  }
}
