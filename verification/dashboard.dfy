/** The dashboard's figures: the post counts, the next three upcoming
    posts, and the remaining free-plan allowance. */
module Dashboard {
  import opened Base
  import opened Seqs
  import opened Gregorian
  import opened Domain
  import opened UsageApi

  predicate IsScheduled(p: Post) {
    p.status == Scheduled
  }

  predicate IsDraft(p: Post) {
    p.status == Draft
  }

  predicate IsPublished(p: Post) {
    p.status == Published
  }

  /** Number of scheduled posts. */
  function ScheduledCount(posts: seq<Post>): nat {
    |Filter(posts, IsScheduled)|
  }

  /** Number of drafts. */
  function DraftCount(posts: seq<Post>): nat {
    |Filter(posts, IsDraft)|
  }

  /** Every post is scheduled, a draft or published, so the three counts add
      up to the total the dashboard shows. */
  lemma CountsPartition(posts: seq<Post>)
    ensures ScheduledCount(posts) + DraftCount(posts) + |Filter(posts, IsPublished)| == |posts|
  {
    var notScheduled := (p: Post) => !IsScheduled(p);
    var notDraft := (p: Post) => !IsDraft(p);
    FilterSplit(posts, IsScheduled, notScheduled);
    var rest := Filter(posts, notScheduled);
    FilterSplit(rest, IsDraft, notDraft);
    FilterFilter(posts, notScheduled, IsDraft, IsDraft);
    FilterFilter(posts, notScheduled, notDraft, IsPublished);
  }

  /** A scheduled post whose time is still ahead. */
  function UpcomingAt(now: Time): Post -> bool {
    (p: Post) => IsScheduled(p) && StillAhead(now)(p)
  }

  function StillAhead(now: Time): Post -> bool {
    (p: Post) => p.scheduledAt.Some? && p.scheduledAt.value > now
  }

  /** The scheduled posts, then those whose time is ahead. */
  function AheadOf(posts: seq<Post>, now: Time): (r: seq<Post>)
    ensures r == Filter(posts, UpcomingAt(now))
  {
    FilterFilter(posts, IsScheduled, StillAhead(now), UpcomingAt(now));
    Filter(Filter(posts, IsScheduled), StillAhead(now))
  }

  /** The sort key of the upcoming list: the scheduled time. */
  function ScheduleKey(p: Post): int {
    p.scheduledAt.GetOr(0)
  }

  /** `upcomingPosts`: the scheduled posts still ahead, earliest first, at
      most three. */
  function Upcoming(posts: seq<Post>, now: Time): (r: seq<Post>)
    ensures |r| == if |Filter(posts, UpcomingAt(now))| < 3 then |Filter(posts, UpcomingAt(now))| else 3
    ensures forall i :: 0 <= i < |r| ==>
      r[i] in posts && r[i].status == Scheduled && r[i].scheduledAt.Some? && r[i].scheduledAt.value > now
    ensures forall i, j :: 0 <= i < j < |r| ==> r[i].scheduledAt.value <= r[j].scheduledAt.value
    ensures multiset(r) <= multiset(Filter(posts, UpcomingAt(now)))
  {
    var sorted := SortBy(AheadOf(posts, now), ScheduleKey);
    var k := if |sorted| < 3 then |sorted| else 3;
    FirstUpcoming(posts, now, k);
    sorted[..k]
  }

  /** The first `k` posts of the sorted upcoming list are upcoming posts in
      ascending order of schedule. */
  lemma FirstUpcoming(posts: seq<Post>, now: Time, k: nat)
    requires k <= |AheadOf(posts, now)|
    ensures var r := SortBy(AheadOf(posts, now), ScheduleKey)[..k];
      && (forall i :: 0 <= i < |r| ==>
            r[i] in posts && r[i].status == Scheduled && r[i].scheduledAt.Some? && r[i].scheduledAt.value > now)
      && (forall i, j :: 0 <= i < j < |r| ==> r[i].scheduledAt.value <= r[j].scheduledAt.value)
      && multiset(r) <= multiset(Filter(posts, UpcomingAt(now)))
  {
    var ahead := AheadOf(posts, now);
    var sorted := SortBy(ahead, ScheduleKey);
    SortedTake(ahead, ScheduleKey, k);
    UpcomingMembers(posts, now, sorted[..k]);
    OrderedBySchedule(sorted, k);
  }

  lemma UpcomingMembers(posts: seq<Post>, now: Time, r: seq<Post>)
    requires forall i :: 0 <= i < |r| ==> r[i] in Filter(posts, UpcomingAt(now))
    ensures forall i :: 0 <= i < |r| ==>
      r[i] in posts && r[i].status == Scheduled && r[i].scheduledAt.Some? && r[i].scheduledAt.value > now
  {
    forall i | 0 <= i < |r|
      ensures r[i] in posts && r[i].status == Scheduled && r[i].scheduledAt.Some? && r[i].scheduledAt.value > now
    {
      FilterMembership(posts, UpcomingAt(now), r[i]);
      assert UpcomingAt(now)(r[i]);
      assert StillAhead(now)(r[i]);
    }
  }

  lemma OrderedBySchedule(sorted: seq<Post>, k: nat)
    requires SortedBy(sorted, ScheduleKey) && k <= |sorted|
    requires forall i :: 0 <= i < k ==> sorted[i].scheduledAt.Some?
    ensures forall i, j :: 0 <= i < j < k ==> sorted[i].scheduledAt.value <= sorted[j].scheduledAt.value
  {
    forall i, j | 0 <= i < j < k
      ensures sorted[i].scheduledAt.value <= sorted[j].scheduledAt.value
    {
      assert ScheduleKey(sorted[i]) <= ScheduleKey(sorted[j]);
    }
  }

  /** The upcoming list holds the earliest upcoming posts: every upcoming
      post left out is scheduled no earlier than any post shown. */
  lemma UpcomingAreEarliest(posts: seq<Post>, now: Time, q: Post)
    requires q in posts && UpcomingAt(now)(q) && q !in Upcoming(posts, now)
    ensures forall i :: 0 <= i < |Upcoming(posts, now)| ==>
      Upcoming(posts, now)[i].scheduledAt.value <= q.scheduledAt.value
  {
    var ahead := AheadOf(posts, now);
    FilterMembership(posts, UpcomingAt(now), q);
    var sorted := SortBy(ahead, ScheduleKey);
    var r := Upcoming(posts, now);
    var k := |r|;
    assert r == sorted[..k];
    SortedPrefixIsSmallest(sorted, ScheduleKey, k);
    assert q in multiset(sorted);
    assert q !in multiset(sorted[..k]);
    assert q in multiset(sorted[k..]);
  }

  /** The "remaining" badge: shown only for the free plan, with the limit
      minus the month's usage. */
  function Remaining(u: UsageSummary): (r: Option<int>)
    ensures r.Some? <==> u.plan == "FREE"
    ensures r.Some? ==> r.value + u.currentUsage == u.limit
  {
    if u.plan == "FREE" then Some(u.limit - u.currentUsage) else None
  }

  /** For a user stored on the free plan whose counters respect the limit,
      the badge shows between 0 and 5. */
  lemma RemainingWithinLimit(st: Store, s: Session, clock: Clock)
    requires s.userId != "" && StoredPlan(st, s.userId) == Some(Free) && CountersWithinLimit(st)
    ensures var u := GetUsage(st, Some(s), clock).value;
      Remaining(u).Some? && 0 <= Remaining(u).value <= FreeLimit
  {
    FreeRemainingNonNegative(st, s, clock);
  }

  /** A user with no user row is reported on the free plan with limit -1,
      so the badge shows a negative number. */
  lemma RemainingNegativeWithoutUserRow(st: Store, s: Session, clock: Clock)
    requires s.userId != "" && s.userId !in st.plans
    ensures var u := GetUsage(st, Some(s), clock).value;
      Remaining(u).Some? && Remaining(u).value < 0
  {
  }
}
