/** `GET /api/usage`: the signed-in user's posting counter for the current
    month, the limit of their stored plan, and whether the editor may
    schedule another post. */
module UsageApi {
  import opened Base
  import opened Gregorian
  import opened Domain
  import opened PostsApi

  /** The response body. `limit` is -1 for "no limit"; `plan` is the stored
      plan's enum name. */
  datatype UsageSummary = UsageSummary(currentUsage: nat, limit: int, plan: string, canCreatePost: bool)

  /** The stored plan of a user, if the user row exists. */
  function StoredPlan(st: Store, user: string): Option<Plan> {
    if user in st.plans then Some(st.plans[user]) else None
  }

  /** `GET /api/usage` at the month and year of `clock`. */
  function GetUsage(st: Store, session: Option<Session>, clock: Clock): (r: Result<UsageSummary>)
    ensures r.Err? <==> !SignedIn(session)
    ensures r.Err? ==> r.error == Unauthorized
    ensures r.Ok? ==>
      var user := session.value.userId;
      var u := r.value;
      && u.currentUsage == UsageCount(st, CurrentKey(user, clock))
      && (u.limit == FreeLimit <==> StoredPlan(st, user) == Some(Free))
      && (u.limit == -1 <==> StoredPlan(st, user) != Some(Free))
      && (u.plan == "UNLIMITED" <==> StoredPlan(st, user) == Some(Unlimited))
      && (u.plan == "FREE" <==> StoredPlan(st, user) != Some(Unlimited))
      && (u.canCreatePost <==> StoredPlan(st, user) == Some(Unlimited) || u.currentUsage < FreeLimit)
  {
    if !SignedIn(session) then Err(Unauthorized)
    else
      var user := session.value.userId;
      var current := UsageCount(st, CurrentKey(user, clock));
      var plan := StoredPlan(st, user);
      Ok(UsageSummary(
        current,
        if plan == Some(Free) then FreeLimit else -1,
        if plan.Some? then PlanName(plan.value) else "FREE",
        plan == Some(Unlimited) || current < FreeLimit))
  }

  /** For a free-plan user whose session carries the stored plan, the summary
      says a post cannot be created exactly when the creation route would
      refuse one on quota (the business and type checks passing). */
  lemma CanCreateMatchesQuotaGate(st: Store, s: Session, req: CreateRequest, clock: Clock,
                                  newId: string, parse: string -> Time)
    requires s.userId != "" && s.plan == Some(Free) && StoredPlan(st, s.userId) == Some(Free)
    requires BusinessCheckPasses(st, s, req) && ParseType(Upper(req.kind)).Some?
    ensures !GetUsage(st, Some(s), clock).value.canCreatePost
        <==> QuotaExceeded(st, s, clock)
    ensures !GetUsage(st, Some(s), clock).value.canCreatePost
        <==> CreatePost(st, Some(s), req, clock, newId, parse).result == Err(Forbidden)
  {
  }

  /** A user with no user row is reported on the free plan, yet with the
      no-limit value -1, and may create posts while under five. */
  lemma MissingUserReportedFreeWithoutLimit(st: Store, s: Session, clock: Clock)
    requires s.userId != "" && s.userId !in st.plans
    ensures var u := GetUsage(st, Some(s), clock).value;
      u.plan == "FREE" && u.limit == -1
      && (u.canCreatePost <==> UsageCount(st, CurrentKey(s.userId, clock)) < FreeLimit)
  {
  }

  /** Under the counter invariant a free-plan user's remaining allowance
      `limit - currentUsage` is never negative. */
  lemma FreeRemainingNonNegative(st: Store, s: Session, clock: Clock)
    requires s.userId != "" && StoredPlan(st, s.userId) == Some(Free) && CountersWithinLimit(st)
    ensures var u := GetUsage(st, Some(s), clock).value;
      u.limit - u.currentUsage >= 0
  {
    var key := CurrentKey(s.userId, clock);
    if key in st.usage {
      assert st.usage[key] <= FreeLimit;
    }
  }
}
