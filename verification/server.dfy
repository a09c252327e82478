/** The route handlers as transitions of one store, applied one request at
    a time, and the invariants that hold over any run of them. */
module Server {
  import opened Base
  import opened Gregorian
  import opened Domain
  import opened GoogleProfile
  import opened PostsApi
  import opened PublishApi
  import opened BusinessesApi

  /** A request that can change the store, with the inputs its handler
      receives from outside: the session, the clock, the ids the database
      assigns, the date parser and the provider's answers. */
  datatype Request =
    | Create(session: Option<Session>, body: CreateRequest, clock: Clock, newId: string, parse: string -> Time)
    | Update(session: Option<Session>, id: string, changes: UpdateRequest, parse: string -> Time)
    | Delete(session: Option<Session>, id: string)
    | PublishPost(session: Option<Session>, postId: Option<string>, now: Time, refresh: RefreshOutcome,
                  created: CreateOutcome)
    | Import(session: Option<Session>, now: Time, refresh: RefreshOutcome, accounts: AccountsOutcome,
             idFor: string -> string)

  /** The store after one request. */
  function Apply(st: Store, r: Request): Store {
    match r
    case Create(session, body, clock, newId, parse) => CreatePost(st, session, body, clock, newId, parse).store
    case Update(session, id, changes, parse) => UpdatePost(st, session, id, changes, parse).store
    case Delete(session, id) => DeletePost(st, session, id).store
    case PublishPost(session, postId, now, refresh, created) => Publish(st, session, postId, now, refresh, created).store
    case Import(session, now, refresh, accounts, idFor) => ImportBusinesses(st, session, now, refresh, accounts, idFor).store
  }

  /** The store after a sequence of requests, in order. */
  function Run(st: Store, rs: seq<Request>): Store
    decreases |rs|
  {
    if |rs| == 0 then st else Run(Apply(st, rs[0]), rs[1..])
  }

  /** One request leaves every counter at or below the free-plan limit if it
      was, and never lowers a counter. Only a free-plan creation moves a
      counter, and only after the gate saw it below the limit. */
  lemma ApplyKeepsCounter(st: Store, r: Request, key: UsageKey)
    ensures UsageCount(Apply(st, r), key) >= UsageCount(st, key)
    ensures UsageCount(st, key) <= FreeLimit ==> UsageCount(Apply(st, r), key) <= FreeLimit
  {
    match r
    case Create(session, body, clock, newId, parse) =>
      var reply := CreatePost(st, session, body, clock, newId, parse);
      if reply.result.Ok? && Truthy(body.scheduledAt) && session.value.plan == Some(Free) {
        var k := CurrentKey(session.value.userId, clock);
        assert !QuotaExceeded(st, session.value, clock);
        if key == k {
          assert UsageCount(reply.store, key) == UsageCount(st, key) + 1;
        } else {
          assert UsageCount(reply.store, key) == UsageCount(st, key);
        }
      }
    case Update(_, _, _, _) =>
    case Delete(_, _) =>
    case PublishPost(_, _, _, _, _) =>
    case Import(_, _, _, _, _) =>
  }

  /** Under any sequence of requests a counter that starts at or below the
      free-plan limit of five stays there. */
  lemma {:induction false} RunKeepsCounter(st: Store, rs: seq<Request>, key: UsageKey)
    requires UsageCount(st, key) <= FreeLimit
    ensures UsageCount(Run(st, rs), key) <= FreeLimit
    ensures UsageCount(Run(st, rs), key) >= UsageCount(st, key)
    decreases |rs|
  {
    if |rs| > 0 {
      ApplyKeepsCounter(st, rs[0], key);
      RunKeepsCounter(Apply(st, rs[0]), rs[1..], key);
    }
  }

  /** The counter invariant of the whole store holds after any run. */
  lemma RunKeepsCountersWithinLimit(st: Store, rs: seq<Request>)
    requires CountersWithinLimit(st)
    ensures CountersWithinLimit(Run(st, rs))
  {
    var end := Run(st, rs);
    forall k | k in end.usage
      ensures end.usage[k] <= FreeLimit
    {
      RunKeepsCounter(st, rs, k);
    }
  }

  /** Business `googleId`s stay unique under any run. */
  lemma {:induction false} RunKeepsGoogleIdsUnique(st: Store, rs: seq<Request>)
    requires GoogleIdsUnique(st.businesses)
    ensures GoogleIdsUnique(Run(st, rs).businesses)
    decreases |rs|
  {
    if |rs| > 0 {
      RunKeepsGoogleIdsUnique(Apply(st, rs[0]), rs[1..]);
    }
  }

  /** Every creation in the run is given an id no post has at that point. */
  predicate IdsFresh(st: Store, rs: seq<Request>)
    decreases |rs|
  {
    |rs| == 0 ||
    ((rs[0].Create? ==> forall i :: 0 <= i < |st.posts| ==> st.posts[i].id != rs[0].newId)
     && IdsFresh(Apply(st, rs[0]), rs[1..]))
  }

  /** With fresh ids for new posts, post ids stay unique under any run:
      updates and publishes keep each row's id and deletions only remove
      rows. */
  lemma {:induction false} RunKeepsPostIdsUnique(st: Store, rs: seq<Request>)
    requires PostIdsUnique(st.posts) && IdsFresh(st, rs)
    ensures PostIdsUnique(Run(st, rs).posts)
    decreases |rs|
  {
    if |rs| > 0 {
      var r := rs[0];
      match r {
        case Create(session, body, clock, newId, parse) =>
          CreateKeepsIdsUnique(st, session, body, clock, newId, parse);
        case Update(session, id, changes, parse) =>
          var reply := UpdatePost(st, session, id, changes, parse);
          if reply.result.Ok? {
            ReplaceKeepsIdsUnique(st.posts, id, reply.result.value);
          }
        case Delete(_, _) =>
        case PublishPost(session, postId, now, refresh, created) =>
          var reply := Publish(st, session, postId, now, refresh, created);
          if reply.result.Ok? {
            var p := FindPost(st.posts, postId.value).value;
            ReplaceKeepsIdsUnique(st.posts, p.id, AsPublished(p, created.name));
          }
        case Import(_, _, _, _, _) =>
      }
      RunKeepsPostIdsUnique(Apply(st, r), rs[1..]);
    }
  }
}
