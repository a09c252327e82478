/** The post routes: listing with filters (`GET /api/posts`), creation behind
    the free-plan usage gate (`POST /api/posts`), and the single-post update
    and delete routes (`PUT` and `DELETE /api/posts/:id`). Every route runs
    after the session check; the clock reading, the database-generated id and
    the parsing of date strings are inputs. */
module PostsApi {
  import opened Base
  import opened Seqs
  import opened Gregorian
  import opened Domain

  // ---------------------------------------------------------------------
  // GET /api/posts
  // ---------------------------------------------------------------------

  /** A query filter is applied when present and not exactly `all`. */
  predicate FilterApplies(f: Option<string>) {
    Truthy(f) && f.value != "all"
  }

  /** The listing's row condition for the given user and query values. */
  predicate Selected(p: Post, user: string, status: Option<string>, kind: Option<string>) {
    && p.userId == user
    && (FilterApplies(status) ==> StatusName(p.status) == Upper(status.value))
    && (FilterApplies(kind) ==> TypeName(p.kind) == Upper(kind.value))
  }

  /** A filter value that upper-cases to no enum name is rejected by the
      database layer, which the handler reports as a server error. */
  predicate FiltersValid(status: Option<string>, kind: Option<string>) {
    && (FilterApplies(status) ==> ParseStatus(Upper(status.value)).Some?)
    && (FilterApplies(kind) ==> ParseType(Upper(kind.value)).Some?)
  }

  /** `include: { business: true }`: each post paired with the business it
      links to, or with nothing when it links to none or to a missing row. */
  function WithBusinesses(st: Store, posts: seq<Post>): (r: seq<Listed>)
    ensures |r| == |posts|
    ensures forall i :: 0 <= i < |r| ==> r[i].post == posts[i] && r[i].business == BusinessOf(st, posts[i])
    ensures forall i :: 0 <= i < |r| && r[i].business.Some? ==>
      && r[i].business.value in st.businesses
      && posts[i].businessId == Some(r[i].business.value.id)
    ensures forall i :: 0 <= i < |r| ==>
      (r[i].business.None? <==>
         posts[i].businessId.None?
         || forall j :: 0 <= j < |st.businesses| ==> st.businesses[j].id != posts[i].businessId.value)
  {
    seq(|posts|, i requires 0 <= i < |posts| => Listed(posts[i], BusinessOf(st, posts[i])))
  }

  function NewestFirst(l: Listed): int {
    -l.post.createdAt
  }

  /** `GET /api/posts?status=&type=`. */
  function ListPosts(st: Store, session: Option<Session>, status: Option<string>, kind: Option<string>): (r: Result<seq<Listed>>)
    ensures !SignedIn(session) ==> r == Err(Unauthorized)
    ensures SignedIn(session) && !FiltersValid(status, kind) ==> r == Err(ServerError)
    ensures r.Ok? <==> SignedIn(session) && FiltersValid(status, kind)
    ensures r.Ok? ==> forall l :: l in r.value <==>
      l.post in st.posts && Selected(l.post, session.value.userId, status, kind)
      && l.business == BusinessOf(st, l.post)
    ensures r.Ok? ==>
      |r.value| == |Filter(st.posts, p => Selected(p, session.value.userId, status, kind))|
    ensures r.Ok? ==>
      multiset(r.value)
      == multiset(WithBusinesses(st, Filter(st.posts, p => Selected(p, session.value.userId, status, kind))))
    ensures r.Ok? ==> forall i, j :: 0 <= i < j < |r.value| ==>
      r.value[i].post.createdAt >= r.value[j].post.createdAt
  {
    if !SignedIn(session) then Err(Unauthorized)
    else if !FiltersValid(status, kind) then Err(ServerError)
    else
      var user := session.value.userId;
      var keep := p => Selected(p, user, status, kind);
      var rows := Filter(st.posts, keep);
      var listed := WithBusinesses(st, rows);
      var sorted := SortBy(listed, NewestFirst);
      assert forall l :: l in sorted <==> l in listed by {
        forall l ensures l in sorted <==> l in listed {
          assert l in sorted <==> l in multiset(sorted);
          assert l in listed <==> l in multiset(listed);
        }
      }
      assert forall l :: l in listed <==> l.post in rows && l.business == BusinessOf(st, l.post);
      assert forall p :: p in rows <==> p in st.posts && keep(p) by {
        forall p ensures p in rows <==> p in st.posts && keep(p) {
          FilterMembership(st.posts, keep, p);
        }
      }
      Ok(sorted)
  }

  // ---------------------------------------------------------------------
  // POST /api/posts
  // ---------------------------------------------------------------------

  /** The JSON body of a creation request; absent and `null` fields are
      `None`. */
  datatype CreateRequest = CreateRequest(
    title: string,
    content: string,
    kind: string,
    businessId: Option<string>,
    imageUrl: Option<string>,
    scheduledAt: Option<string>,
    eventStartDate: Option<string>,
    eventEndDate: Option<string>,
    eventLocation: Option<string>,
    offerValidUntil: Option<string>,
    offerTerms: Option<string>)

  /** `x ? new Date(x) : null`. */
  function DateField(o: Option<string>, parse: string -> Time): (r: Option<Time>)
    ensures r.Some? <==> Truthy(o)
    ensures r.Some? ==> r.value == parse(o.value)
  {
    if Truthy(o) then Some(parse(o.value)) else None
  }

  /** The business with this id exists and belongs to `user`. */
  predicate OwnsBusiness(st: Store, id: string, user: string) {
    FindBusiness(st.businesses, id).Some? && FindBusiness(st.businesses, id).value.userId == user
  }

  /** The usage row the handler reads and writes: the current month's. */
  function CurrentKey(user: string, clock: Clock): UsageKey {
    UsageKey(user, clock.month, clock.year)
  }

  /** The quota gate: a free-plan session whose current-month counter has
      reached the limit is refused. */
  predicate QuotaExceeded(st: Store, s: Session, clock: Clock) {
    s.plan == Some(Free) && UsageCount(st, CurrentKey(s.userId, clock)) >= FreeLimit
  }

  /** The checks that run before the row is written, in order. */
  predicate BusinessCheckPasses(st: Store, s: Session, req: CreateRequest) {
    Truthy(req.businessId) ==> OwnsBusiness(st, req.businessId.value, s.userId)
  }

  /** `POST /api/posts`. `newId` is the id the database assigns to the row
      and `clock` the handler's reading of the current time. */
  function CreatePost(st: Store, session: Option<Session>, req: CreateRequest, clock: Clock,
                      newId: string, parse: string -> Time): (r: Reply<Post>)
    ensures r.result.Err? ==> r.store == st
    ensures !SignedIn(session) ==> r.result == Err(Unauthorized)
    ensures SignedIn(session) && !BusinessCheckPasses(st, session.value, req) ==>
      r.result == Err(Forbidden)
    ensures (SignedIn(session) && BusinessCheckPasses(st, session.value, req)
             && QuotaExceeded(st, session.value, clock)) ==> r.result == Err(Forbidden)
    ensures (SignedIn(session) && BusinessCheckPasses(st, session.value, req)
             && !QuotaExceeded(st, session.value, clock) && ParseType(Upper(req.kind)).None?) ==>
      r.result == Err(ServerError)
    ensures r.result.Ok? <==>
      && SignedIn(session) && BusinessCheckPasses(st, session.value, req)
      && !QuotaExceeded(st, session.value, clock) && ParseType(Upper(req.kind)).Some?
    ensures r.result.Ok? ==>
      var p := r.result.value;
      && p.id == newId && p.userId == session.value.userId
      && p.title == req.title && p.content == req.content
      && TypeName(p.kind) == Upper(req.kind)
      && (p.status == Scheduled <==> Truthy(req.scheduledAt))
      && (p.status == Draft <==> !Truthy(req.scheduledAt))
      && p.scheduledAt == DateField(req.scheduledAt, parse)
      && p.businessId == TruthyOrNull(req.businessId)
      && p.imageUrl == req.imageUrl
      && p.eventStartDate == DateField(req.eventStartDate, parse)
      && p.eventEndDate == DateField(req.eventEndDate, parse)
      && p.eventLocation == req.eventLocation
      && p.offerValidUntil == DateField(req.offerValidUntil, parse)
      && p.offerTerms == req.offerTerms
      && p.googlePostId.None? && p.createdAt == clock.now
      && r.store.posts == st.posts + [p]
      && r.store.businesses == st.businesses && r.store.plans == st.plans
      && r.store.credentials == st.credentials
    ensures r.result.Ok? ==>
      var key := CurrentKey(session.value.userId, clock);
      r.store.usage == if Truthy(req.scheduledAt) && session.value.plan == Some(Free)
                       then st.usage[key := UsageCount(st, key) + 1] else st.usage
  {
    if !SignedIn(session) then Reply(Err(Unauthorized), st)
    else
      var s := session.value;
      if !BusinessCheckPasses(st, s, req) then Reply(Err(Forbidden), st)
      else if QuotaExceeded(st, s, clock) then Reply(Err(Forbidden), st)
      else match ParseType(Upper(req.kind))
        case None => Reply(Err(ServerError), st)
        case Some(kind) =>
          var post := Post(
            newId, s.userId, req.title, req.content, kind,
            if Truthy(req.scheduledAt) then Scheduled else Draft,
            req.imageUrl, DateField(req.scheduledAt, parse), clock.now,
            TruthyOrNull(req.businessId), None,
            DateField(req.eventStartDate, parse), DateField(req.eventEndDate, parse),
            req.eventLocation, DateField(req.offerValidUntil, parse), req.offerTerms);
          var key := CurrentKey(s.userId, clock);
          var usage := if Truthy(req.scheduledAt) && s.plan == Some(Free)
                       then st.usage[key := UsageCount(st, key) + 1] else st.usage;
          Reply(Ok(post), st.(posts := st.posts + [post], usage := usage))
  }

  /** Creation never lets a counter pass the free-plan limit: a free-plan
      request only increments after the gate saw a count below the limit, and
      other plans never touch the counters. */
  lemma CreateKeepsCountersWithinLimit(st: Store, session: Option<Session>, req: CreateRequest,
                                       clock: Clock, newId: string, parse: string -> Time)
    requires CountersWithinLimit(st)
    ensures CountersWithinLimit(CreatePost(st, session, req, clock, newId, parse).store)
  {
    var r := CreatePost(st, session, req, clock, newId, parse);
    if r.result.Ok? && Truthy(req.scheduledAt) && session.value.plan == Some(Free) {
      var key := CurrentKey(session.value.userId, clock);
      assert !QuotaExceeded(st, session.value, clock);
      assert UsageCount(st, key) + 1 <= FreeLimit;
    }
  }

  /** A session that is not on the free plan is never refused on quota and
      never changes a usage counter. */
  lemma NonFreeSessionSkipsQuota(st: Store, s: Session, req: CreateRequest, clock: Clock,
                                 newId: string, parse: string -> Time)
    requires s.userId != "" && s.plan != Some(Free)
    requires BusinessCheckPasses(st, s, req) && ParseType(Upper(req.kind)).Some?
    ensures CreatePost(st, Some(s), req, clock, newId, parse).result.Ok?
    ensures CreatePost(st, Some(s), req, clock, newId, parse).store.usage == st.usage
  {
  }

  /** For a free-plan session with a counter at the limit, even a draft (no
      `scheduledAt`) is refused; below the limit a draft is accepted and
      leaves the counters alone. */
  lemma DraftsAreGatedButNotCounted(st: Store, s: Session, req: CreateRequest, clock: Clock,
                                    newId: string, parse: string -> Time)
    requires s.userId != "" && s.plan == Some(Free) && !Truthy(req.scheduledAt)
    requires BusinessCheckPasses(st, s, req) && ParseType(Upper(req.kind)).Some?
    ensures var r := CreatePost(st, Some(s), req, clock, newId, parse);
      && (UsageCount(st, CurrentKey(s.userId, clock)) >= FreeLimit ==> r.result == Err(Forbidden))
      && (UsageCount(st, CurrentKey(s.userId, clock)) < FreeLimit ==>
            r.result.Ok? && r.result.value.status == Draft && r.store.usage == st.usage)
  {
  }

  /** The counter that moves is the one for the month of the request, not the
      month of `scheduledAt`: two requests that differ only in `scheduledAt`
      touch the same row. */
  lemma CounterFollowsRequestMonth(st: Store, s: Session, req: CreateRequest, when: string,
                                   clock: Clock, newId: string, parse: string -> Time)
    requires s.userId != "" && s.plan == Some(Free) && when != ""
    requires Truthy(req.scheduledAt)
    ensures CreatePost(st, Some(s), req, clock, newId, parse).store.usage
         == CreatePost(st, Some(s), req.(scheduledAt := Some(when)), clock, newId, parse).store.usage
  {
  }

  /** A fresh id keeps post ids unique. */
  lemma CreateKeepsIdsUnique(st: Store, session: Option<Session>, req: CreateRequest, clock: Clock,
                             newId: string, parse: string -> Time)
    requires PostIdsUnique(st.posts)
    requires forall i :: 0 <= i < |st.posts| ==> st.posts[i].id != newId
    ensures PostIdsUnique(CreatePost(st, session, req, clock, newId, parse).store.posts)
  {
  }

  // ---------------------------------------------------------------------
  // PUT /api/posts/:id and DELETE /api/posts/:id
  // ---------------------------------------------------------------------

  /** The JSON body of an update request. */
  datatype UpdateRequest = UpdateRequest(
    title: string,
    content: string,
    kind: string,
    imageUrl: Option<string>,
    scheduledAt: Option<string>,
    eventStartDate: Option<string>,
    eventEndDate: Option<string>,
    eventLocation: Option<string>,
    offerValidUntil: Option<string>,
    offerTerms: Option<string>)

  /** `findFirst({ where: { id, userId } })`: the user's own post with this
      id, if any. With unique post ids it finds one exactly when some row has
      both this id and this owner. */
  function OwnPost(st: Store, user: string, id: string): (r: Option<Post>)
    ensures r.Some? ==> r.value in st.posts && r.value.id == id && r.value.userId == user
    ensures PostIdsUnique(st.posts) ==>
      (r.None? <==> forall i :: 0 <= i < |st.posts| ==> !(st.posts[i].id == id && st.posts[i].userId == user))
  {
    var p := FindPost(st.posts, id);
    FoundIsOnlyRowIf(st.posts, id);
    if p.Some? && p.value.userId == user then p else None
  }

  lemma FoundIsOnlyRowIf(posts: seq<Post>, id: string)
    ensures PostIdsUnique(posts) && FindPost(posts, id).Some? ==>
      forall i :: 0 <= i < |posts| && posts[i].id == id ==> posts[i] == FindPost(posts, id).value
  {
    if PostIdsUnique(posts) && FindPost(posts, id).Some? {
      FoundIsOnlyRow(posts, id);
    }
  }

  /** With unique ids, every row with the looked-up id is the row found. */
  lemma FoundIsOnlyRow(posts: seq<Post>, id: string)
    requires PostIdsUnique(posts) && FindPost(posts, id).Some?
    ensures forall i :: 0 <= i < |posts| && posts[i].id == id ==> posts[i] == FindPost(posts, id).value
  {
    var q := FindPost(posts, id).value;
    var k :| 0 <= k < |posts| && posts[k] == q;
    forall i | 0 <= i < |posts| && posts[i].id == id
      ensures posts[i] == q
    {
      assert i == k;
    }
  }

  /** `PUT /api/posts/:id`. */
  function UpdatePost(st: Store, session: Option<Session>, id: string, req: UpdateRequest,
                      parse: string -> Time): (r: Reply<Post>)
    ensures r.result.Err? ==> r.store == st
    ensures !SignedIn(session) ==> r.result == Err(Unauthorized)
    ensures SignedIn(session) && OwnPost(st, session.value.userId, id).None? ==>
      r.result == Err(NotFound)
    ensures (SignedIn(session) && OwnPost(st, session.value.userId, id).Some?
             && ParseType(Upper(req.kind)).None?) ==> r.result == Err(ServerError)
    ensures r.result.Ok? <==>
      SignedIn(session) && OwnPost(st, session.value.userId, id).Some?
      && ParseType(Upper(req.kind)).Some?
    ensures r.result.Ok? ==>
      var prev := OwnPost(st, session.value.userId, id).value;
      var p := r.result.value;
      && (p.status == Scheduled <==> Truthy(req.scheduledAt))
      && (p.status == Draft <==> !Truthy(req.scheduledAt))
      && TypeName(p.kind) == Upper(req.kind)
      && p.scheduledAt == DateField(req.scheduledAt, parse)
      && p.title == req.title && p.content == req.content && p.imageUrl == req.imageUrl
      && p.eventStartDate == DateField(req.eventStartDate, parse)
      && p.eventEndDate == DateField(req.eventEndDate, parse)
      && p.eventLocation == req.eventLocation
      && p.offerValidUntil == DateField(req.offerValidUntil, parse)
      && p.offerTerms == req.offerTerms
      && p.id == prev.id && p.userId == prev.userId && p.createdAt == prev.createdAt
      && p.businessId == prev.businessId && p.googlePostId == prev.googlePostId
      && r.store == st.(posts := ReplacePost(st.posts, id, p))
  {
    if !SignedIn(session) then Reply(Err(Unauthorized), st)
    else match OwnPost(st, session.value.userId, id)
      case None => Reply(Err(NotFound), st)
      case Some(prev) =>
        match ParseType(Upper(req.kind))
        case None => Reply(Err(ServerError), st)
        case Some(kind) =>
          var p := prev.(
            title := req.title, content := req.content, kind := kind,
            imageUrl := req.imageUrl, scheduledAt := DateField(req.scheduledAt, parse),
            eventStartDate := DateField(req.eventStartDate, parse),
            eventEndDate := DateField(req.eventEndDate, parse),
            eventLocation := req.eventLocation,
            offerValidUntil := DateField(req.offerValidUntil, parse),
            offerTerms := req.offerTerms,
            status := if Truthy(req.scheduledAt) then Scheduled else Draft);
          Reply(Ok(p), st.(posts := ReplacePost(st.posts, id, p)))
  }

  /** `DELETE /api/posts/:id`. */
  function DeletePost(st: Store, session: Option<Session>, id: string): (r: Reply<string>)
    ensures r.result.Err? ==> r.store == st
    ensures !SignedIn(session) ==> r.result == Err(Unauthorized)
    ensures SignedIn(session) && OwnPost(st, session.value.userId, id).None? ==>
      r.result == Err(NotFound)
    ensures r.result.Ok? <==> SignedIn(session) && OwnPost(st, session.value.userId, id).Some?
    ensures r.result.Ok? ==>
      && r.result.value == "Post deleted successfully"
      && FindPost(r.store.posts, id).None?
      && r.store == st.(posts := r.store.posts)
      && (forall p :: p in r.store.posts <==> p in st.posts && p.id != id)
      && IsSubsequence(r.store.posts, st.posts)
    ensures PostIdsUnique(st.posts) ==> PostIdsUnique(r.store.posts)
  {
    if !SignedIn(session) then Reply(Err(Unauthorized), st)
    else if OwnPost(st, session.value.userId, id).None? then Reply(Err(NotFound), st)
    else
      var keep := (p: Post) => p.id != id;
      var rest := Filter(st.posts, keep);
      assert forall p :: p in rest <==> p in st.posts && p.id != id by {
        forall p ensures p in rest <==> p in st.posts && p.id != id {
          FilterMembership(st.posts, keep, p);
        }
      }
      SubsequenceKeepsIdsUnique(rest, st.posts);
      Reply(Ok("Post deleted successfully"), st.(posts := rest))
  }

  /** Removing rows keeps post ids unique. */
  lemma {:induction false} SubsequenceKeepsIdsUnique(r: seq<Post>, s: seq<Post>)
    requires IsSubsequence(r, s)
    ensures PostIdsUnique(s) ==> PostIdsUnique(r)
    decreases |s|
  {
    if |r| > 0 && PostIdsUnique(s) {
      if r[0] == s[0] {
        SubsequenceKeepsIdsUnique(r[1..], s[1..]);
        forall j | 1 <= j < |r|
          ensures r[0].id != r[j].id
        {
          assert r[j] in r[1..];
          SubsequenceMembers(r[1..], s[1..], r[j]);
          var m :| 0 <= m < |s[1..]| && s[1..][m] == r[j];
          assert s[m + 1] == r[j];
        }
      } else {
        SubsequenceKeepsIdsUnique(r, s[1..]);
      }
    }
  }

  /** Scheduling is checked only at creation: an update may set
      `scheduledAt` on a draft whatever the usage counter says, and no
      counter moves. */
  lemma UpdateSchedulesWithoutQuota(st: Store, s: Session, id: string, req: UpdateRequest,
                                    parse: string -> Time)
    requires s.userId != "" && OwnPost(st, s.userId, id).Some?
    requires ParseType(Upper(req.kind)).Some? && Truthy(req.scheduledAt)
    ensures var r := UpdatePost(st, Some(s), id, req, parse);
      r.result.Ok? && r.result.value.status == Scheduled && r.store.usage == st.usage
  {
  }

  /** Creating a post with `scheduledAt` set yields a scheduled post; updating
      it with `scheduledAt` cleared turns it into a draft. */
  lemma ScheduleThenClear(st: Store, s: Session, req: CreateRequest, clock: Clock, newId: string,
                          upd: UpdateRequest, parse: string -> Time)
    requires s.userId != "" && BusinessCheckPasses(st, s, req) && !QuotaExceeded(st, s, clock)
    requires ParseType(Upper(req.kind)).Some? && Truthy(req.scheduledAt)
    requires ParseType(Upper(upd.kind)).Some? && !Truthy(upd.scheduledAt)
    requires forall i :: 0 <= i < |st.posts| ==> st.posts[i].id != newId
    ensures var c := CreatePost(st, Some(s), req, clock, newId, parse);
      && c.result.Ok? && c.result.value.status == Scheduled
      && var u := UpdatePost(c.store, Some(s), newId, upd, parse);
         u.result.Ok? && u.result.value.status == Draft
  {
    var c := CreatePost(st, Some(s), req, clock, newId, parse);
    var p := c.result.value;
    assert c.store.posts == st.posts + [p];
    assert FindPost(c.store.posts, newId) == Some(p) by {
      FindAppended(st.posts, p);
    }
  }

  lemma {:induction false} FindAppended(posts: seq<Post>, p: Post)
    requires forall i :: 0 <= i < |posts| ==> posts[i].id != p.id
    ensures FindPost(posts + [p], p.id) == Some(p)
    decreases |posts|
  {
    if |posts| > 0 {
      assert (posts + [p])[1..] == posts[1..] + [p];
      FindAppended(posts[1..], p);
    }
  }
}
