/** The records the application stores and exchanges: users' plans, posts,
    businesses (Google Business Profile locations), monthly usage counters and
    the stored Google OAuth credential, gathered in one abstract store. */
module Domain {
  import opened Base
  import opened Gregorian

  datatype Plan = Free | Unlimited

  datatype PostType = Update | Event | Offer

  datatype PostStatus = Draft | Scheduled | Published

  function PlanName(p: Plan): string {
    match p
    case Free => "FREE"
    case Unlimited => "UNLIMITED"
  }

  function TypeName(t: PostType): string {
    match t
    case Update => "UPDATE"
    case Event => "EVENT"
    case Offer => "OFFER"
  }

  function StatusName(s: PostStatus): string {
    match s
    case Draft => "DRAFT"
    case Scheduled => "SCHEDULED"
    case Published => "PUBLISHED"
  }

  /** The post type a stored enum name denotes, if any. */
  function ParseType(name: string): (t: Option<PostType>)
    ensures t.Some? <==> name in {"UPDATE", "EVENT", "OFFER"}
    ensures t.Some? ==> TypeName(t.value) == name
  {
    if name == "UPDATE" then Some(Update)
    else if name == "EVENT" then Some(Event)
    else if name == "OFFER" then Some(Offer)
    else None
  }

  /** The post status a stored enum name denotes, if any. */
  function ParseStatus(name: string): (s: Option<PostStatus>)
    ensures s.Some? <==> name in {"DRAFT", "SCHEDULED", "PUBLISHED"}
    ensures s.Some? ==> StatusName(s.value) == name
  {
    if name == "DRAFT" then Some(Draft)
    else if name == "SCHEDULED" then Some(Scheduled)
    else if name == "PUBLISHED" then Some(Published)
    else None
  }

  lemma ParseTypeName(t: PostType)
    ensures ParseType(TypeName(t)) == Some(t)
  {
  }

  /** A type's name is already upper-case, so the upper-casing of the
      routes reads it back as that type. */
  lemma UpperTypeName(t: PostType)
    ensures Upper(TypeName(t)) == TypeName(t)
    ensures ParseType(Upper(TypeName(t))) == Some(t)
  {
    UpperOfUpperCase(TypeName(t));
  }

  lemma ParseStatusName(s: PostStatus)
    ensures ParseStatus(StatusName(s)) == Some(s)
  {
  }

  /** A row of the post table. `kind` is the post's `type` column. */
  datatype Post = Post(
    id: string,
    userId: string,
    title: string,
    content: string,
    kind: PostType,
    status: PostStatus,
    imageUrl: Option<string>,
    scheduledAt: Option<Time>,
    createdAt: Time,
    businessId: Option<string>,
    googlePostId: Option<string>,
    eventStartDate: Option<Time>,
    eventEndDate: Option<Time>,
    eventLocation: Option<string>,
    offerValidUntil: Option<Time>,
    offerTerms: Option<string>)

  /** A row of the business table: one Google Business Profile location. */
  datatype Business = Business(
    id: string,
    userId: string,
    googleId: string,
    name: string,
    address: string,
    phoneNumber: Option<string>,
    websiteUrl: Option<string>,
    category: Option<string>,
    isVerified: bool)

  /** A post as the listing returns it, with its business included. */
  datatype Listed = Listed(post: Post, business: Option<Business>)

  /** The stored Google OAuth credential of a user (`expiresAt` in seconds). */
  datatype Credential = Credential(
    accessToken: Option<string>,
    refreshToken: Option<string>,
    expiresAt: Option<int>)

  /** The composite key of the usage table. */
  datatype UsageKey = UsageKey(userId: string, month: int, year: int)

  /** The signed-in user as the session reports it; the plan is copied into
      the session token at sign-in and may be missing. */
  datatype Session = Session(userId: string, plan: Option<Plan>)

  /** `session?.user?.id` is truthy. */
  predicate SignedIn(session: Option<Session>) {
    session.Some? && session.value.userId != ""
  }

  /** The database: post and business tables, user plans, usage counters
      and Google credentials, each keyed as the schema keys them. */
  datatype Store = Store(
    posts: seq<Post>,
    businesses: seq<Business>,
    plans: map<string, Plan>,
    usage: map<UsageKey, nat>,
    credentials: map<string, Credential>)

  /** Post ids are unique. */
  predicate PostIdsUnique(posts: seq<Post>) {
    forall i, j :: 0 <= i < j < |posts| ==> posts[i].id != posts[j].id
  }

  /** Business `googleId`s are unique (the upsert key). */
  predicate GoogleIdsUnique(bs: seq<Business>) {
    forall i, j :: 0 <= i < j < |bs| ==> bs[i].googleId != bs[j].googleId
  }

  function FindPost(posts: seq<Post>, id: string): (r: Option<Post>)
    ensures r.Some? ==> r.value in posts && r.value.id == id
    ensures r.None? <==> forall i :: 0 <= i < |posts| ==> posts[i].id != id
  {
    if |posts| == 0 then None
    else if posts[0].id == id then Some(posts[0])
    else FindPost(posts[1..], id)
  }

  function FindBusiness(bs: seq<Business>, id: string): (r: Option<Business>)
    ensures r.Some? ==> r.value in bs && r.value.id == id
    ensures r.None? <==> forall i :: 0 <= i < |bs| ==> bs[i].id != id
  {
    if |bs| == 0 then None
    else if bs[0].id == id then Some(bs[0])
    else FindBusiness(bs[1..], id)
  }

  /** The post table with every row whose id is `id` replaced by `p`. */
  function ReplacePost(posts: seq<Post>, id: string, p: Post): (r: seq<Post>)
    ensures |r| == |posts|
    ensures forall i :: 0 <= i < |posts| && posts[i].id != id ==> r[i] == posts[i]
    ensures forall i :: 0 <= i < |posts| && posts[i].id == id ==> r[i] == p
    ensures p.id == id ==> forall other :: other != id ==> FindPost(r, other) == FindPost(posts, other)
    ensures p.id == id ==> FindPost(r, id) == if FindPost(posts, id).Some? then Some(p) else None
  {
    var r := seq(|posts|, i requires 0 <= i < |posts| => if posts[i].id == id then p else posts[i]);
    ReplaceLookups(posts, r, id, p);
    r
  }

  lemma ReplaceLookups(posts: seq<Post>, r: seq<Post>, id: string, p: Post)
    requires |r| == |posts|
    requires forall i :: 0 <= i < |posts| ==> r[i] == if posts[i].id == id then p else posts[i]
    ensures p.id == id ==> forall other :: other != id ==> FindPost(r, other) == FindPost(posts, other)
    ensures p.id == id ==> FindPost(r, id) == if FindPost(posts, id).Some? then Some(p) else None
  {
    if p.id == id {
      forall other | other != id
        ensures FindPost(r, other) == FindPost(posts, other)
      {
        FindAfterReplace(posts, r, id, p, other);
      }
      FindAfterReplace(posts, r, id, p, id);
    }
  }

  /** The lookup after a replacement: ids other than the replaced one find
      what they found before, and the replaced id finds the new row. */
  lemma {:induction false} FindAfterReplace(posts: seq<Post>, r: seq<Post>, id: string, p: Post, key: string)
    requires |r| == |posts|
    requires forall i :: 0 <= i < |posts| ==> r[i] == if posts[i].id == id then p else posts[i]
    requires p.id == id
    ensures key != id ==> FindPost(r, key) == FindPost(posts, key)
    ensures key == id ==> FindPost(r, key) == if FindPost(posts, key).Some? then Some(p) else None
    decreases |posts|
  {
    if |posts| > 0 {
      var ps, rs := posts[1..], r[1..];
      assert forall i :: 0 <= i < |ps| ==> rs[i] == r[i + 1] && ps[i] == posts[i + 1];
      FindAfterReplace(ps, rs, id, p, key);
      if posts[0].id == id {
        assert r[0] == p;
      } else {
        assert r[0] == posts[0];
      }
    }
  }

  /** Replacing a row by one with the same id keeps ids unique. */
  lemma ReplaceKeepsIdsUnique(posts: seq<Post>, id: string, p: Post)
    requires PostIdsUnique(posts) && p.id == id
    ensures PostIdsUnique(ReplacePost(posts, id, p))
  {
  }

  /** The business a post links to, as `include: { business: true }`
      resolves it. */
  function BusinessOf(st: Store, p: Post): Option<Business> {
    if p.businessId.Some? then FindBusiness(st.businesses, p.businessId.value) else None
  }

  /** The counter for `key`, with a missing row read as 0. */
  function UsageCount(st: Store, key: UsageKey): nat {
    if key in st.usage then st.usage[key] else 0
  }

  /** The free-plan monthly limit. */
  const FreeLimit: nat := 5

  /** The usage gate's invariant: no counter exceeds the free-plan limit. */
  predicate CountersWithinLimit(st: Store) {
    forall k :: k in st.usage ==> st.usage[k] <= FreeLimit
  }

  /** The error responses of the route handlers. */
  datatype HttpError = BadRequest | Unauthorized | Forbidden | NotFound | ServerError {
    function Code(): int {
      match this
      case BadRequest => 400
      case Unauthorized => 401
      case Forbidden => 403
      case NotFound => 404
      case ServerError => 500
    }
  }

  datatype Result<+T> = Ok(value: T) | Err(error: HttpError)

  /** A route's reply: the response body or error, and the database
      afterwards. */
  datatype Reply<+T> = Reply(result: Result<T>, store: Store)

  /** The handler's reading of the local clock: the instant, and the month
      (1 to 12) and year it falls in. */
  datatype Clock = Clock(now: Time, month: int, year: int)
}
