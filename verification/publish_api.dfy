/** `POST /api/posts/google`: publishing a stored post to the provider. The
    route runs its checks in a fixed order, obtains the access token (which
    may refresh and store a new one), sends the converted post to the
    business's location, and on success records the provider's post name and
    marks the post published. The token endpoint's and the provider's answers
    are inputs. */
module PublishApi {
  import opened Base
  import opened Gregorian
  import opened Domain
  import opened GoogleProfile

  /** The provider's answer to the `localPosts` create call. */
  datatype CreateOutcome = CreateFailed | CreatedPost(name: string)

  /** The reply, plus the location and payload sent to the provider when the
      create call was made. */
  datatype PublishReply = PublishReply(result: Result<string>, store: Store, sent: Option<(string, GooglePost)>)

  /** The store with the user's credential as the token lookup left it. */
  function WithCredential(st: Store, user: string, c: Option<Credential>): (r: Store)
    ensures r.posts == st.posts && r.businesses == st.businesses
    ensures r.plans == st.plans && r.usage == st.usage
    ensures c.Some? ==> r.credentials == st.credentials[user := c.value]
    ensures c.None? ==> r.credentials == st.credentials
  {
    if c.Some? then st.(credentials := st.credentials[user := c.value]) else st
  }

  function StoredCredential(st: Store, user: string): Option<Credential> {
    if user in st.credentials then Some(st.credentials[user]) else None
  }

  /** The token lookup the route performs for `user`. */
  function TokenFor(st: Store, user: string, now: Time, refresh: RefreshOutcome): TokenLookup {
    GetAccessToken(StoredCredential(st, user), now, refresh)
  }

  /** The post as stored after a successful publish. */
  function AsPublished(p: Post, name: string): (q: Post)
    ensures q.status == PostStatus.Published && q.googlePostId == Some(name)
    ensures q.(status := p.status, googlePostId := p.googlePostId) == p
  {
    p.(googlePostId := Some(name), status := PostStatus.Published)
  }

  /** `POST /api/posts/google` with body `{ postId }`. */
  function Publish(st: Store, session: Option<Session>, postId: Option<string>, now: Time,
                   refresh: RefreshOutcome, created: CreateOutcome): (r: PublishReply)
    ensures !SignedIn(session) ==> r == PublishReply(Err(Unauthorized), st, None)
    ensures SignedIn(session) && !Truthy(postId) ==> r == PublishReply(Err(BadRequest), st, None)
    ensures SignedIn(session) && Truthy(postId) && FindPost(st.posts, postId.value).None? ==>
      r == PublishReply(Err(NotFound), st, None)
    ensures SignedIn(session) && Truthy(postId) && FindPost(st.posts, postId.value).Some? ==>
      var p := FindPost(st.posts, postId.value).value;
      && (p.userId != session.value.userId ==> r == PublishReply(Err(Forbidden), st, None))
      && (p.userId == session.value.userId && BusinessOf(st, p).None? ==>
            r == PublishReply(Err(BadRequest), st, None))
      && (p.userId == session.value.userId && BusinessOf(st, p).Some? ==>
            var lookup := TokenFor(st, p.userId, now, refresh);
            && (r.sent.Some? <==> Truthy(lookup.token))
            && (!Truthy(lookup.token) ==> r.result == Err(Unauthorized))
            && (Truthy(lookup.token) && created.CreateFailed? ==> r.result == Err(ServerError))
            && r.store.credentials == WithCredential(st, p.userId, lookup.credential).credentials)
    ensures r.sent.Some? ==>
      var p := FindPost(st.posts, postId.value).value;
      && p.userId == session.value.userId && BusinessOf(st, p).Some?
      && Truthy(TokenFor(st, p.userId, now, refresh).token)
      && r.sent.value == (BusinessOf(st, p).value.googleId, ConvertToGooglePost(p))
    ensures r.result.Ok? <==> r.sent.Some? && created.CreatedPost?
    ensures r.result.Ok? ==> r.result.value == created.name
    ensures r.store.usage == st.usage && r.store.plans == st.plans && r.store.businesses == st.businesses
    ensures r.result.Ok? ==>
      var p := FindPost(st.posts, postId.value).value;
      r.store.posts == ReplacePost(st.posts, p.id, AsPublished(p, created.name))
    ensures r.result.Err? ==> r.store.posts == st.posts
  {
    if !SignedIn(session) then PublishReply(Err(Unauthorized), st, None)
    else if !Truthy(postId) then PublishReply(Err(BadRequest), st, None)
    else match FindPost(st.posts, postId.value)
      case None => PublishReply(Err(NotFound), st, None)
      case Some(p) =>
        if p.userId != session.value.userId then PublishReply(Err(Forbidden), st, None)
        else match BusinessOf(st, p)
          case None => PublishReply(Err(BadRequest), st, None)
          case Some(business) =>
            var lookup := TokenFor(st, p.userId, now, refresh);
            var st' := WithCredential(st, p.userId, lookup.credential);
            if !Truthy(lookup.token) then PublishReply(Err(Unauthorized), st', None)
            else
              var sent := Some((business.googleId, ConvertToGooglePost(p)));
              match created
              case CreateFailed => PublishReply(Err(ServerError), st', sent)
              case CreatedPost(name) =>
                PublishReply(Ok(name), st'.(posts := ReplacePost(st.posts, p.id, AsPublished(p, name))), sent)
  }

  /** After a successful publish, looking the post up again finds it
      published with the provider's name, and every other post is as it
      was. */
  lemma PublishMarksOnlyThatPost(st: Store, session: Option<Session>, postId: Option<string>, now: Time,
                                 refresh: RefreshOutcome, created: CreateOutcome)
    requires PostIdsUnique(st.posts)
    requires Publish(st, session, postId, now, refresh, created).result.Ok?
    ensures var r := Publish(st, session, postId, now, refresh, created);
      && FindPost(r.store.posts, postId.value)
         == Some(AsPublished(FindPost(st.posts, postId.value).value, created.name))
      && PostIdsUnique(r.store.posts)
      && |r.store.posts| == |st.posts|
      && forall i :: 0 <= i < |st.posts| && st.posts[i].id != postId.value ==>
           r.store.posts[i] == st.posts[i]
  {
    var p := FindPost(st.posts, postId.value).value;
    var q := AsPublished(p, created.name);
    ReplaceKeepsIdsUnique(st.posts, p.id, q);
  }

  /** There is no status guard: a post that is already published is sent
      again and receives the new provider name. */
  lemma RepublishAllowed(st: Store, s: Session, id: string, now: Time, refresh: RefreshOutcome, name: string)
    requires s.userId != ""
    requires FindPost(st.posts, id).Some? && FindPost(st.posts, id).value.status == PostStatus.Published
    requires FindPost(st.posts, id).value.userId == s.userId
    requires BusinessOf(st, FindPost(st.posts, id).value).Some?
    requires Truthy(TokenFor(st, s.userId, now, refresh).token)
    requires id != ""
    ensures Publish(st, Some(s), Some(id), now, refresh, CreatedPost(name)).result == Ok(name)
    ensures Publish(st, Some(s), Some(id), now, refresh, CreatedPost(name)).sent.Some?
  {
  }

  /** A refreshed token is stored even when the provider then refuses the
      post: the failure leaves the posts alone but not the credential. */
  lemma RefreshPersistsOnFailedCreate(st: Store, s: Session, id: string, now: Time, token: string, expiresIn: int)
    requires s.userId != "" && id != "" && token != ""
    requires FindPost(st.posts, id).Some? && FindPost(st.posts, id).value.userId == s.userId
    requires BusinessOf(st, FindPost(st.posts, id).value).Some?
    requires s.userId in st.credentials
    requires Truthy(st.credentials[s.userId].accessToken) && Expired(st.credentials[s.userId], now)
    ensures var r := Publish(st, Some(s), Some(id), now, Refreshed(token, expiresIn), CreateFailed);
      && r.result == Err(ServerError) && r.store.posts == st.posts
      && r.store.credentials[s.userId].accessToken == Some(token)
  {
  }
}
