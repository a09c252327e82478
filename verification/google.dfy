/** The Google Business Profile side of the application: the conversion of a
    stored post into the provider's `localPosts` payload, and the decision to
    reuse or refresh the stored OAuth access token. The refresh exchanges the
    refresh token at the provider's token endpoint (the refresh-token grant of
    section 6 of RFC 6749); its response is an input here. */
module GoogleProfile {
  import opened Base
  import opened Text
  import opened Gregorian
  import opened Domain

  // ---------------------------------------------------------------------
  // The provider's post payload
  // ---------------------------------------------------------------------

  datatype TopicType = StandardTopic | EventTopic | OfferTopic

  function TopicName(t: TopicType): string {
    match t
    case StandardTopic => "STANDARD"
    case EventTopic => "EVENT"
    case OfferTopic => "OFFER"
  }

  datatype Media = Media(mediaFormat: string, sourceUrl: string)

  datatype Schedule = Schedule(startDate: string, startTime: string, endDate: string, endTime: string)

  datatype EventInfo = EventInfo(title: string, schedule: Schedule)

  datatype OfferInfo = OfferInfo(
    couponCode: Option<string>,
    redeemOnlineUrl: Option<string>,
    termsConditions: Option<string>)

  datatype GooglePost = GooglePost(
    name: string,
    languageCode: string,
    summary: string,
    media: Option<seq<Media>>,
    topicType: TopicType,
    event: Option<EventInfo>,
    offer: Option<OfferInfo>)

  // ---------------------------------------------------------------------
  // Splitting an ISO timestamp into date and time
  // ---------------------------------------------------------------------

  /** How a string shaped like an ISO timestamp splits at 'T' and, after
      it, at '.'. */
  lemma SplitTimestamp(date: string, clock: string, millis: string)
    requires 'T' !in date && 'T' !in clock && '.' !in clock && 'T' !in millis && '.' !in millis
    ensures Split(date + "T" + clock + "." + millis + "Z", 'T') == [date, clock + "." + millis + "Z"]
    ensures Split(clock + "." + millis + "Z", '.') == [clock, millis + "Z"]
  {
    var rest := clock + "." + millis + "Z";
    assert date + "T" + clock + "." + millis + "Z" == date + ['T'] + rest;
    assert 'T' !in rest;
    SplitFirst(date, 'T', rest);
    SplitNone(rest, 'T');
    assert rest == clock + ['.'] + (millis + "Z");
    assert '.' !in millis + "Z";
    SplitFirst(clock, '.', millis + "Z");
    SplitNone(millis + "Z", '.');
  }

  /** How the ISO rendering of `t` splits at 'T' and, after it, at '.'. */
  lemma IsoSplit(t: Time)
    ensures Split(IsoString(t), 'T') == [IsoDate(t), IsoClock(t) + "." + IsoMillis(t) + "Z"]
    ensures Split(IsoClock(t) + "." + IsoMillis(t) + "Z", '.') == [IsoClock(t), IsoMillis(t) + "Z"]
  {
    SplitTimestamp(IsoDate(t), IsoClock(t), IsoMillis(t));
  }

  /** `d.toISOString().split('T')[0]`. */
  function DatePart(t: Time): string {
    Split(IsoString(t), 'T')[0]
  }

  /** `d.toISOString().split('T')[1].split('.')[0]`. */
  function TimePart(t: Time): string {
    IsoSplit(t);
    Split(Split(IsoString(t), 'T')[1], '.')[0]
  }

  /** The date part and the time part put back together with 'T', followed by
      the milliseconds, give the whole ISO string; the date part is the text
      before the 'T' and the time part is `HH:MM:SS`. */
  lemma {:induction false} DateTimeSplitRecombines(t: Time)
    ensures DatePart(t) + "T" + TimePart(t) + "." + IsoMillis(t) + "Z" == IsoString(t)
    ensures DatePart(t) == IsoDate(t) && TimePart(t) == IsoClock(t)
    ensures |TimePart(t)| == 8 && TimePart(t)[2] == ':' && TimePart(t)[5] == ':'
    ensures 0 <= DateOfTime(t).year <= 9999 ==>
      DatePart(t) + "T" + TimePart(t) == IsoString(t)[..19]
  {
    var date, clock, millis := IsoDate(t), IsoClock(t), IsoMillis(t);
    IsoSplit(t);
    assert DatePart(t) == date;
    assert TimePart(t) == clock;
    if 0 <= DateOfTime(t).year <= 9999 {
      IsoDateLength(t);
      StampHead(date, clock, millis);
    }
  }

  /** The first 19 characters of `date 'T' clock '.' millis 'Z'`, for a
      ten-character date, are the date, 'T' and the clock. */
  lemma StampHead(date: string, clock: string, millis: string)
    requires |date| == 10 && |clock| == 8
    ensures (date + "T" + clock + "." + millis + "Z")[..19] == date + "T" + clock
  {
    var prefix := date + "T" + clock;
    assert date + "T" + clock + "." + millis + "Z" == prefix + ("." + millis + "Z");
  }

  // ---------------------------------------------------------------------
  // convertToGooglePost
  // ---------------------------------------------------------------------

  /** The payload sent to the provider for a stored post. */
  function ConvertToGooglePost(p: Post): (g: GooglePost)
    ensures g.name == "" && g.languageCode == "en" && g.summary == p.content
    ensures g.media.Some? <==> Truthy(p.imageUrl)
    ensures g.media.Some? ==> g.media.value == [Media("PHOTO", p.imageUrl.value)]
    ensures g.topicType == match p.kind
                           case Event => EventTopic
                           case Offer => OfferTopic
                           case Update => StandardTopic
    ensures p.kind == Update ==> g.event.None? && g.offer.None?
    ensures g.event.Some? <==> p.kind == Event && p.eventStartDate.Some? && p.eventEndDate.Some?
    ensures g.event.Some? ==> g.event.value.title == p.title
    ensures g.event.Some? ==>
      var s := g.event.value.schedule;
      && s.startDate + "T" + s.startTime + "." + IsoMillis(p.eventStartDate.value) + "Z"
         == IsoString(p.eventStartDate.value)
      && s.endDate + "T" + s.endTime + "." + IsoMillis(p.eventEndDate.value) + "Z"
         == IsoString(p.eventEndDate.value)
      && 'T' !in s.startDate && 'T' !in s.endDate && |s.startTime| == 8 && |s.endTime| == 8
    ensures g.offer.Some? <==> p.kind == Offer && Truthy(p.offerTerms)
    ensures g.offer.Some? ==> g.offer.value == OfferInfo(None, None, p.offerTerms)
  {
    var media := if Truthy(p.imageUrl) then Some([Media("PHOTO", p.imageUrl.value)]) else None;
    var base := GooglePost("", "en", p.content, media, StandardTopic, None, None);
    match p.kind
    case Event =>
      if p.eventStartDate.Some? && p.eventEndDate.Some? then
        var start, end := p.eventStartDate.value, p.eventEndDate.value;
        DateTimeSplitRecombines(start);
        DateTimeSplitRecombines(end);
        var schedule := Schedule(DatePart(start), TimePart(start), DatePart(end), TimePart(end));
        base.(topicType := EventTopic, event := Some(EventInfo(p.title, schedule)))
      else
        base.(topicType := EventTopic)
    case Offer =>
      if Truthy(p.offerTerms) then
        base.(topicType := OfferTopic, offer := Some(OfferInfo(None, None, p.offerTerms)))
      else
        base.(topicType := OfferTopic)
    case Update => base
  }

  // ---------------------------------------------------------------------
  // getGoogleAccessToken / refreshGoogleToken
  // ---------------------------------------------------------------------

  /** The token endpoint's answer to the refresh request: a failure (network
      error or non-2xx status), or a new access token and its lifetime in
      seconds. */
  datatype RefreshOutcome = RefreshFailed | Refreshed(accessToken: string, expiresIn: int)

  /** The access token handed to the caller (`null` is `None`), the stored
      credential afterwards, and the refresh token sent to the token endpoint
      when a refresh was attempted. */
  datatype TokenLookup = TokenLookup(
    token: Option<string>,
    credential: Option<Credential>,
    refreshSent: Option<string>)

  /** `account.expires_at && account.expires_at * 1000 < Date.now()`. */
  predicate Expired(c: Credential, now: Time) {
    c.expiresAt.Some? && c.expiresAt.value != 0 && c.expiresAt.value * 1000 < now
  }

  /** `refreshGoogleToken`: the new expiry is the current time in whole
      seconds plus the granted lifetime. */
  function RefreshedCredential(c: Credential, now: Time, accessToken: string, expiresIn: int): (c': Credential)
    ensures c'.accessToken == Some(accessToken) && c'.refreshToken == c.refreshToken
    ensures c'.expiresAt.Some? && c'.expiresAt.value * 1000 <= now + expiresIn * 1000 < c'.expiresAt.value * 1000 + 1000
  {
    c.(accessToken := Some(accessToken), expiresAt := Some(now / 1000 + expiresIn))
  }

  /** `getGoogleAccessToken` for the user whose stored credential is `cred`. */
  function GetAccessToken(cred: Option<Credential>, now: Time, refresh: RefreshOutcome): (r: TokenLookup)
    ensures cred.None? || !Truthy(cred.value.accessToken) ==>
      r == TokenLookup(None, cred, None)
    ensures r.refreshSent.Some? <==>
      cred.Some? && Truthy(cred.value.accessToken) && Expired(cred.value, now)
    ensures r.refreshSent.Some? ==> r.refreshSent.value == cred.value.refreshToken.GetOr("null")
    ensures r.refreshSent.None? ==> r.credential == cred
    ensures cred.Some? && Truthy(cred.value.accessToken) && !Expired(cred.value, now) ==>
      r.token == cred.value.accessToken
    ensures r.refreshSent.Some? && refresh.RefreshFailed? ==>
      r.token.None? && r.credential == cred
    ensures r.refreshSent.Some? && refresh.Refreshed? ==>
      && r.token == Some(refresh.accessToken)
      && r.credential == Some(Credential(Some(refresh.accessToken), cred.value.refreshToken,
                                         Some(now / 1000 + refresh.expiresIn)))
  {
    if cred.None? || !Truthy(cred.value.accessToken) then TokenLookup(None, cred, None)
    else
      var c := cred.value;
      if Expired(c, now) then
        var sent := Some(c.refreshToken.GetOr("null"));
        match refresh
        case Refreshed(token, expiresIn) =>
          TokenLookup(Some(token), Some(RefreshedCredential(c, now, token, expiresIn)), sent)
        case RefreshFailed => TokenLookup(None, cred, sent)
      else
        TokenLookup(c.accessToken, cred, None)
  }

  /** A token that has not expired is handed out unchanged, whatever the token
      endpoint would have answered; a credential with a falsy `expires_at`
      never expires. */
  lemma UnexpiredTokenReused(c: Credential, now: Time, a: RefreshOutcome, b: RefreshOutcome)
    requires Truthy(c.accessToken) && (c.expiresAt.None? || c.expiresAt.value * 1000 >= now || c.expiresAt.value == 0)
    ensures GetAccessToken(Some(c), now, a) == GetAccessToken(Some(c), now, b)
    ensures GetAccessToken(Some(c), now, a) == TokenLookup(c.accessToken, Some(c), None)
  {
  }

  /** After a successful refresh the stored credential is not expired at the
      same instant when the granted lifetime is positive, so an immediate second
      request reuses the new token without another refresh. */
  lemma RefreshedTokenReusedNext(c: Credential, now: Time, token: string, expiresIn: int, next: RefreshOutcome)
    requires Truthy(c.accessToken) && Expired(c, now) && token != "" && expiresIn > 0
    ensures var r := GetAccessToken(Some(c), now, Refreshed(token, expiresIn));
      GetAccessToken(r.credential, now, next) == TokenLookup(Some(token), r.credential, None)
  {
    var c' := RefreshedCredential(c, now, token, expiresIn);
    assert c'.expiresAt.value * 1000 >= now;
  }
}
