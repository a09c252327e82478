/** The edit form for an existing post: how the loaded post fills the
    inputs, and the request body an update sends to `PUT /api/posts/:id`.
    There is no usage check on this path. */
module PostEditForm {
  import opened Base
  import opened Gregorian
  import opened Domain
  import opened GoogleProfile
  import opened PostsApi

  datatype EditForm = EditForm(
    title: string,
    content: string,
    kind: string,
    imageUrl: string,
    scheduledAt: string,
    eventStartDate: string,
    eventEndDate: string,
    eventLocation: string,
    offerValidUntil: string,
    offerTerms: string)

  datatype UpdateOutcome = MissingFields | SendUpdate(request: UpdateRequest)

  /** A date input's initial value: the first 16 characters of the ISO
      string, or empty when there is no date. */
  function DateInput(t: Option<Time>): (s: string)
    ensures t.None? <==> s == ""
    ensures t.Some? ==> |s| == 16 && s == IsoString(t.value)[..16]
  {
    if t.None? then ""
    else
      IsoStringLength(t.value);
      IsoString(t.value)[..16]
  }

  /** For years 0 to 9999 the initial value is `YYYY-MM-DDTHH:MM`: the date
      part the provider conversion uses, a 'T', and the hours and minutes of
      its time part. */
  lemma DateInputIsDateAndMinutes(t: Time)
    requires 0 <= DateOfTime(t).year <= 9999
    ensures |DatePart(t)| == 10 && |TimePart(t)| == 8
    ensures DateInput(Some(t)) == DatePart(t) + "T" + TimePart(t)[..5]
    ensures DateInput(Some(t))[13] == ':'
  {
    DateTimeSplitRecombines(t);
    IsoDateLength(t);
    var date, clock, millis := IsoDate(t), IsoClock(t), IsoMillis(t);
    TimestampPrefix(date, clock, millis);
    assert DateInput(Some(t)) == IsoString(t)[..16];
  }

  /** The first 16 characters of `date 'T' clock '.' millis 'Z'`, for a
      ten-character date and an eight-character clock, are the date, 'T' and
      the clock's first five characters. */
  lemma TimestampPrefix(date: string, clock: string, millis: string)
    requires |date| == 10 && |clock| == 8
    ensures (date + "T" + clock + "." + millis + "Z")[..16] == date + "T" + clock[..5]
    ensures (date + "T" + clock + "." + millis + "Z")[13] == clock[2]
  {
    var s := date + "T" + clock + "." + millis + "Z";
    assert forall i :: 0 <= i < 16 ==> s[i] == (date + "T" + clock[..5])[i];
  }

  /** The form as it is filled from the loaded post. */
  function LoadEditForm(p: Post): (f: EditForm)
    ensures f.title == p.title && f.content == p.content && f.kind == TypeName(p.kind)
    ensures f.imageUrl == (if Truthy(p.imageUrl) then p.imageUrl.value else "")
    ensures f.scheduledAt == DateInput(p.scheduledAt)
    ensures (f.scheduledAt == "") <==> p.scheduledAt.None?
    ensures f.eventStartDate == DateInput(p.eventStartDate) && f.eventEndDate == DateInput(p.eventEndDate)
    ensures f.offerValidUntil == DateInput(p.offerValidUntil)
    ensures f.eventLocation == p.eventLocation.GetOr("") && f.offerTerms == p.offerTerms.GetOr("")
  {
    EditForm(
      p.title, p.content, TypeName(p.kind),
      if Truthy(p.imageUrl) then p.imageUrl.value else "",
      DateInput(p.scheduledAt), DateInput(p.eventStartDate), DateInput(p.eventEndDate),
      p.eventLocation.GetOr(""), DateInput(p.offerValidUntil), p.offerTerms.GetOr(""))
  }

  /** `updatePost`. */
  function UpdateAction(f: EditForm): (r: UpdateOutcome)
    ensures r.MissingFields? <==> IsBlank(f.title) || IsBlank(f.content)
    ensures r.SendUpdate? ==>
      var q := r.request;
      && q.title == f.title && q.content == f.content && q.kind == f.kind
      && q.imageUrl == OrNull(f.imageUrl) && q.scheduledAt == OrNull(f.scheduledAt)
      && (q.eventStartDate.Some? <==> f.kind == "EVENT")
      && (q.eventEndDate.Some? <==> f.kind == "EVENT")
      && (q.eventLocation.Some? <==> f.kind == "EVENT")
      && (f.kind == "EVENT" ==>
            q.eventStartDate == Some(f.eventStartDate) && q.eventEndDate == Some(f.eventEndDate)
            && q.eventLocation == Some(f.eventLocation))
      && (q.offerValidUntil.Some? <==> f.kind == "OFFER")
      && (q.offerTerms.Some? <==> f.kind == "OFFER")
      && (f.kind == "OFFER" ==>
            q.offerValidUntil == Some(f.offerValidUntil) && q.offerTerms == Some(f.offerTerms))
  {
    if IsBlank(f.title) || IsBlank(f.content) then MissingFields
    else
      var event := f.kind == "EVENT";
      var offer := f.kind == "OFFER";
      SendUpdate(UpdateRequest(
        f.title, f.content, f.kind, OrNull(f.imageUrl), OrNull(f.scheduledAt),
        if event then Some(f.eventStartDate) else None,
        if event then Some(f.eventEndDate) else None,
        if event then Some(f.eventLocation) else None,
        if offer then Some(f.offerValidUntil) else None,
        if offer then Some(f.offerTerms) else None))
  }

  /** Clearing the schedule input and saving makes the post a draft. */
  lemma ClearedScheduleGivesDraft(f: EditForm, st: Store, session: Option<Session>, id: string,
                                  parse: string -> Time)
    requires f.scheduledAt == "" && UpdateAction(f).SendUpdate?
    ensures var r := UpdatePost(st, session, id, UpdateAction(f).request, parse);
      r.result.Ok? ==> r.result.value.status == Draft && r.result.value.scheduledAt.None?
  {
  }

  /** Loading a post into the form and saving it unchanged keeps its title,
      content and type, keeps its image up to truthiness, and sets its status
      from whether it has a schedule: a published post that is re-saved
      becomes scheduled or a draft again. No usage counter moves. */
  lemma LoadSaveRoundTrip(st: Store, s: Session, id: string, parse: string -> Time)
    requires s.userId != "" && OwnPost(st, s.userId, id).Some?
    requires var p := OwnPost(st, s.userId, id).value; !IsBlank(p.title) && !IsBlank(p.content)
    ensures var p := OwnPost(st, s.userId, id).value;
      var f := LoadEditForm(p);
      && UpdateAction(f).SendUpdate?
      && var r := UpdatePost(st, Some(s), id, UpdateAction(f).request, parse);
      && r.result.Ok?
      && r.result.value.title == p.title && r.result.value.content == p.content
      && r.result.value.kind == p.kind
      && r.result.value.imageUrl == TruthyOrNull(p.imageUrl)
      && (r.result.value.status == Scheduled <==> p.scheduledAt.Some?)
      && (r.result.value.status == Draft <==> p.scheduledAt.None?)
      && r.store.usage == st.usage
  {
    var p := OwnPost(st, s.userId, id).value;
    LoadedFormSends(p);
  }

  /** The form loaded from a post with a title and content sends the post's
      title, content and type name, its image up to truthiness, and a
      schedule exactly when the post has one. */
  lemma LoadedFormSends(p: Post)
    requires !IsBlank(p.title) && !IsBlank(p.content)
    ensures UpdateAction(LoadEditForm(p)).SendUpdate?
    ensures var q := UpdateAction(LoadEditForm(p)).request;
      && q.title == p.title && q.content == p.content
      && ParseType(Upper(q.kind)) == Some(p.kind)
      && q.imageUrl == TruthyOrNull(p.imageUrl)
      && (Truthy(q.scheduledAt) <==> p.scheduledAt.Some?)
  {
    var f := LoadEditForm(p);
    assert f.title == p.title && f.content == p.content && f.kind == TypeName(p.kind);
    var q := UpdateAction(f).request;
    UpperTypeName(p.kind);
    assert q.kind == TypeName(p.kind);
    assert q.scheduledAt == OrNull(DateInput(p.scheduledAt));
  }
}
