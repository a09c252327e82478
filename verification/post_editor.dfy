/** The new-post editor: the guards in front of a save and the request body
    it sends to `POST /api/posts`. Form fields are the strings the inputs
    hold (empty when unset); the usage summary is the one last loaded, if
    any. */
module PostEditor {
  import opened Base
  import opened Gregorian
  import opened Domain
  import opened PostsApi
  import opened UsageApi

  datatype EditorForm = EditorForm(
    title: string,
    content: string,
    kind: string,
    businessId: string,
    imageUrl: string,
    scheduledAt: string,
    eventStartDate: string,
    eventEndDate: string,
    eventLocation: string,
    offerValidUntil: string,
    offerTerms: string)

  /** What a save does: stop with a message, or send a request. */
  datatype SaveOutcome = MissingFields | LimitReached | Send(request: CreateRequest)

  /** `cond ? value : null`. */
  function OnlyIf(cond: bool, value: string): (r: Option<string>)
    ensures r.Some? <==> cond
    ensures r.Some? ==> r.value == value
  {
    if cond then Some(value) else None
  }

  /** `savePost(isDraft)`. */
  function SavePost(f: EditorForm, usage: Option<UsageSummary>, isDraft: bool): (r: SaveOutcome)
    ensures r.MissingFields? <==> IsBlank(f.title) || IsBlank(f.content)
    ensures r.LimitReached? <==>
      !IsBlank(f.title) && !IsBlank(f.content) && !isDraft
      && (usage.None? || !usage.value.canCreatePost)
    ensures r.Send? ==>
      var q := r.request;
      && q.title == f.title && q.content == f.content && q.kind == f.kind
      && q.businessId == OrNull(f.businessId) && q.imageUrl == OrNull(f.imageUrl)
      && (q.scheduledAt.Some? <==> !isDraft && f.scheduledAt != "")
      && (q.scheduledAt.Some? ==> q.scheduledAt.value == f.scheduledAt)
      && (q.eventStartDate.Some? <==> f.kind == "EVENT")
      && (q.eventStartDate.Some? ==>
            q.eventStartDate.value == f.eventStartDate && q.eventEndDate == Some(f.eventEndDate)
            && q.eventLocation == Some(f.eventLocation))
      && (q.eventEndDate.Some? <==> f.kind == "EVENT")
      && (q.eventLocation.Some? <==> f.kind == "EVENT")
      && (q.offerValidUntil.Some? <==> f.kind == "OFFER")
      && (q.offerTerms.Some? <==> f.kind == "OFFER")
      && (q.offerTerms.Some? ==>
            q.offerTerms.value == f.offerTerms && q.offerValidUntil == Some(f.offerValidUntil))
  {
    if IsBlank(f.title) || IsBlank(f.content) then MissingFields
    else if (usage.None? || !usage.value.canCreatePost) && !isDraft then LimitReached
    else
      var event := f.kind == "EVENT";
      var offer := f.kind == "OFFER";
      Send(CreateRequest(
        f.title, f.content, f.kind,
        OrNull(f.businessId), OrNull(f.imageUrl),
        if !isDraft && f.scheduledAt != "" then Some(f.scheduledAt) else None,
        OnlyIf(event, f.eventStartDate), OnlyIf(event, f.eventEndDate), OnlyIf(event, f.eventLocation),
        OnlyIf(offer, f.offerValidUntil), OnlyIf(offer, f.offerTerms)))
  }

  /** The "Schedule Post" button is disabled while saving or while the
      title, the content or the schedule is empty. */
  predicate ScheduleDisabled(isSaving: bool, f: EditorForm) {
    isSaving || IsBlank(f.title) || IsBlank(f.content) || f.scheduledAt == ""
  }

  /** A draft save sends no schedule, so whatever the server accepts from it
      is stored as a draft and leaves the usage counters alone. */
  lemma DraftSaveYieldsDraft(f: EditorForm, usage: Option<UsageSummary>, st: Store, session: Option<Session>,
                             clock: Clock, newId: string, parse: string -> Time)
    requires SavePost(f, usage, true).Send?
    ensures var r := CreatePost(st, session, SavePost(f, usage, true).request, clock, newId, parse);
      r.result.Ok? ==> r.result.value.status == Draft && r.result.value.scheduledAt.None?
                       && r.store.usage == st.usage
  {
  }

  /** When the schedule button is enabled and the last usage summary allows
      another post, the save sends the form's schedule and an accepted
      request is stored as scheduled. */
  lemma ScheduleButtonYieldsScheduled(f: EditorForm, usage: UsageSummary, st: Store, session: Option<Session>,
                                      clock: Clock, newId: string, parse: string -> Time)
    requires !ScheduleDisabled(false, f) && usage.canCreatePost
    ensures SavePost(f, Some(usage), false).Send?
    ensures SavePost(f, Some(usage), false).request.scheduledAt == Some(f.scheduledAt)
    ensures var r := CreatePost(st, session, SavePost(f, Some(usage), false).request, clock, newId, parse);
      r.result.Ok? ==> r.result.value.status == Scheduled
  {
  }

  /** The editor lets a draft through whatever the usage summary says, but
      the server gates every creation of a free-plan session: at the limit a
      draft is refused with 403. */
  lemma DraftAtLimitRefusedByServer(f: EditorForm, usage: Option<UsageSummary>, st: Store, s: Session,
                                    clock: Clock, newId: string, parse: string -> Time)
    requires !IsBlank(f.title) && !IsBlank(f.content)
    requires s.userId != "" && s.plan == Some(Free)
    requires UsageCount(st, CurrentKey(s.userId, clock)) >= FreeLimit
    requires BusinessCheckPasses(st, s, SavePost(f, usage, true).request)
    ensures SavePost(f, usage, true).Send?
    ensures CreatePost(st, Some(s), SavePost(f, usage, true).request, clock, newId, parse).result == Err(Forbidden)
  {
  }
}
