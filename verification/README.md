# gsautogbp rules, modelled in Dafny

gsautogbp is a Next.js application. It lets a user write Google Business
Profile posts, schedule them, and publish them to their business locations.
A free plan allows five scheduled posts per calendar month; the unlimited
plan has no limit. This project models the application's rule layer as pure
Dafny functions over an abstract store:

- the store is a post table, a business table keyed by `googleId`, user plans, usage counters keyed by (user, month, year), and stored Google credentials;
- the post routes:
  - listing with filters;
  - creation behind the usage gate;
  - update and delete of a single post;
- the usage summary route;
- publishing a post to the provider;
- importing the user's provider locations as businesses;
- the conversion of a post into the provider's `localPosts` payload, and the reuse-or-refresh decision for the OAuth access token (the refresh-token grant of section 6 of RFC 6749);
- the client-side rules:
  - the posts list's search and filters, and its updates after a delete or a publish;
  - the editor's save guards and request body;
  - the edit form's prefill and update body;
  - the dashboard's counts, upcoming list and remaining allowance;
  - the calendar's month grid and day cells.

The main invariant is proved over any sequence of requests (`Server.Run`): a
usage counter that starts at or below five stays there. Two more invariants
are proved over any run: business `googleId`s stay unique, and post ids stay
unique when the database hands out fresh ids.

Inputs from outside are parameters:

- the session (user id and optional plan);
- the clock reading (instant, local month and year);
- the ids the database assigns;
- the parsing of date strings (`new Date(s)`);
- the token endpoint's answer;
- the provider's answers to the account, location and create calls;
- the calendar's local same-day test.

Times are integers (milliseconds since the epoch, within the range a
JavaScript `Date` can hold). `toISOString` is modelled in full on the
proleptic Gregorian calendar (module `Gregorian`). String splitting, joining,
trimming and ASCII case mapping follow JavaScript (modules `Text`, `Base`).

Two behaviours of the code worth noting:

- The creation route checks the quota for every free-plan request, drafts included. It increments the counter only for scheduled posts (`PostsApi.DraftsAreGatedButNotCounted`).
- The edit route performs no quota check at all (`PostsApi.UpdateSchedulesWithoutQuota`).

## Model

| member | source | states |
|---|---|---|
| Base.OrNull | components/posts/post-editor.tsx:183-184 | the `or null` fallback of a string gives null exactly when the string is empty, and keeps it otherwise |
| Base.TruthyOrNullNormalises | app/api/posts/route.ts:120 | the `or null` fallback of an optional string keeps its truthiness, never yields the empty string, agrees with the fallback of a present string, and applying it twice is the same as once |
| Base.Lower | components/posts/posts-list.tsx:109-110 | ASCII `toLowerCase`: same length; each upper-case letter becomes its lower-case partner, 32 code points down, and every other character is unchanged |
| Base.Upper | app/api/posts/route.ts:26-30 | ASCII `toUpperCase`: same length; each lower-case letter becomes its upper-case partner, 32 code points up, and every other character is unchanged |
| Base.LowerHasNoUpperCase | components/posts/posts-list.tsx:115 | a lower-cased string contains no upper-case letter |
| Base.BlankIffAllWhiteSpace | components/posts/post-editor.tsx:159 | `!s.trim()` holds exactly when every character of `s` is white space |
| Text.Split | lib/google-business-profile.ts:219-222 | `split` yields at least one piece and no piece contains the separator |
| Text.JoinSplit | lib/google-business-profile.ts:219-222 | joining the pieces of a split with the separator gives the string back |
| Text.SplitFirst | lib/google-business-profile.ts:219-222 | a string that has its first separator after `a` splits into `a`, then the pieces of the rest |
| Text.PadDecimalValue | lib/google-business-profile.ts:219-222 | a zero-padded field of the ISO string denotes the number it renders |
| Gregorian.DaysInMonth | components/calendar/calendar-view.tsx:105-106 | the length of a month (`new Date(y, m + 1, 0).getDate()`) is between 28 and 31 |
| Gregorian.DateOfDayNumber | components/calendar/calendar-view.tsx:104-118 | turning a calendar date into its day number and back gives the same date |
| Gregorian.Weekday | components/calendar/calendar-view.tsx:107 | `getDay` lies in 0 to 6 |
| Gregorian.WeekdayAnchors | components/calendar/calendar-view.tsx:107 | the numbering starts on Sunday: 1970-01-04, a Sunday, reads 0; 1970-01-01 reads 4 (Thursday), 2000-01-01 reads 6 (Saturday) and 2024-02-29 reads 4 (Thursday) |
| Gregorian.WeekdayOffset | components/calendar/calendar-view.tsx:117-118 | day `d` of a month falls `d - 1` weekdays after the 1st, modulo 7 |
| Gregorian.IsoStringLength | components/posts/post-edit-form.tsx:88 | the ISO string has at least 24 characters, so `slice(0, 16)` takes a full prefix |
| Gregorian.IsoDateLength | components/posts/post-edit-form.tsx:88 | for years 0 to 9999 the date part `YYYY-MM-DD` has ten characters |
| Gregorian.IsoFieldsDenoteTime | lib/google-business-profile.ts:219-222 | the hour, minute, second and millisecond fields of the ISO string denote the time of day of the value |
| Domain.ParseType | app/api/posts/route.ts:119 | an upper-cased type is accepted exactly when it is UPDATE, EVENT or OFFER |
| Domain.ParseTypeName | lib/types.ts:29 | every post type's name is parsed back to that type |
| Domain.UpperTypeName | app/api/posts/route.ts:119 | a stored type's name is unchanged by upper-casing and is read back as the same type |
| Domain.ParseStatus | app/api/posts/route.ts:26 | a status value is accepted exactly when it is DRAFT, SCHEDULED or PUBLISHED |
| Domain.ParseStatusName | lib/types.ts:30 | every status's name is parsed back to that status |
| Domain.FindPost | app/api/posts/google/route.ts:24-31 | the lookup by id finds a row with that id, and finds none exactly when no row has it |
| Domain.ReplacePost | components/posts/post-edit-form.tsx:188-194 | the update of one post (the write in the handler of this request, app/api/posts/[id]/route.ts, lines 77-94) keeps the table's length, leaves every row with another id as it was and puts the new row where the id was. With the id kept, a lookup of any other id finds what it found before, and a lookup of the id finds the new row exactly when the post existed |
| Domain.ReplaceKeepsIdsUnique | components/posts/post-edit-form.tsx:188-194 | replacing a row by one with the same id keeps post ids unique |
| GoogleProfile.SplitTimestamp | lib/google-business-profile.ts:219-222 | an ISO-shaped string splits at 'T' into the date and the rest, and the rest splits at '.' into the clock and the milliseconds |
| GoogleProfile.IsoSplit | lib/google-business-profile.ts:219-222 | the same split, for the ISO rendering of any time value |
| GoogleProfile.DateTimeSplitRecombines | lib/google-business-profile.ts:219-222 | the date part, 'T', the time part and the milliseconds give back the ISO string. The time part is `HH:MM:SS`. For years 0 to 9999, date + 'T' + time is the 19-character prefix |
| GoogleProfile.ConvertToGooglePost | lib/google-business-profile.ts:193-238 | the payload has an empty `name`, language `en` and the content as its summary. It has one PHOTO media entry iff the image is truthy. The topic follows the type, and an UPDATE carries neither event nor offer. The event is present iff the type is EVENT and both dates are set; it takes the post's title, and its date and time parts recombine to the ISO strings. The offer is present iff the type is OFFER and the terms are truthy, and it carries only the terms |
| GoogleProfile.RefreshedCredential | lib/google-business-profile.ts:183-186 | a refresh stores the new token, keeps the refresh token, and sets the expiry to the current second plus the granted lifetime |
| GoogleProfile.GetAccessToken | lib/google-business-profile.ts:123-158 | no stored token gives null with no refresh. A refresh is attempted iff `expires_at` is truthy and `expires_at * 1000 < now`. An unexpired token is returned as stored. A failed refresh gives null and leaves the credential. A successful one returns and stores the new token |
| GoogleProfile.UnexpiredTokenReused | lib/google-business-profile.ts:137-153 | an unexpired token, or one whose `expires_at` is falsy, is reused whatever the token endpoint would answer |
| GoogleProfile.RefreshedTokenReusedNext | lib/google-business-profile.ts:137-148 | after a successful refresh with a positive lifetime, a second lookup at the same instant reuses the new token |
| PostsApi.WithBusinesses | app/api/posts/route.ts:33-37 | each listed post is paired with its business: a row of the business table whose id is the post's `businessId`, or nothing exactly when the post has no `businessId` or no row has that id |
| PostsApi.ListPosts | app/api/posts/route.ts:9-51 | the response is 401 without a session. It is 500 for a filter that upper-cases to no enum name. Otherwise it lists exactly the user's posts that match the upper-cased filters (each applied only when present and not `all`), newest first; as a multiset the result is exactly those rows, each paired with its business |
| PostsApi.DateField | app/api/posts/route.ts:122-126 | a date field is set exactly when its string is truthy, and then holds the parsed date |
| PostsApi.CreatePost | app/api/posts/route.ts:53-172 | the checks run in order: 401, then 403 for a business that is missing or not the user's, then 403 for a free-plan counter at five or more, then 500 for an unknown type. An accepted post is appended with the session user, the title and content, the upper-cased type, and status SCHEDULED iff `scheduledAt` is truthy. The image, event and offer fields are stored as sent, with the date fields parsed when truthy. The current month's counter gains one exactly for a scheduled free-plan post. Any error leaves the store unchanged |
| PostsApi.CreateKeepsCountersWithinLimit | app/api/posts/route.ts:106-162 | creation never lets a usage counter pass five |
| PostsApi.NonFreeSessionSkipsQuota | app/api/posts/route.ts:91-137 | a session not on the free plan is never refused on quota and never moves a counter |
| PostsApi.DraftsAreGatedButNotCounted | app/api/posts/route.ts:91-137 | a free-plan draft is refused at the limit. Below it, a draft is stored as DRAFT without moving a counter |
| PostsApi.CounterFollowsRequestMonth | app/api/posts/route.ts:137-162 | the counter that moves is the request month's, whatever `scheduledAt` says |
| PostsApi.CreateKeepsIdsUnique | app/api/posts/route.ts:115-134 | a fresh id keeps post ids unique |
| PostsApi.OwnPost | components/posts/post-edit-form.tsx:79 | the single-post lookup of the post routes (app/api/posts/[id]/route.ts, lines 20-25 and 66-71) finds only a post with that id that belongs to the user; with unique post ids it finds one exactly when such a row exists |
| PostsApi.UpdatePost | components/posts/post-edit-form.tsx:188-194 | the handler of this request (app/api/posts/[id]/route.ts, lines 41-104) answers 401, then 404 unless the post is the user's, then 500 for an unknown type. An update sets the title, content, type, image, event and offer fields from the body (date fields parsed when truthy) and the status to SCHEDULED iff `scheduledAt` is truthy. It keeps the id, owner, creation time, business and provider id, and changes nothing else in the store |
| PostsApi.DeletePost | components/posts/posts-list.tsx:127-129 | the handler of this request (app/api/posts/[id]/route.ts, lines 106-142) answers 401, then 404 unless the post is the user's. A delete removes exactly the rows with that id, so the id is no longer found, and keeps the others in order. Post ids stay unique |
| PostsApi.SubsequenceKeepsIdsUnique | components/posts/posts-list.tsx:127-129 | removing rows keeps post ids unique |
| PostsApi.UpdateSchedulesWithoutQuota | components/posts/post-edit-form.tsx:163-194 | the update path has no quota check: an update may schedule the user's post whatever the usage counter says, and no counter moves |
| PostsApi.ScheduleThenClear | components/posts/post-edit-form.tsx:180-194 | a post created with `scheduledAt` is SCHEDULED; updating it with `scheduledAt` cleared makes it a DRAFT |
| PostsApi.FindAppended | app/api/posts/route.ts:115-134 | a post appended with a fresh id is found by that id |
| UsageApi.GetUsage | app/api/usage/route.ts:9-53 | the response is 401 without a session. `currentUsage` is the current month's count, or 0 without a row. `limit` is 5 iff the stored plan is FREE, otherwise -1. `plan` is UNLIMITED iff stored so, otherwise FREE. `canCreatePost` holds iff the plan is UNLIMITED or the count is below 5 |
| UsageApi.CanCreateMatchesQuotaGate | app/api/usage/route.ts:44 | for a free-plan user whose session carries the stored plan, `canCreatePost` is false exactly when creation would be refused on quota |
| UsageApi.MissingUserReportedFreeWithoutLimit | app/api/usage/route.ts:38-43 | without a user row the plan is reported as FREE while the limit is -1 |
| UsageApi.FreeRemainingNonNegative | app/api/usage/route.ts:37-38 | under the counter invariant, a free-plan user's `limit - currentUsage` is never negative |
| PublishApi.WithCredential | lib/google-business-profile.ts:141-147 | the token lookup writes only the user's credential back to the store |
| PublishApi.AsPublished | app/api/posts/google/route.ts:55-61 | publishing sets only the provider post name and the status PUBLISHED |
| PublishApi.Publish | app/api/posts/google/route.ts:10-74 | the checks run in order: 401, 400 without `postId`, 404, 403 for another user's post, 400 without a business. Past them, the post is sent exactly when the token lookup gives a truthy token, and 401 is answered otherwise. Whatever the token, the credential the lookup left is written back. The converted post is sent to the business's `googleId`. The result succeeds iff the provider creates the post, and then stores only that post as published with the returned name; a failed create answers 500. A failure leaves the posts unchanged |
| PublishApi.PublishMarksOnlyThatPost | app/api/posts/google/route.ts:55-61 | after a publish, the lookup finds the post published with the provider's name, every other row is unchanged, and ids stay unique |
| PublishApi.RepublishAllowed | app/api/posts/google/route.ts:24-52 | there is no status guard: a post that is already published is sent and published again |
| PublishApi.RefreshPersistsOnFailedCreate | app/api/posts/google/route.ts:41-73 | a token refreshed during the request stays stored even when the provider then refuses the post (500) |
| BusinessesApi.JoinLines | app/api/businesses/route.ts:42 | joining no address lines gives the empty string, one line gives that line, and two or more give the first line, `, ` and the join of the rest |
| BusinessesApi.FormatAddress | app/api/businesses/route.ts:41-43 | read left to right, the address is the joined lines, `, `, the locality, `, `, the area, a space and the postal code, so it is five characters longer than its parts together and never empty |
| BusinessesApi.MissingPartsReadUndefined | app/api/businesses/route.ts:42 | an absent address part is written as `undefined`, and an empty `addressLines` array as nothing before the first comma |
| BusinessesApi.ToBusinessData | app/api/businesses/route.ts:38-48 | `googleId` is the location name. The name is the title if truthy, else the location name. The address is empty exactly when there is no storefront address. Phone, website and category are null unless truthy. `isVerified` holds iff `mapsUrl` is truthy |
| BusinessesApi.FindByGoogleId | app/api/businesses/route.ts:51-52 | the upsert key finds the row with that `googleId`, and finds none exactly when no row has it |
| BusinessesApi.Upsert | app/api/businesses/route.ts:51-58 | an existing row is overwritten in place, keeping its id and owner; otherwise a new row owned by the session user is appended. The stored row carries the location's fields |
| BusinessesApi.UpsertKeepsGoogleIdsUnique | app/api/businesses/route.ts:51-58 | the upsert keeps `googleId`s unique, and the key then finds the row returned |
| BusinessesApi.UpsertIdempotent | app/api/businesses/route.ts:51-58 | upserting the same location twice changes nothing the second time |
| BusinessesApi.ImportLocations | app/api/businesses/route.ts:36-61 | one row is returned per location, in order, carrying that location's fields. Every location's `googleId` is in the table afterwards. Existing rows keep their id, owner and `googleId`, rows no location names are unchanged, and appended rows belong to the session user. `googleId`s stay unique |
| BusinessesApi.ImportAccounts | app/api/businesses/route.ts:31-65 | the rows returned are those of the accounts' locations in account order, then location order, skipping failed accounts, each carrying its location's fields. Every such `googleId` is in the table afterwards; existing rows keep their id, owner and key, untouched rows stay as they were, new rows belong to the user, and `googleId`s stay unique |
| BusinessesApi.ImportBusinesses | app/api/businesses/route.ts:10-75 | the response is 401 without a session or without a token, and 500 when the accounts request fails. Otherwise it returns one row per imported location, in order, with that location's fields, and every such `googleId` is then in the table. Rows no location names are unchanged and new rows belong to the user. The credential the token lookup left is written back; posts, usage and plans do not change |
| BusinessesApi.ImportKeepsExistingOwner | app/api/businesses/route.ts:51-58 | a location already imported by another user is overwritten in place and keeps its owner |
| BusinessesApi.FailedAccountSkipped | app/api/businesses/route.ts:62-64 | an account whose locations fail contributes nothing and does not stop the accounts after it |
| Seqs.Filter | components/posts/posts-list.tsx:108-119 | `filter` keeps an order-preserving subsequence whose elements all pass the test |
| Seqs.SortBy | components/dashboard/dashboard-content.tsx:86 | sorting gives a permutation of the input with keys in ascending order |
| Seqs.SortByStable | components/dashboard/dashboard-content.tsx:86 | the sort is stable: the elements sharing a key come out in the order they had |
| Seqs.SortedPrefixIsSmallest | components/dashboard/dashboard-content.tsx:86-87 | the first `k` elements of a sorted sequence have keys no greater than any element left out |
| PostsList.FilterPostsKeepsExactly | components/posts/posts-list.tsx:104-122 | the three filters keep exactly the posts that match the search (case-insensitive, in title or content), the status filter and the type filter, in their original order |
| PostsList.FilterPostsIdentity | components/posts/posts-list.tsx:107-120 | with no search and both filters at `all`, the list is unchanged |
| PostsList.UpperCaseStatusFilterMatchesNothing | components/posts/posts-list.tsx:114-116 | a status filter containing an upper-case letter matches no post |
| PostsList.RemovePost | components/posts/posts-list.tsx:132 | after a delete, the list holds exactly the other posts, in order |
| PostsList.MarkPublished | components/posts/posts-list.tsx:164-170 | after a publish, only that post's status changes, to PUBLISHED |
| PostsList.PublishHidesAction | components/posts/posts-list.tsx:374 | the publish action is offered for a post with a business that is not published. After a publish it is gone for that post and unchanged for the others |
| PostEditor.SavePost | components/posts/post-editor.tsx:158-191 | a blank title or content sends nothing. A non-draft save is blocked when usage is unknown or `canCreatePost` is false. Otherwise the body carries the form's fields, with an empty business or image as null. The schedule is sent only for a non-draft save with a schedule. Event fields are sent only for EVENT and offer fields only for OFFER |
| PostEditor.DraftSaveYieldsDraft | components/posts/post-editor.tsx:185 | a draft save sends no schedule, so an accepted draft is stored as DRAFT without moving a counter |
| PostEditor.ScheduleButtonYieldsScheduled | components/posts/post-editor.tsx:617 | with the schedule button enabled and usage allowing it, the save sends the schedule, and an accepted post is stored as SCHEDULED |
| PostEditor.DraftAtLimitRefusedByServer | components/posts/post-editor.tsx:168-175 | the editor lets a draft through at the limit, but the server refuses it with 403 |
| PostEditForm.DateInput | components/posts/post-edit-form.tsx:88-92 | a date input starts empty exactly when the field is null, and otherwise holds the first 16 characters of the ISO string |
| PostEditForm.DateInputIsDateAndMinutes | components/posts/post-edit-form.tsx:88 | for years 0 to 9999 the prefill is the converter's date part, 'T', and the hours and minutes of its time part |
| PostEditForm.TimestampPrefix | components/posts/post-edit-form.tsx:88 | the first 16 characters of an ISO-shaped string are the date, 'T' and `HH:MM` |
| PostEditForm.LoadEditForm | components/posts/post-edit-form.tsx:84-93 | the form takes the post's title, content and type. The image and text fields are empty when unset, and each date field is its prefill |
| PostEditForm.UpdateAction | components/posts/post-edit-form.tsx:163-186 | a blank title or content sends nothing. Otherwise an empty image or schedule is sent as null. Event fields are sent only for EVENT and offer fields only for OFFER |
| PostEditForm.LoadedFormSends | components/posts/post-edit-form.tsx:84-93 | the form loaded from a post sends its title, content and type, its image up to truthiness, and a schedule exactly when the post has one |
| PostEditForm.ClearedScheduleGivesDraft | components/posts/post-edit-form.tsx:180 | saving with the schedule cleared makes the post a draft |
| PostEditForm.LoadSaveRoundTrip | components/posts/post-edit-form.tsx:84-93 | loading a post and saving it unchanged keeps its title, content and type, and keeps its image up to truthiness. The status becomes SCHEDULED or DRAFT by whether it has a schedule, so a published post loses that status. No counter moves |
| Dashboard.CountsPartition | components/dashboard/dashboard-content.tsx:82-94 | the scheduled, draft and published counts add up to the total |
| Dashboard.AheadOf | components/dashboard/dashboard-content.tsx:84-85 | filtering the scheduled posts by a future time is filtering by both conditions at once |
| Dashboard.Upcoming | components/dashboard/dashboard-content.tsx:84-87 | the list holds min(3, eligible) posts. Each is a SCHEDULED post of the list with its time ahead of now. They are in ascending order of time and drawn from the eligible posts without repetition |
| Dashboard.FirstUpcoming | components/dashboard/dashboard-content.tsx:84-87 | any prefix of the sorted upcoming posts consists of upcoming posts in ascending order |
| Dashboard.UpcomingMembers | components/dashboard/dashboard-content.tsx:84-85 | an eligible post is a SCHEDULED post of the list whose time is ahead of now |
| Dashboard.OrderedBySchedule | components/dashboard/dashboard-content.tsx:86 | sorting by the key orders the scheduled times |
| Dashboard.UpcomingAreEarliest | components/dashboard/dashboard-content.tsx:86-87 | every eligible post left out of the list is scheduled no earlier than any post shown |
| Dashboard.Remaining | components/dashboard/dashboard-content.tsx:166-169 | the remaining badge is shown exactly for the FREE plan, and its value is the limit minus the usage |
| Dashboard.RemainingWithinLimit | components/dashboard/dashboard-content.tsx:166-169 | for a stored free-plan user under the counter invariant, the badge lies between 0 and 5 |
| Dashboard.RemainingNegativeWithoutUserRow | components/dashboard/dashboard-content.tsx:168 | without a user row the badge shows a negative number |
| CalendarView.MonthGrid | components/calendar/calendar-view.tsx:101-122 | the grid is the weekday of the 1st (0 to 6) in null cells, then days 1 to the month's length in order |
| CalendarView.GridColumnsAreWeekdays | components/calendar/calendar-view.tsx:107-119 | every day of the month sits at its place, in the column of its weekday |
| CalendarView.PostsForDate | components/calendar/calendar-view.tsx:124-138 | no date gives nothing. Otherwise the result is exactly the posts with a schedule on that local date, of the chosen type unless the filter is `all`, in order |
| CalendarView.AllTypesCovered | components/calendar/calendar-view.tsx:133-134 | every post shown under `all` is shown under its own type's filter |
| CalendarView.CellFor | components/calendar/calendar-view.tsx:330-377 | a cell shows the first two posts, or all of them when there are at most two, and `+n more` with n the number left out exactly when there are more than two |
| CalendarView.CellShowsDayPosts | components/calendar/calendar-view.tsx:330-377 | a day's cell shows only posts scheduled on that day that pass the type filter, and the shown posts plus the `+n more` count make up all of the day's posts |
| Server.ApplyKeepsCounter | app/api/posts/route.ts:106-162 | one request never lowers a counter and never takes one past five |
| Server.RunKeepsCounter | app/api/posts/route.ts:106-162 | under any sequence of requests, a counter that starts at or below five stays there and never decreases |
| Server.RunKeepsCountersWithinLimit | app/api/posts/route.ts:106-162 | the counter invariant of the whole store holds after any run |
| Server.RunKeepsGoogleIdsUnique | app/api/businesses/route.ts:51-58 | business `googleId`s stay unique under any run |
| Server.RunKeepsPostIdsUnique | app/api/posts/route.ts:115-134 | with fresh ids for new posts, post ids stay unique under any run |

## Left out

- HTTP and persistence: the provider API client, the token endpoint, Prisma and the seed script. Their results are inputs; the tables are sequences and maps.
- Database and network failures inside a handler (the `catch` that answers 500), other than those named above. A thrown `upsert` or `update` is not modelled.
- A truthy date string that does not parse (`new Date(s)` is an invalid date). The database then rejects the row and the handler answers 500; in the model `parse` always yields a time, so the post is stored.
- `request.json()` failing on a malformed body. Bodies are modelled as already-decoded records.
- `type.toUpperCase()` on an absent `type`, which throws and answers 500. The request's type is always a string in the model.
- Authentication (next-auth configuration, password hashing). The session is an input, and the plan in the session token may differ from the stored plan.
- The routes that import `authOptions` from a module that exports only `getAuthOptions`. The model assumes the session lookup works.
- `GET /api/posts/:id`. Its owner lookup is `PostsApi.OwnPost`; the rest is a response wrapper.
- Local time zones:
  - The calendar's same-day test is an input.
  - The month and year of the usage key are inputs.
  - `navigateMonth` and the editor's minimum and maximum date helpers are not modelled.
  - The edit form's prefill is the UTC ISO string, while `new Date` on the saved value reads it in local time. This shifts a re-saved time by the local offset; the model takes date parsing as an input and does not state the shift.
- `Date.now()` is read twice during a token refresh (once to test expiry, once for the new expiry). The model uses one reading.
- The dashboard's `usagePercentage` (floating point) and all rendering, toasts and navigation.
- Concurrency: the check-then-increment on the usage counter is not atomic. Only sequential requests are modelled.
- Unicode case mapping: `toLowerCase` and `toUpperCase` are modelled on ASCII letters only.
- PostsApi.UpdateRequest: a field left out of a `PUT` body would leave its column unchanged, while `null` clears it. The model has no absent state: every field is sent or `null`, which is what the edit form always sends. So an omitted image, event location or offer terms would be cleared in the model but kept by the handler, and title and content are always present.
- `POST /api/posts` reads the clock again after creating the post, to pick the counter to increment. The model uses one reading for the gate and the increment.
- PostsApi.ListPosts: the order among posts with the same `createdAt` is left to the database. The model fixes it, keeping table order, and states only the descending order of `createdAt`.
- BusinessesApi.ImportBusinesses: the model does not state that no provider call is made without a token. The provider's answers are inputs and are not read on that path.
- GoogleProfile.GetAccessToken: `refresh_token!` may be absent and is then sent as `null`. The model records that value and leaves the endpoint's answer to the input.
