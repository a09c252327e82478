/** `GET /api/businesses`: importing the user's Google Business Profile
    locations. Each location is mapped to a business row and upserted by its
    `googleId`; an account whose locations cannot be fetched is skipped. The
    provider's answers and the ids the database assigns to new rows are
    inputs. */
module BusinessesApi {
  import opened Base
  import opened Text
  import opened Gregorian
  import opened Domain
  import opened GoogleProfile
  import opened PublishApi

  /** A location's `storefrontAddress`; every field may be absent. */
  datatype Address = Address(
    addressLines: Option<seq<string>>,
    locality: Option<string>,
    administrativeArea: Option<string>,
    postalCode: Option<string>)

  /** The fields of a provider location that the import reads.
      `categoryName` is `primaryCategory?.displayName`, `mapsUrl` is
      `metadata?.mapsUrl`. */
  datatype Location = Location(
    name: string,
    title: Option<string>,
    storefrontAddress: Option<Address>,
    primaryPhone: Option<string>,
    websiteUrl: Option<string>,
    categoryName: Option<string>,
    mapsUrl: Option<string>)

  /** The answer to one account's locations request: a failure, or a body
      whose `locations` may be absent. */
  datatype LocationsOutcome = LocationsFailed | LocationsListed(locations: Option<seq<Location>>)

  datatype ProviderAccount = ProviderAccount(name: string, locations: LocationsOutcome)

  /** The answer to the accounts request. */
  datatype AccountsOutcome = AccountsFailed | AccountsListed(accounts: Option<seq<ProviderAccount>>)

  /** The business fields derived from a location (all but `id` and
      `userId`). */
  datatype BusinessData = BusinessData(
    googleId: string,
    name: string,
    address: string,
    phoneNumber: Option<string>,
    websiteUrl: Option<string>,
    category: Option<string>,
    isVerified: bool)

  /** A possibly absent value interpolated into a template literal. */
  function Interpolated(o: Option<string>): (s: string)
    ensures o.Some? ==> s == o.value
    ensures o.None? ==> s == "undefined"
  {
    if o.Some? then o.value else "undefined"
  }

  /** `lines.join(', ')`; an empty array joins to the empty string. */
  function JoinLines(lines: seq<string>): (s: string)
    ensures |lines| == 0 ==> s == ""
    ensures |lines| == 1 ==> s == lines[0]
    ensures |lines| >= 2 ==> s == lines[0] + ", " + JoinLines(lines[1..])
  {
    if |lines| == 0 then "" else Join(lines, ", ")
  }

  /** The one-line address: the address lines, the locality, then the area
      and the postal code. Read left to right it is the joined lines, ", ",
      the locality, ", ", the area, " " and the postal code, so it is never
      empty: the separators are written whatever the parts hold. */
  function FormatAddress(a: Address): (s: string)
    ensures var lines := if a.addressLines.Some? then JoinLines(a.addressLines.value) else "undefined";
      && |s| >= |lines| + 2 && s[..|lines|] == lines && s[|lines|..|lines| + 2] == ", "
    ensures var n := |if a.addressLines.Some? then JoinLines(a.addressLines.value) else "undefined"| + 2;
      var loc, area := Interpolated(a.locality), Interpolated(a.administrativeArea);
      && |s| >= n + |loc| + 2 + |area|
      && s[n..n + |loc|] == loc
      && s[n + |loc|..n + |loc| + 2] == ", "
      && s[n + |loc| + 2..n + |loc| + 2 + |area|] == area
    ensures var postal := Interpolated(a.postalCode);
      |s| >= |postal| + 1 && s[|s| - |postal| - 1..] == " " + postal
    ensures |s| == 5 + |if a.addressLines.Some? then JoinLines(a.addressLines.value) else "undefined"|
                     + |Interpolated(a.locality)| + |Interpolated(a.administrativeArea)|
                     + |Interpolated(a.postalCode)|
  {
    var lines := if a.addressLines.Some? then Some(JoinLines(a.addressLines.value)) else None;
    var l, loc, area, postal :=
      Interpolated(lines), Interpolated(a.locality), Interpolated(a.administrativeArea), Interpolated(a.postalCode);
    TemplateParts(l, loc, area, postal);
    l + ", " + loc + ", " + area + " " + postal
  }

  /** Where each part of the address template sits. */
  lemma TemplateParts(l: string, loc: string, area: string, postal: string)
    ensures var s := l + ", " + loc + ", " + area + " " + postal;
      var n := |l| + 2;
      && |s| == 5 + |l| + |loc| + |area| + |postal|
      && s[..|l|] == l && s[|l|..n] == ", "
      && s[n..n + |loc|] == loc
      && s[n + |loc|..n + |loc| + 2] == ", "
      && s[n + |loc| + 2..n + |loc| + 2 + |area|] == area
      && s[|s| - |postal| - 1..] == " " + postal
  {
    var s := l + ", " + loc + ", " + area + " " + postal;
    var n := |l| + 2;
    var m := n + |loc| + 2;
    assert s == (l + ", ") + (loc + ", ") + (area + " ") + postal;
    assert s[..n] == l + ", ";
    assert s[n..m] == loc + ", ";
    assert s[m..m + |area| + 1] == area + " ";
    assert s[m + |area| + 1..] == postal;
  }

  /** A template literal shows a missing address part as `undefined`, and
      an empty `addressLines` array as nothing before the first comma. */
  lemma MissingPartsReadUndefined(area: string)
    ensures var u := "undefined";
      FormatAddress(Address(None, None, None, None)) == u + ", " + u + ", " + u + " " + u
    ensures var u := "undefined";
      FormatAddress(Address(Some([]), None, Some(area), None)) == ", " + u + ", " + area + " " + u
  {
    assert Interpolated(None) == "undefined";
    assert JoinLines([]) == "";
    assert Interpolated(Some("")) == "";
    assert "" + ", " == ", ";
  }

  /** The business fields of a location. */
  function ToBusinessData(l: Location): (d: BusinessData)
    ensures d.googleId == l.name
    ensures d.address == "" <==> l.storefrontAddress.None?
    ensures d.name == if Truthy(l.title) then l.title.value else l.name
    ensures l.storefrontAddress.None? ==> d.address == ""
    ensures l.storefrontAddress.Some? ==> d.address == FormatAddress(l.storefrontAddress.value)
    ensures d.phoneNumber.Some? <==> Truthy(l.primaryPhone)
    ensures d.websiteUrl.Some? <==> Truthy(l.websiteUrl)
    ensures d.category.Some? <==> Truthy(l.categoryName)
    ensures d.phoneNumber.Some? ==> d.phoneNumber == l.primaryPhone
    ensures d.websiteUrl.Some? ==> d.websiteUrl == l.websiteUrl
    ensures d.category.Some? ==> d.category == l.categoryName
    ensures d.isVerified <==> Truthy(l.mapsUrl)
  {
    BusinessData(
      l.name,
      if Truthy(l.title) then l.title.value else l.name,
      if l.storefrontAddress.Some? then FormatAddress(l.storefrontAddress.value) else "",
      TruthyOrNull(l.primaryPhone),
      TruthyOrNull(l.websiteUrl),
      TruthyOrNull(l.categoryName),
      Truthy(l.mapsUrl))
  }

  /** The row with the given `googleId`, if any. */
  function FindByGoogleId(bs: seq<Business>, googleId: string): (r: Option<nat>)
    ensures r.Some? ==> r.value < |bs| && bs[r.value].googleId == googleId
    ensures r.None? <==> forall i :: 0 <= i < |bs| ==> bs[i].googleId != googleId
  {
    if |bs| == 0 then None
    else if bs[0].googleId == googleId then Some(0)
    else
      var r := FindByGoogleId(bs[1..], googleId);
      if r.Some? then Some(r.value + 1) else None
  }

  /** A row with its derived fields overwritten; `id` and `userId` stay. */
  function Overwrite(b: Business, d: BusinessData): Business {
    b.(googleId := d.googleId, name := d.name, address := d.address, phoneNumber := d.phoneNumber,
       websiteUrl := d.websiteUrl, category := d.category, isVerified := d.isVerified)
  }

  /** `business.upsert` keyed by `googleId`: the existing row is overwritten,
      or a new row owned by `user` with id `newId` is appended. Returns the
      row as stored and the table afterwards. */
  function Upsert(bs: seq<Business>, d: BusinessData, user: string, newId: string): (r: (Business, seq<Business>))
    ensures r.0.googleId == d.googleId && r.0.name == d.name && r.0.address == d.address
    ensures r.0.isVerified == d.isVerified && r.0.phoneNumber == d.phoneNumber
    ensures r.0.websiteUrl == d.websiteUrl && r.0.category == d.category
    ensures r.0 in r.1
    ensures FindByGoogleId(bs, d.googleId).Some? ==>
      var i := FindByGoogleId(bs, d.googleId).value;
      && r.0.id == bs[i].id && r.0.userId == bs[i].userId
      && r.1 == bs[i := r.0]
    ensures FindByGoogleId(bs, d.googleId).None? ==>
      r.0.id == newId && r.0.userId == user && r.1 == bs + [r.0]
  {
    match FindByGoogleId(bs, d.googleId)
    case Some(i) =>
      var b := Overwrite(bs[i], d);
      assert bs[i := b][i] == b;
      (b, bs[i := b])
    case None =>
      var b := Business(newId, user, d.googleId, d.name, d.address, d.phoneNumber, d.websiteUrl, d.category, d.isVerified);
      (b, bs + [b])
  }

  /** The upsert keeps `googleId`s unique, and the key afterwards finds the
      row it returned. */
  lemma UpsertKeepsGoogleIdsUnique(bs: seq<Business>, d: BusinessData, user: string, newId: string)
    requires GoogleIdsUnique(bs)
    ensures GoogleIdsUnique(Upsert(bs, d, user, newId).1)
    ensures var r := Upsert(bs, d, user, newId);
      FindByGoogleId(r.1, d.googleId).Some? && r.1[FindByGoogleId(r.1, d.googleId).value] == r.0
  {
    var r := Upsert(bs, d, user, newId);
    var j := FindByGoogleId(r.1, d.googleId).value;
    if FindByGoogleId(bs, d.googleId).Some? {
      var i := FindByGoogleId(bs, d.googleId).value;
      assert r.1[i].googleId == d.googleId;
      assert j == i;
    } else {
      assert r.1[|bs|].googleId == d.googleId;
      assert j == |bs|;
    }
  }

  /** Upserting the same location twice in a row changes nothing the second
      time. */
  lemma UpsertIdempotent(bs: seq<Business>, d: BusinessData, user: string, newId: string, otherId: string)
    requires GoogleIdsUnique(bs)
    ensures var r := Upsert(bs, d, user, newId);
      Upsert(r.1, d, user, otherId) == r
  {
    var r := Upsert(bs, d, user, newId);
    UpsertKeepsGoogleIdsUnique(bs, d, user, newId);
    var j := FindByGoogleId(r.1, d.googleId).value;
    assert Overwrite(r.1[j], d) == r.0;
    assert r.1[j := r.0] == r.1;
  }

  /** The derived fields of a stored row. */
  function DataOf(b: Business): BusinessData {
    BusinessData(b.googleId, b.name, b.address, b.phoneNumber, b.websiteUrl, b.category, b.isVerified)
  }

  /** `after` extends `before` keeping every row's id, owner and key in
      place. */
  predicate KeepsRows(before: seq<Business>, after: seq<Business>) {
    && |before| <= |after|
    && forall j :: 0 <= j < |before| ==>
         after[j].id == before[j].id && after[j].userId == before[j].userId
         && after[j].googleId == before[j].googleId
  }

  /** No location in `locs` has the key `g`. */
  predicate NotImported(g: string, locs: seq<Location>) {
    forall i :: 0 <= i < |locs| ==> locs[i].name != g
  }

  /** The rows of `before` whose key no location has are unchanged in
      `after`. */
  predicate Untouched(before: seq<Business>, after: seq<Business>, locs: seq<Location>) {
    forall j :: 0 <= j < |before| && j < |after| && NotImported(before[j].googleId, locs) ==>
      after[j] == before[j]
  }

  /** Every location's key is found in `table`. */
  predicate AllFound(table: seq<Business>, locs: seq<Location>) {
    forall i :: 0 <= i < |locs| ==> FindByGoogleId(table, locs[i].name).Some?
  }

  /** The returned rows carry, one for one and in order, the fields of the
      locations. */
  predicate CarriesFields(out: seq<Business>, locs: seq<Location>) {
    |out| == |locs| && forall i :: 0 <= i < |locs| ==> DataOf(out[i]) == ToBusinessData(locs[i])
  }

  /** The rows appended after `before` belong to `user`. */
  predicate NewRowsOwnedBy(before: seq<Business>, after: seq<Business>, user: string) {
    forall j :: |before| <= j < |after| ==> after[j].userId == user
  }

  /** A key found before is found after a change that keeps the rows. */
  lemma FoundStaysFound(before: seq<Business>, after: seq<Business>, g: string)
    requires KeepsRows(before, after) && FindByGoogleId(before, g).Some?
    ensures FindByGoogleId(after, g).Some?
  {
    var k := FindByGoogleId(before, g).value;
    assert after[k].googleId == g;
  }

  /** The effect of one upsert on the table. */
  lemma UpsertKeepsRows(bs: seq<Business>, d: BusinessData, user: string, newId: string)
    ensures var r := Upsert(bs, d, user, newId);
      && KeepsRows(bs, r.1) && |r.1| <= |bs| + 1
      && FindByGoogleId(r.1, d.googleId).Some?
      && (forall j :: 0 <= j < |bs| && bs[j].googleId != d.googleId ==> r.1[j] == bs[j])
      && NewRowsOwnedBy(bs, r.1, user)
  {
    var r := Upsert(bs, d, user, newId);
    var k :| 0 <= k < |r.1| && r.1[k] == r.0;
    assert r.1[k].googleId == d.googleId;
  }

  /** Importing a list of locations: each is upserted in order, and the row
      as stored is appended to the response. Each returned row carries its
      location's fields, each location's key is in the table afterwards,
      existing rows keep their id, owner and key, rows no location names are
      untouched, and new rows belong to `user`. */
  function ImportLocations(bs: seq<Business>, locs: seq<Location>, user: string, idFor: string -> string)
    : (r: (seq<Business>, seq<Business>))
    ensures |r.0| == |locs|
    ensures forall i :: 0 <= i < |locs| ==> r.0[i].googleId == locs[i].name
    ensures CarriesFields(r.0, locs)
    ensures AllFound(r.1, locs)
    ensures KeepsRows(bs, r.1) && |r.1| <= |bs| + |locs|
    ensures Untouched(bs, r.1, locs)
    ensures NewRowsOwnedBy(bs, r.1, user)
    ensures GoogleIdsUnique(bs) ==> GoogleIdsUnique(r.1)
    decreases |locs|
  {
    if |locs| == 0 then ([], bs)
    else
      var d := ToBusinessData(locs[0]);
      var (b, bs1) := Upsert(bs, d, user, idFor(locs[0].name));
      UpsertKeepsUniqueIf(bs, d, user, idFor(locs[0].name));
      UpsertKeepsRows(bs, d, user, idFor(locs[0].name));
      var (rest, bs2) := ImportLocations(bs1, locs[1..], user, idFor);
      ImportStep(bs, bs1, bs2, locs, b, rest, user);
      ([b] + rest, bs2)
  }

  /** Composing the first upsert with the import of the remaining
      locations. */
  lemma ImportStep(bs: seq<Business>, bs1: seq<Business>, bs2: seq<Business>, locs: seq<Location>,
                   b: Business, rest: seq<Business>, user: string)
    requires |locs| > 0
    requires DataOf(b) == ToBusinessData(locs[0])
    requires KeepsRows(bs, bs1) && KeepsRows(bs1, bs2)
    requires FindByGoogleId(bs1, locs[0].name).Some?
    requires forall j :: 0 <= j < |bs| && bs[j].googleId != locs[0].name ==> bs1[j] == bs[j]
    requires NewRowsOwnedBy(bs, bs1, user) && NewRowsOwnedBy(bs1, bs2, user)
    requires CarriesFields(rest, locs[1..]) && AllFound(bs2, locs[1..])
    requires Untouched(bs1, bs2, locs[1..])
    ensures CarriesFields([b] + rest, locs)
    ensures AllFound(bs2, locs)
    ensures KeepsRows(bs, bs2)
    ensures Untouched(bs, bs2, locs)
    ensures NewRowsOwnedBy(bs, bs2, user)
  {
    FoundStaysFound(bs1, bs2, locs[0].name);
    forall i | 0 <= i < |locs|
      ensures DataOf(([b] + rest)[i]) == ToBusinessData(locs[i])
      ensures FindByGoogleId(bs2, locs[i].name).Some?
    {
      if i > 0 {
        assert locs[1..][i - 1] == locs[i];
      }
    }
    forall j | 0 <= j < |bs| && j < |bs2| && NotImported(bs[j].googleId, locs)
      ensures bs2[j] == bs[j]
    {
      assert locs[0].name != bs[j].googleId;
      assert bs1[j] == bs[j];
      forall i | 0 <= i < |locs[1..]|
        ensures locs[1..][i].name != bs1[j].googleId
      {
        assert locs[1..][i] == locs[i + 1];
      }
    }
  }

  lemma UpsertKeepsUniqueIf(bs: seq<Business>, d: BusinessData, user: string, newId: string)
    ensures GoogleIdsUnique(bs) ==> GoogleIdsUnique(Upsert(bs, d, user, newId).1)
  {
    if GoogleIdsUnique(bs) {
      UpsertKeepsGoogleIdsUnique(bs, d, user, newId);
    }
  }

  /** The locations an account contributes: none when its request failed. */
  function AccountLocations(a: ProviderAccount): seq<Location> {
    match a.locations
    case LocationsFailed => []
    case LocationsListed(ls) => ls.GetOr([])
  }

  /** The locations the import goes through, in order: account order, then
      location order, skipping failed accounts. */
  function ImportedLocations(accounts: seq<ProviderAccount>): seq<Location>
    decreases |accounts|
  {
    if |accounts| == 0 then [] else AccountLocations(accounts[0]) + ImportedLocations(accounts[1..])
  }

  /** The loop over the accounts: the rows returned are those of the
      imported locations, in order, with the same guarantees as for one
      list of locations. */
  function ImportAccounts(bs: seq<Business>, accounts: seq<ProviderAccount>, user: string, idFor: string -> string)
    : (r: (seq<Business>, seq<Business>))
    ensures CarriesFields(r.0, ImportedLocations(accounts))
    ensures AllFound(r.1, ImportedLocations(accounts))
    ensures KeepsRows(bs, r.1)
    ensures Untouched(bs, r.1, ImportedLocations(accounts))
    ensures NewRowsOwnedBy(bs, r.1, user)
    ensures GoogleIdsUnique(bs) ==> GoogleIdsUnique(r.1)
    decreases |accounts|
  {
    if |accounts| == 0 then ([], bs)
    else
      var first := AccountLocations(accounts[0]);
      var (out, bs1) := ImportLocations(bs, first, user, idFor);
      var (rest, bs2) := ImportAccounts(bs1, accounts[1..], user, idFor);
      AccountsStep(bs, bs1, bs2, first, ImportedLocations(accounts[1..]), out, rest, user);
      (out + rest, bs2)
  }

  /** Composing the import of the first account's locations with that of
      the remaining accounts. */
  lemma AccountsStep(bs: seq<Business>, bs1: seq<Business>, bs2: seq<Business>,
                     first: seq<Location>, later: seq<Location>, out: seq<Business>, rest: seq<Business>,
                     user: string)
    requires KeepsRows(bs, bs1) && KeepsRows(bs1, bs2)
    requires CarriesFields(out, first) && CarriesFields(rest, later)
    requires AllFound(bs1, first) && AllFound(bs2, later)
    requires Untouched(bs, bs1, first) && Untouched(bs1, bs2, later)
    requires NewRowsOwnedBy(bs, bs1, user) && NewRowsOwnedBy(bs1, bs2, user)
    ensures CarriesFields(out + rest, first + later)
    ensures AllFound(bs2, first + later)
    ensures KeepsRows(bs, bs2)
    ensures Untouched(bs, bs2, first + later)
    ensures NewRowsOwnedBy(bs, bs2, user)
  {
    var locs := first + later;
    forall i | 0 <= i < |locs|
      ensures FindByGoogleId(bs2, locs[i].name).Some?
      ensures DataOf((out + rest)[i]) == ToBusinessData(locs[i])
    {
      if i < |first| {
        FoundStaysFound(bs1, bs2, first[i].name);
      } else {
        assert locs[i] == later[i - |first|];
      }
    }
    forall j | 0 <= j < |bs| && j < |bs2| && NotImported(bs[j].googleId, locs)
      ensures bs2[j] == bs[j]
    {
      assert NotImported(bs[j].googleId, first) by {
        forall i | 0 <= i < |first| ensures first[i].name != bs[j].googleId {
          assert locs[i] == first[i];
        }
      }
      assert bs1[j] == bs[j];
      assert NotImported(bs1[j].googleId, later) by {
        forall i | 0 <= i < |later| ensures later[i].name != bs1[j].googleId {
          assert locs[|first| + i] == later[i];
        }
      }
    }
  }

  /** `GET /api/businesses`: the businesses imported, in order. */
  function ImportBusinesses(st: Store, session: Option<Session>, now: Time, refresh: RefreshOutcome,
                            accounts: AccountsOutcome, idFor: string -> string): (r: Reply<seq<Business>>)
    ensures !SignedIn(session) ==> r == Reply(Err(Unauthorized), st)
    ensures SignedIn(session) && !Truthy(TokenFor(st, session.value.userId, now, refresh).token) ==>
      r.result == Err(Unauthorized) && r.store.businesses == st.businesses
    ensures (SignedIn(session) && Truthy(TokenFor(st, session.value.userId, now, refresh).token)
             && accounts.AccountsFailed?) ==> r.result == Err(ServerError)
    ensures r.result.Ok? <==>
      SignedIn(session) && Truthy(TokenFor(st, session.value.userId, now, refresh).token)
      && accounts.AccountsListed?
    ensures r.result.Ok? ==>
      var locs := ImportedLocations(accounts.accounts.GetOr([]));
      && CarriesFields(r.result.value, locs)
      && AllFound(r.store.businesses, locs)
      && Untouched(st.businesses, r.store.businesses, locs)
      && NewRowsOwnedBy(st.businesses, r.store.businesses, session.value.userId)
    ensures r.result.Err? ==> r.store.businesses == st.businesses
    ensures KeepsRows(st.businesses, r.store.businesses)
    ensures GoogleIdsUnique(st.businesses) ==> GoogleIdsUnique(r.store.businesses)
    ensures SignedIn(session) ==>
      r.store.credentials == WithCredential(st, session.value.userId,
                                            TokenFor(st, session.value.userId, now, refresh).credential).credentials
    ensures r.store.posts == st.posts && r.store.usage == st.usage && r.store.plans == st.plans
  {
    if !SignedIn(session) then Reply(Err(Unauthorized), st)
    else
      var user := session.value.userId;
      var lookup := TokenFor(st, user, now, refresh);
      var st' := WithCredential(st, user, lookup.credential);
      if !Truthy(lookup.token) then Reply(Err(Unauthorized), st')
      else match accounts
        case AccountsFailed => Reply(Err(ServerError), st')
        case AccountsListed(list) =>
          var (out, bs) := ImportAccounts(st.businesses, list.GetOr([]), user, idFor);
          Reply(Ok(out), st'.(businesses := bs))
  }

  /** A location already imported by another user keeps its owner: the
      import overwrites the row's fields but not its `userId`, and still
      returns it. */
  lemma ImportKeepsExistingOwner(bs: seq<Business>, l: Location, user: string, idFor: string -> string)
    requires GoogleIdsUnique(bs)
    requires FindByGoogleId(bs, l.name).Some?
    ensures var r := ImportLocations(bs, [l], user, idFor);
      var i := FindByGoogleId(bs, l.name).value;
      && r.0[0].userId == bs[i].userId && r.0[0].id == bs[i].id
      && |r.1| == |bs| && r.1[i] == r.0[0]
  {
    var r := ImportLocations(bs, [l], user, idFor);
    var u := Upsert(bs, ToBusinessData(l), user, idFor(l.name));
    assert [l][1..] == [];
    assert ImportLocations(u.1, [], user, idFor) == ([], u.1);
    assert r == ([u.0] + [], u.1);
  }

  /** A failing account contributes nothing and does not stop the accounts
      after it. */
  lemma FailedAccountSkipped(bs: seq<Business>, a: ProviderAccount, rest: seq<ProviderAccount>,
                             user: string, idFor: string -> string)
    requires a.locations.LocationsFailed?
    ensures ImportAccounts(bs, [a] + rest, user, idFor) == ImportAccounts(bs, rest, user, idFor)
  {
    assert ([a] + rest)[1..] == rest;
    assert AccountLocations(a) == [];
    assert ImportLocations(bs, [], user, idFor) == ([], bs);
    var tail := ImportAccounts(bs, rest, user, idFor);
    assert [] + tail.0 == tail.0;
  }
}
