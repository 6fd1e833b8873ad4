/** `directory/dirokta/list_accounts.go`: one page of Okta users as accounts,
    the page being chosen by Okta's own `after` cursor. */
module OktaListAccounts {
  import opened Wrappers
  import opened Text
  import opened Api
  import opened Directory
  import opened OktaClient

  const PageLimit: int := 250
  const IDFields: seq<string> := ["login", "email", "secondEmail"]
  const FirstNameField: string := "firstName"
  const LastNameField: string := "lastName"
  const BirthDateField: string := "birthdate"
  const ListFailed: string := "okta: failed to list users: "
  const InvalidNextURL: string := "expected next URL to be valid, got "
  const MissingAfter: string := "expected next URL to have an `after` parameter, got "

  // ---------------------------------------------------------------------
  // Users as accounts

  /** The string values of some profile fields, in order ("" for a field that
      is absent or not a string). */
  function FieldValues(profile: JsonObject, fields: seq<string>): (vs: seq<string>)
    ensures |vs| == |fields|
    ensures forall k :: 0 <= k < |fields| ==> vs[k] == StringField(profile, fields[k])
  {
    seq(|fields|, k requires 0 <= k < |fields| => StringField(profile, fields[k]))
  }

  /** The external IDs of a user: the login, e-mail and second e-mail that are
      non-empty strings, in that order; none without a profile. */
  function ExternalIDs(u: User): seq<string> {
    if u.profile.None? then [] else NonEmpty(FieldValues(u.profile.value, IDFields))
  }

  /** At most three external IDs, none of them empty; exactly the non-empty
      string values of the three fields. */
  lemma ExternalIDsExactly(u: User)
    ensures var ids := ExternalIDs(u);
      |ids| <= |IDFields|
      && (forall k :: 0 <= k < |ids| ==> ids[k] != "")
      && (u.profile.None? ==> ids == [])
      && (u.profile.Some? ==>
            forall x :: x in ids <==> x != "" && exists k :: 0 <= k < |IDFields| && StringField(u.profile.value, IDFields[k]) == x)
  {
    if u.profile.Some? {
      var vs := FieldValues(u.profile.value, IDFields);
      assert forall x :: x in vs <==> exists k :: 0 <= k < |IDFields| && StringField(u.profile.value, IDFields[k]) == x;
    }
  }

  /** A user whose three fields are all set lists them in the order login,
      e-mail, second e-mail. */
  lemma ExternalIDsInOrder(u: User)
    requires u.profile.Some?
    requires forall k :: 0 <= k < |IDFields| ==> StringField(u.profile.value, IDFields[k]) != ""
    ensures ExternalIDs(u) == FieldValues(u.profile.value, IDFields)
  {
    var vs := FieldValues(u.profile.value, IDFields);
    assert vs[0] != "" && vs[1] != "" && vs[2] != "";
    assert NonEmpty(vs[2..]) == [vs[2]] by {
      assert vs[2..][1..] == [];
    }
    assert NonEmpty(vs[1..]) == [vs[1]] + NonEmpty(vs[2..]) by {
      assert vs[1..][1..] == vs[2..];
    }
    assert NonEmpty(vs) == [vs[0]] + NonEmpty(vs[1..]);
  }

  /** `externalIDs`: the loop over the three profile fields. */
  method CollectExternalIDs(u: User) returns (ids: seq<string>)
    ensures ids == ExternalIDs(u)
  {
    ids := [];
    if u.profile.None? {
      return;
    }
    var profile := u.profile.value;
    var i := 0;
    while i < |IDFields|
      invariant 0 <= i <= |IDFields|
      invariant ids == NonEmpty(FieldValues(profile, IDFields[..i]))
    {
      var value := StringField(profile, IDFields[i]);
      NonEmptyAppend(FieldValues(profile, IDFields[..i]), value);
      FieldValuesSnoc(profile, IDFields, i);
      if value != "" {
        ids := ids + [value];
      }
      i := i + 1;
    }
    PrefixAll(IDFields);
  }

  lemma FieldValuesSnoc(profile: JsonObject, fields: seq<string>, i: nat)
    requires i < |fields|
    ensures FieldValues(profile, fields[..i + 1]) == FieldValues(profile, fields[..i]) + [StringField(profile, fields[i])]
  {
  }

  /** The display name: first and last name, separated by a space, without
      surrounding white space; "" without a profile. */
  function DisplayName(u: User): (name: string)
    ensures u.profile.None? ==> name == ""
    ensures name == [] || (!IsSpace(name[0]) && !IsSpace(name[|name| - 1]))
  {
    if u.profile.None? then ""
    else TrimSpace(StringField(u.profile.value, FirstNameField) + " " + StringField(u.profile.value, LastNameField))
  }

  /** A profile with neither name has the empty display name. */
  lemma NoNamesNoDisplayName(u: User)
    requires u.profile.Some?
    requires StringField(u.profile.value, FirstNameField) == "" && StringField(u.profile.value, LastNameField) == ""
    ensures DisplayName(u) == ""
  {
    assert "" + " " + "" == " ";
    assert TrimLeft(" ") == "" by {
      assert IsSpace(' ');
      assert " "[1..] == "";
    }
  }

  /** The birth date: the profile's `birthdate` when it is a string. */
  function BirthDate(u: User): (b: Option<string>)
    ensures b.Some? <==> u.profile.Some? && BirthDateField in u.profile.value && u.profile.value[BirthDateField].JString?
    ensures b.Some? ==> b.value == u.profile.value[BirthDateField].s
  {
    if u.profile.Some? && BirthDateField in u.profile.value && u.profile.value[BirthDateField].JString?
    then Some(u.profile.value[BirthDateField].s)
    else None
  }

  /** The account of a listed user: no groups. */
  function ListedAccount(u: User): (a: Account)
    ensures a.immutableID == u.id && a.ids == ExternalIDs(u) && a.name == DisplayName(u)
    ensures a.groups.None? && a.updatedAt == u.lastUpdated && a.birthDate == BirthDate(u)
  {
    Account(u.id, ExternalIDs(u), DisplayName(u), None, u.lastUpdated, BirthDate(u))
  }

  /** The loop over the page's users: one account per user, in order. */
  method CollectAccounts(users: seq<User>) returns (accounts: seq<Account>)
    ensures |accounts| == |users|
    ensures forall k :: 0 <= k < |users| ==> accounts[k] == ListedAccount(users[k])
  {
    accounts := [];
    var i := 0;
    while i < |users|
      invariant 0 <= i <= |users|
      invariant |accounts| == i
      invariant forall k :: 0 <= k < i ==> accounts[k] == ListedAccount(users[k])
    {
      var user := users[i];
      var ids := CollectExternalIDs(user);
      var account := Account(user.id, ids, DisplayName(user), None, user.lastUpdated, None);
      if user.profile.Some? && BirthDateField in user.profile.value {
        var birthDate := user.profile.value[BirthDateField];
        if birthDate.JString? {
          account := account.(birthDate := Some(birthDate.s));
        }
      }
      accounts := accounts + [account];
      i := i + 1;
    }
  }

  // ---------------------------------------------------------------------
  // The listing

  /** The query of a listing: pages of 250 users, changed strictly after
      `updatedAfter` when it is given, starting after the request's cursor.
      `format` formats a time with the layout `2006-01-02T15:04:05.000Z`. */
  function ListQuery(req: ListAccountsRequest, format: Time -> string): (q: UsersQuery)
    ensures q.limit == PageLimit && q.search.None? && q.after == req.cursor
    ensures q.filter.Some? <==> req.updatedAfter.Some?
    ensures req.updatedAfter.Some? ==> q.filter.value == "lastUpdated gt \"" + format(req.updatedAfter.value) + "\""
  {
    UsersQuery(PageLimit,
               if req.updatedAfter.Some? then Some("lastUpdated gt \"" + format(req.updatedAfter.value) + "\"") else None,
               None, req.cursor)
  }

  /** The cursor for the page after this one: the `after` parameter of the
      next page's URL. `afterParam` is `url.Parse` followed by
      `Query().Get("after")`, and `quote` is Go's `%q`. A next page is never
      lost: it yields a non-empty cursor or an error. */
  function NextCursor(nextPage: Option<string>, afterParam: string -> Result<string, Error>,
                      quote: string -> string): (r: Result<Option<string>, Error>)
    ensures nextPage.None? ==> r == Ok(None)
    ensures nextPage.Some? && r.Ok? ==> r.value.Some? && r.value.value != "" && afterParam(nextPage.value) == Ok(r.value.value)
    ensures nextPage.Some? && afterParam(nextPage.value).Err? ==>
      r == Err(Wrapped(InvalidNextURL + quote(nextPage.value) + ": ", afterParam(nextPage.value).error))
    ensures nextPage.Some? && afterParam(nextPage.value) == Ok("") ==>
      r == Err(Plain(MissingAfter + quote(nextPage.value)))
  {
    match nextPage
    case None => Ok(None)
    case Some(url) =>
      var after := afterParam(url);
      if after.Err? then Err(Wrapped(InvalidNextURL + quote(url) + ": ", after.error))
      else if after.value == "" then Err(Plain(MissingAfter + quote(url)))
      else Ok(Some(after.value))
  }

  /** Every cursor handed out is the `after` of the next page's URL, and it is
      sent back as `after` when it is used. */
  lemma NextCursorRoundTrip(nextPage: Option<string>, afterParam: string -> Result<string, Error>,
                            quote: string -> string, updatedAfter: Option<Time>, format: Time -> string)
    requires NextCursor(nextPage, afterParam, quote).Ok? && NextCursor(nextPage, afterParam, quote).value.Some?
    ensures var cursor := NextCursor(nextPage, afterParam, quote).value;
      ListQuery(ListAccountsRequest(updatedAfter, cursor), format).after == Some(afterParam(nextPage.value).value)
  {
  }

  /** What the listing answers: the client's error; the listing's error,
      wrapped; or the page's accounts and the next cursor. */
  function ListAccountsResult(clientErr: Option<Error>, listUsers: UsersQuery -> Result<UserPage, Failure>,
                              sdkText: ApiError -> string, req: ListAccountsRequest, format: Time -> string,
                              afterParam: string -> Result<string, Error>, quote: string -> string)
    : (r: Result<ListAccountsResponse, Error>)
    ensures clientErr.Some? ==> r == Err(clientErr.value)
    ensures clientErr.None? && listUsers(ListQuery(req, format)).Err? ==>
      r == Err(Wrapped(ListFailed, Raw(listUsers(ListQuery(req, format)).error, sdkText)))
    ensures clientErr.None? && listUsers(ListQuery(req, format)).Ok? ==>
      var page := listUsers(ListQuery(req, format)).value;
      match NextCursor(page.nextPage, afterParam, quote)
      case Err(e) => r == Err(e)
      case Ok(cursor) =>
        r.Ok? && r.value.nextCursor == cursor
        && |r.value.accounts| == |page.users|
        && (forall k :: 0 <= k < |page.users| ==> r.value.accounts[k] == ListedAccount(page.users[k]))
  {
    if clientErr.Some? then Err(clientErr.value)
    else
      var page := listUsers(ListQuery(req, format));
      if page.Err? then Err(Wrapped(ListFailed, Raw(page.error, sdkText)))
      else
        var next := NextCursor(page.value.nextPage, afterParam, quote);
        if next.Err? then Err(next.error)
        else Ok(ListAccountsResponse(seq(|page.value.users|, k requires 0 <= k < |page.value.users| => ListedAccount(page.value.users[k])),
                                     next.value))
  }

  /** `ListAccounts`: one listing call, nothing changed in Okta. */
  method ListAccounts(clientErr: Option<Error>, c: Client, req: ListAccountsRequest, format: Time -> string,
                      afterParam: string -> Result<string, Error>, quote: string -> string)
    returns (r: Result<ListAccountsResponse, Error>)
    ensures r == ListAccountsResult(clientErr, c.listUsers, c.sdkText, req, format, afterParam, quote)
  {
    if clientErr.Some? {
      return Err(clientErr.value);
    }
    var page := c.listUsers(ListQuery(req, format));
    if page.Err? {
      return Err(Wrapped(ListFailed, Raw(page.error, c.sdkText)));
    }
    var accounts := CollectAccounts(page.value.users);
    assert accounts == seq(|page.value.users|, k requires 0 <= k < |page.value.users| => ListedAccount(page.value.users[k]));
    var next := NextCursor(page.value.nextPage, afterParam, quote);
    if next.Err? {
      return Err(next.error);
    }
    r := Ok(ListAccountsResponse(accounts, next.value));
  }
}
