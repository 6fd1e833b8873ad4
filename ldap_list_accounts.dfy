/** `directory/dirldap/list_accounts.go`: one page of `inetOrgPerson` entries
    as accounts, paged with the simple paged results control whose cookie
    travels to the caller as standard base64. */
module LdapListAccounts {
  import opened Wrappers
  import opened Text
  import opened Api
  import opened Directory
  import opened Base64
  import opened LdapClient

  const InvalidCursor: string := "invalid cursor: "
  const FetchingUsers: string := "error fetching users: "

  /** The attributes asked for: immutable ID, user name, e-mail address, common
      name and last modification time. */
  const UserAttributes: seq<string> := ["entryUUID", "uid", "mail", "cn", "modifyTimestamp"]

  const PersonFilter: string := "(objectClass=inetOrgPerson)"
  const ChangedPrefix: string := "(&(objectClass=inetOrgPerson)(modifyTimestamp>="
  const ChangedSuffix: string := "))"

  // ---------------------------------------------------------------------
  // The filter

  /** The search filter: every person, or, with `updatedAfter`, every person
      modified at or after that time. `format` is Go's `t.Format` with the
      LDAP generalized-time layout `20060102150405Z`. */
  function UserFilter(updatedAfter: Option<Time>, format: Time -> string): string {
    if updatedAfter.Some? then ChangedPrefix + format(updatedAfter.value) + ChangedSuffix
    else PersonFilter
  }

  /** Reads the time back out of a filter: the text between the fixed prefix
      and suffix of a modified-since filter, nothing for any other filter. */
  function FilterTime(f: string): (t: Option<string>)
    ensures t.Some? ==> f == ChangedPrefix + t.value + ChangedSuffix
  {
    if |f| >= |ChangedPrefix| + |ChangedSuffix|
       && f[..|ChangedPrefix|] == ChangedPrefix && f[|f| - |ChangedSuffix|..] == ChangedSuffix
    then
      var t := f[|ChangedPrefix|..|f| - |ChangedSuffix|];
      assert f == f[..|ChangedPrefix|] + t + f[|f| - |ChangedSuffix|..];
      Some(t)
    else None
  }

  /** The filter says exactly whether, and from which time on, accounts are
      asked for: the plain filter carries no time, the other carries the
      formatted time unchanged. */
  lemma UserFilterRoundTrip(updatedAfter: Option<Time>, format: Time -> string)
    ensures FilterTime(UserFilter(updatedAfter, format))
            == if updatedAfter.Some? then Some(format(updatedAfter.value)) else None
  {
    if updatedAfter.Some? {
      var f := UserFilter(updatedAfter, format);
      var t := format(updatedAfter.value);
      assert f[..|ChangedPrefix|] == ChangedPrefix;
      assert f[|f| - |ChangedSuffix|..] == ChangedSuffix;
      assert f[|ChangedPrefix|..|f| - |ChangedSuffix|] == t;
    } else {
      assert |PersonFilter| < |ChangedPrefix|;
    }
  }

  // ---------------------------------------------------------------------
  // Cursors

  /** The cookie a cursor carries: none for the first page, else the base64
      decoding of the cursor. `corrupt` is the decoder's error for a cursor. */
  function CursorCookie(cursor: Option<string>, corrupt: string -> Error): (r: Result<seq<Byte>, Error>)
    ensures cursor.None? ==> r == Ok([])
    ensures cursor.Some? ==> (r.Ok? <==> Decode(cursor.value).Some?)
    ensures cursor.Some? && r.Ok? ==> Decode(cursor.value) == Some(r.value)
    ensures r.Err? ==> r.error == Wrapped(InvalidCursor, corrupt(cursor.value))
  {
    match cursor
    case None => Ok([])
    case Some(c) =>
      match Decode(c)
      case None => Err(Wrapped(InvalidCursor, corrupt(c)))
      case Some(cookie) => Ok(cookie)
  }

  /** The cookie of the first paged results control among the response's
      controls. */
  function FirstPaging(cs: seq<Control>): (r: Option<seq<Byte>>)
    ensures r.None? <==> forall k :: 0 <= k < |cs| ==> !cs[k].Paging?
    ensures r.Some? ==> Paging(r.value) in cs
  {
    if cs == [] then None
    else if cs[0].Paging? then Some(cs[0].cookie)
    else FirstPaging(cs[1..])
  }

  /** Controls before the first paged results control do not count. */
  lemma {:induction false} FirstPagingSkips(a: seq<Control>, b: seq<Control>)
    requires forall k :: 0 <= k < |a| ==> !a[k].Paging?
    ensures FirstPaging(a + b) == FirstPaging(b)
  {
    if a == [] {
      assert a + b == b;
    } else {
      assert (a + b)[0] == a[0] && (a + b)[1..] == a[1..] + b;
      FirstPagingSkips(a[1..], b);
    }
  }

  /** The next cursor: the base64 of the first paging cookie, when that
      cookie is not empty. */
  function NextCursorOf(cs: seq<Control>): (next: Option<string>)
    ensures next.Some? <==> FirstPaging(cs).Some? && |FirstPaging(cs).value| > 0
  {
    match FirstPaging(cs)
    case Some(cookie) => if |cookie| > 0 then Some(Encode(cookie)) else None
    case None => None
  }

  /** Every cursor handed out is accepted back and carries the server's
      cookie unchanged. */
  lemma NextCursorRoundTrip(cs: seq<Control>, corrupt: string -> Error)
    requires NextCursorOf(cs).Some?
    ensures CursorCookie(NextCursorOf(cs), corrupt) == Ok(FirstPaging(cs).value)
  {
    DecodeEncode(FirstPaging(cs).value);
  }

  /** The loop over the response controls, which stops at the first paged
      results control. */
  method FindNextCursor(cs: seq<Control>) returns (next: Option<string>)
    ensures next == NextCursorOf(cs)
  {
    next := None;
    var i := 0;
    while i < |cs|
      invariant 0 <= i <= |cs|
      invariant forall k :: 0 <= k < i ==> !cs[k].Paging?
      invariant next.None?
    {
      if cs[i].Paging? {
        FirstPagingSkips(cs[..i], cs[i..]);
        assert cs == cs[..i] + cs[i..];
        assert cs[i..][0] == cs[i];
        if |cs[i].cookie| > 0 {
          next := Some(Encode(cs[i].cookie));
        }
        return;
      }
      i := i + 1;
    }
    FirstPagingSkips(cs, []);
    assert cs + [] == cs;
  }

  // ---------------------------------------------------------------------
  // Accounts

  /** The external IDs of an entry: its e-mail address, then its user name,
      each only when present. */
  function ExternalIDs(e: Entry): (ids: seq<string>)
    ensures ids == NonEmpty([AttributeValue(e, "mail"), AttributeValue(e, "uid")])
  {
    var mail := AttributeValue(e, "mail");
    var uid := AttributeValue(e, "uid");
    assert [mail, uid][1..] == [uid];
    (if mail != "" then [mail] else []) + (if uid != "" then [uid] else [])
  }

  /** The account of an entry. `parse` is `time.Parse` with the error
      ignored, so it gives the zero time for a malformed timestamp. */
  function AccountOf(e: Entry, parse: string -> Time): (a: Account)
    ensures a.immutableID == AttributeValue(e, "entryUUID") && a.name == AttributeValue(e, "cn")
    ensures a.ids == ExternalIDs(e)
    ensures a.updatedAt == Some(parse(AttributeValue(e, "modifyTimestamp")))
    ensures a.groups.None? && a.birthDate.None?
  {
    Account(AttributeValue(e, "entryUUID"), ExternalIDs(e), AttributeValue(e, "cn"), None,
            Some(parse(AttributeValue(e, "modifyTimestamp"))), None)
  }

  /** The loop over the entries: one account per entry, in order. */
  method CollectAccounts(entries: seq<Entry>, parse: string -> Time) returns (accounts: seq<Account>)
    ensures |accounts| == |entries|
    ensures forall k :: 0 <= k < |entries| ==> accounts[k] == AccountOf(entries[k], parse)
  {
    accounts := [];
    var i := 0;
    while i < |entries|
      invariant 0 <= i <= |entries|
      invariant |accounts| == i
      invariant forall k :: 0 <= k < i ==> accounts[k] == AccountOf(entries[k], parse)
    {
      var entry := entries[i];
      var ids: seq<string> := [];
      if AttributeValue(entry, "mail") != "" {
        ids := ids + [AttributeValue(entry, "mail")];
      }
      if AttributeValue(entry, "uid") != "" {
        ids := ids + [AttributeValue(entry, "uid")];
      }
      var modifyTime := parse(AttributeValue(entry, "modifyTimestamp"));
      accounts := accounts + [Account(AttributeValue(entry, "entryUUID"), ids, AttributeValue(entry, "cn"), None,
                                      Some(modifyTime), None)];
      i := i + 1;
    }
  }

  /** The search for one page of users. */
  function UsersSearch(config: Config, filter: string, cookie: seq<Byte>): SearchRequest {
    SearchRequest(config.baseDN, WholeSubtree, filter, UserAttributes, Some(PagingRequest(config.pageSize, cookie)))
  }

  /** `ListAccounts`. `clientErr` is the failure of `p.client()`, `format`
      and `parse` the timestamp layout's formatting and parsing, `corrupt`
      the base64 decoder's error. The provider never modifies anything, and
      searches at most once: not at all when the client or the cursor fails. */
  method ListAccounts(clientErr: Option<Error>, c: Client, config: Config, req: ListAccountsRequest,
                      format: Time -> string, parse: string -> Time, corrupt: string -> Error)
    returns (r: Result<ListAccountsResponse, Error>)
    modifies c
    ensures c.modified == old(c.modified)
    ensures clientErr.Some? ==> r == Err(Wrapped(CouldNotGetClient, clientErr.value)) && c.searches == old(c.searches)
    ensures clientErr.None? && CursorCookie(req.cursor, corrupt).Err? ==>
      r == Err(CursorCookie(req.cursor, corrupt).error) && c.searches == old(c.searches)
    ensures clientErr.None? && CursorCookie(req.cursor, corrupt).Ok? ==>
      var q := UsersSearch(config, UserFilter(req.updatedAfter, format), CursorCookie(req.cursor, corrupt).value);
      c.searches == old(c.searches) + [q]
      && match c.search(q)
         case Err(e) => r == Err(Wrapped(FetchingUsers, e))
         case Ok(res) =>
           var entries := res.entries.GetOr([]);
           r.Ok? && r.value.nextCursor == NextCursorOf(res.controls)
           && |r.value.accounts| == |entries|
           && forall k :: 0 <= k < |entries| ==> r.value.accounts[k] == AccountOf(entries[k], parse)
  {
    if clientErr.Some? {
      return Err(Wrapped(CouldNotGetClient, clientErr.value));
    }
    var filter := UserFilter(req.updatedAfter, format);
    var cookie := CursorCookie(req.cursor, corrupt);
    if cookie.Err? {
      return Err(cookie.error);
    }
    var result := c.Search(UsersSearch(config, filter, cookie.value));
    if result.Err? {
      return Err(Wrapped(FetchingUsers, result.error));
    }
    var accounts := CollectAccounts(result.value.entries.GetOr([]), parse);
    var next := FindNextCursor(result.value.controls);
    r := Ok(ListAccountsResponse(accounts, next));
  }
}
