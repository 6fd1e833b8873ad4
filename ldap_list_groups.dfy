/** `directory/dirldap/list_groups.go`: one page of LDAP groups whose `dn`
    starts with a prefix, paged like the accounts. As written, a failed search
    without a prefix dereferences the absent prefix while building its error
    (see `ListGroupsAsWritten`); the model answers with the empty prefix the
    search itself used. */
module LdapListGroups {
  import opened Wrappers
  import opened Api
  import opened Directory
  import opened Base64
  import opened LdapClient
  import opened LdapListAccounts

  const GroupKind: string := "group"
  const GroupAttributes: seq<string> := ["entryUUID", "dn"]
  const GroupFilterPrefix: string := "(&(objectClass=group)(dn="
  const GroupFilterSuffix: string := "*))"
  const FetchingGroup: string := "error fetching group "

  /** The name prefix: the request's, or "" when it has none. */
  function PrefixOf(req: ListGroupsRequest): (p: string)
    ensures req.namePrefix.Some? ==> p == req.namePrefix.value
    ensures req.namePrefix.None? ==> p == ""
  {
    if req.namePrefix.Some? then req.namePrefix.value else ""
  }

  /** The search filter: groups whose `dn` starts with the prefix, which is
      put into the filter without escaping. */
  function GroupFilter(prefix: string): string {
    GroupFilterPrefix + prefix + GroupFilterSuffix
  }

  /** Reads the prefix back out of a group filter. */
  function FilterPrefix(f: string): (p: Option<string>)
    ensures p.Some? ==> f == GroupFilter(p.value)
  {
    if |f| >= |GroupFilterPrefix| + |GroupFilterSuffix|
       && f[..|GroupFilterPrefix|] == GroupFilterPrefix && f[|f| - |GroupFilterSuffix|..] == GroupFilterSuffix
    then
      var p := f[|GroupFilterPrefix|..|f| - |GroupFilterSuffix|];
      assert f == f[..|GroupFilterPrefix|] + p + f[|f| - |GroupFilterSuffix|..];
      Some(p)
    else None
  }

  /** The filter carries the prefix unchanged, even one holding filter syntax. */
  lemma GroupFilterRoundTrip(prefix: string)
    ensures FilterPrefix(GroupFilter(prefix)) == Some(prefix)
  {
    var f := GroupFilter(prefix);
    assert f[..|GroupFilterPrefix|] == GroupFilterPrefix;
    assert f[|f| - |GroupFilterSuffix|..] == GroupFilterSuffix;
    assert f[|GroupFilterPrefix|..|f| - |GroupFilterSuffix|] == prefix;
  }

  /** The search for one page of groups. */
  function GroupsSearch(config: Config, prefix: string, cookie: seq<Byte>): SearchRequest {
    SearchRequest(config.baseDN, WholeSubtree, GroupFilter(prefix), GroupAttributes,
                  Some(PagingRequest(config.pageSize, cookie)))
  }

  /** The group of an entry: its `entryUUID` and its `dn` attribute, of kind
      `group`. */
  function GroupOf(e: Entry): (g: Group)
    ensures g.immutableID == AttributeValue(e, "entryUUID") && g.name == AttributeValue(e, "dn")
    ensures g.kind == GroupKind
  {
    Group(AttributeValue(e, "entryUUID"), AttributeValue(e, "dn"), GroupKind)
  }

  /** The error of a failed group search, naming the prefix. */
  function FetchError(prefix: string, e: Error): Error {
    Wrapped(FetchingGroup + prefix + ": ", e)
  }

  /** What `ListGroups` answers when the search gives `result`, as corrected:
      the client's or the cursor's error, the search error naming the prefix
      searched for, or one group per entry with the next cursor. */
  function ListGroupsResult(clientErr: Option<Error>, config: Config, req: ListGroupsRequest,
                            search: SearchRequest -> Result<SearchResult, Error>, corrupt: string -> Error)
    : (r: Result<ListGroupsResponse, Error>)
    ensures clientErr.Some? ==> r == Err(Wrapped(CouldNotGetClient, clientErr.value))
    ensures clientErr.None? && CursorCookie(req.cursor, corrupt).Err? ==> r == Err(CursorCookie(req.cursor, corrupt).error)
    ensures clientErr.None? && CursorCookie(req.cursor, corrupt).Ok? ==>
      var res := search(GroupsSearch(config, PrefixOf(req), CursorCookie(req.cursor, corrupt).value));
      (res.Err? ==> r == Err(FetchError(PrefixOf(req), res.error)))
      && (res.Ok? ==>
            var entries := res.value.entries.GetOr([]);
            r.Ok? && r.value.nextCursor == NextCursorOf(res.value.controls)
            && |r.value.groups| == |entries|
            && forall k :: 0 <= k < |entries| ==> r.value.groups[k] == GroupOf(entries[k]))
  {
    if clientErr.Some? then Err(Wrapped(CouldNotGetClient, clientErr.value))
    else
      var cookie := CursorCookie(req.cursor, corrupt);
      if cookie.Err? then Err(cookie.error)
      else
        var res := search(GroupsSearch(config, PrefixOf(req), cookie.value));
        if res.Err? then Err(FetchError(PrefixOf(req), res.error))
        else
          var entries := res.value.entries.GetOr([]);
          Ok(ListGroupsResponse(seq(|entries|, k requires 0 <= k < |entries| => GroupOf(entries[k])),
                                NextCursorOf(res.value.controls)))
  }

  /** `ListGroups` exactly as written: the error of a failed search
      dereferences `req.NamePrefix`, which panics when the request has none. */
  function ListGroupsAsWritten(clientErr: Option<Error>, config: Config, req: ListGroupsRequest,
                               search: SearchRequest -> Result<SearchResult, Error>, corrupt: string -> Error)
    : Outcome<ListGroupsResponse>
  {
    if clientErr.Some? then Finished(Err(Wrapped(CouldNotGetClient, clientErr.value)))
    else
      var namePrefix := if req.namePrefix.Some? then req.namePrefix.value else "";
      var cookie := CursorCookie(req.cursor, corrupt);
      if cookie.Err? then Finished(Err(cookie.error))
      else
        var res := search(GroupsSearch(config, namePrefix, cookie.value));
        if res.Err? then
          if req.namePrefix.None? then Panicked
          else Finished(Err(Wrapped(FetchingGroup + req.namePrefix.value + ": ", res.error)))
        else
          var entries := res.value.entries.GetOr([]);
          Finished(Ok(ListGroupsResponse(seq(|entries|, k requires 0 <= k < |entries| => GroupOf(entries[k])),
                                         NextCursorOf(res.value.controls))))
  }

  /** The as-written listing panics exactly when a search without a prefix
      fails, and otherwise answers what the corrected one answers. */
  lemma AsWrittenPanicsOnlyWithoutPrefix(clientErr: Option<Error>, config: Config, req: ListGroupsRequest,
                                         search: SearchRequest -> Result<SearchResult, Error>, corrupt: string -> Error)
    ensures var out := ListGroupsAsWritten(clientErr, config, req, search, corrupt);
      (out.Panicked? <==>
         clientErr.None? && req.namePrefix.None? && CursorCookie(req.cursor, corrupt).Ok?
         && search(GroupsSearch(config, "", CursorCookie(req.cursor, corrupt).value)).Err?)
      && (out.Finished? ==> out.result == ListGroupsResult(clientErr, config, req, search, corrupt))
  {
  }

  /** A concrete panic: the first page of all groups, no prefix, and a search
      that fails. */
  lemma AsWrittenPanicsOnFailedSearch(config: Config, corrupt: string -> Error)
    ensures var req := ListGroupsRequest(None, None, None);
      var search := (q: SearchRequest) => Err(Plain("LDAP Result Code 32"));
      ListGroupsAsWritten(None, config, req, search, corrupt) == Panicked
      && ListGroupsResult(None, config, req, search, corrupt) == Err(FetchError("", Plain("LDAP Result Code 32")))
  {
  }

  /** The loop over the entries: one group per entry, in order. */
  method CollectGroups(entries: seq<Entry>) returns (groups: seq<Group>)
    ensures |groups| == |entries|
    ensures forall k :: 0 <= k < |entries| ==> groups[k] == GroupOf(entries[k])
  {
    groups := [];
    var i := 0;
    while i < |entries|
      invariant 0 <= i <= |entries|
      invariant |groups| == i
      invariant forall k :: 0 <= k < i ==> groups[k] == GroupOf(entries[k])
    {
      groups := groups + [Group(AttributeValue(entries[i], "entryUUID"), AttributeValue(entries[i], "dn"), GroupKind)];
      i := i + 1;
    }
  }

  /** `ListGroups`, corrected. It searches at most once, never modifies, and
      answers `ListGroupsResult`. */
  method ListGroups(clientErr: Option<Error>, c: Client, config: Config, req: ListGroupsRequest, corrupt: string -> Error)
    returns (r: Result<ListGroupsResponse, Error>)
    modifies c
    ensures r == ListGroupsResult(clientErr, config, req, c.search, corrupt)
    ensures c.modified == old(c.modified)
    ensures clientErr.None? && CursorCookie(req.cursor, corrupt).Ok?
      ==> c.searches == old(c.searches) + [GroupsSearch(config, PrefixOf(req), CursorCookie(req.cursor, corrupt).value)]
    ensures clientErr.Some? || CursorCookie(req.cursor, corrupt).Err? ==> c.searches == old(c.searches)
  {
    if clientErr.Some? {
      return Err(Wrapped(CouldNotGetClient, clientErr.value));
    }
    var namePrefix := "";
    if req.namePrefix.Some? {
      namePrefix := req.namePrefix.value;
    }
    var cookie := CursorCookie(req.cursor, corrupt);
    if cookie.Err? {
      return Err(cookie.error);
    }
    var result := c.Search(GroupsSearch(config, namePrefix, cookie.value));
    if result.Err? {
      return Err(FetchError(namePrefix, result.error));
    }
    var entries := result.value.entries.GetOr([]);
    var groups := CollectGroups(entries);
    assert groups == seq(|entries|, k requires 0 <= k < |entries| => GroupOf(entries[k]));
    var next := FindNextCursor(result.value.controls);
    r := Ok(ListGroupsResponse(groups, next));
  }
}
