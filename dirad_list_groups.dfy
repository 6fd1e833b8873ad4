/** `directory/dirad/list_groups.go`: the AD provider's group listing. */
module DirAdListGroups {
  import opened Wrappers
  import opened Api
  import opened Directory
  import opened AdClient
  import opened AdUser
  import opened AdGroup

  /** A listed group: its GUID and name; AD groups have no kind. */
  function GroupOf(g: ADGroup): (r: Group)
    ensures r.immutableID == g.objectGUID && r.name == g.name && r.kind == ""
  {
    Group(g.objectGUID, g.name, "")
  }

  /** The arguments handed to `GetADGroups`: MaxCount is not passed on. */
  function ArgsOf(req: ListGroupsRequest): (a: GetADGroupArgs)
    ensures a.namePrefix == req.namePrefix && a.cursor == req.cursor && a.maxCount.None?
    ensures PageSize(a) == DefaultPageSize
  {
    GetADGroupArgs(req.namePrefix, None, req.cursor)
  }

  /** A request's MaxCount has no effect on the arguments. */
  lemma MaxCountIgnored(req: ListGroupsRequest, n: Option<int>)
    ensures ArgsOf(req.(maxCount := n)) == ArgsOf(req)
  {
  }

  /** The loop that maps the returned groups, in order. */
  method ToGroups(gs: seq<ADGroup>) returns (r: seq<Group>)
    ensures |r| == |gs|
    ensures forall k :: 0 <= k < |gs| ==> r[k] == GroupOf(gs[k])
  {
    r := [];
    var i := 0;
    while i < |gs|
      invariant 0 <= i <= |gs| && |r| == i
      invariant forall k :: 0 <= k < i ==> r[k] == GroupOf(gs[k])
    {
      r := r + [GroupOf(gs[i])];
      i := i + 1;
    }
  }

  /** `ListGroups`. `clientErr` is the failure of obtaining the PowerShell client and
      `parse` the JSON decoding of the listing. The page `GetADGroups` answered is
      returned as a ghost out-parameter. */
  method ListGroups(clientErr: Option<Error>, s: MockClient, req: ListGroupsRequest,
                    parse: string -> Result<GroupsJson, Error>)
    returns (r: Result<ListGroupsResponse, Error>, ghost page: Page<ADGroup>)
    modifies s
    ensures s.responseMap == old(s.responseMap)
    ensures clientErr.Some? ==> r == Err(clientErr.value) && s.executed == old(s.executed)
    ensures clientErr.None? ==>
      var cmd := GroupsCommand(PrefixOf(ArgsOf(req)));
      var out := Lookup(s.responseMap, cmd);
      s.executed == old(s.executed) + [cmd]
      && (out.Err? ==> r == Err(out.error))
      && (out.Ok? && parse(out.value).Err? ==> r == Err(parse(out.value).error))
      && (out.Ok? && parse(out.value).Ok? ==>
            (exists sorted :: Answers(parse(out.value).value, sorted, ArgsOf(req), page, false))
            // every group of the page, in its order, and the cursor unchanged
            && r.Ok? && |r.value.groups| == |page.items| && r.value.nextCursor == page.next
            && forall k :: 0 <= k < |page.items| ==> r.value.groups[k] == GroupOf(page.items[k]))
  {
    page := Page([], None);
    if clientErr.Some? {
      return Err(clientErr.value), page;
    }
    var groups, sorted := GetADGroups(s, ArgsOf(req), parse);
    if groups.Err? {
      return Err(groups.error), page;
    }
    page := groups.value;
    var mapped := ToGroups(groups.value.items);
    r := Ok(ListGroupsResponse(mapped, groups.value.next));
  }
}
