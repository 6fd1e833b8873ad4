/** `directory/dirauthentik/list_groups.go`: one page of Authentik groups,
    optionally narrowed to the names that start with a prefix, ignoring case. */
module AuthentikListGroups {
  import opened Wrappers
  import opened Text
  import opened Api
  import opened Directory
  import opened Authentik
  import opened AuthentikHelpers
  import opened AuthentikGetAccount
  import opened AuthentikListAccounts

  const ByName: string := "name"
  const SearchKey: string := "search"

  /** The query for a page of groups, ordered by name, with the server-side
      search set only when a prefix is given. */
  function GroupQuery(page: int, namePrefix: Option<string>): (q: Query)
    ensures PageKey in q && q[PageKey] == Number(page)
    ensures OrderingKey in q && q[OrderingKey] == Str(ByName)
    ensures SearchKey in q <==> namePrefix.Some?
    ensures namePrefix.Some? ==> q[SearchKey] == Str(namePrefix.value)
    ensures forall k :: k in BaseGroupQuery() ==> k in q
  {
    var q := BaseGroupQuery()[PageKey := Number(page)][OrderingKey := Str(ByName)];
    if namePrefix.Some? then q[SearchKey := Str(namePrefix.value)] else q
  }

  /** A group name the filter keeps: any name for the empty prefix, else one
      that starts with the prefix once both are lower-cased. */
  predicate NameMatches(name: string, prefix: string) {
    prefix == "" || HasPrefix(ToLower(name), ToLower(prefix))
  }

  /** What one group adds to the page: nothing when the filter refuses its
      name or when it has neither primary key nor name. */
  function ListedGroup(g: ApiGroup, prefix: string): seq<Group> {
    if !NameMatches(g.name, prefix) || Nameless(g) then [] else [GroupOf(g)]
  }

  /** The groups of a page, in order. */
  function ListedGroups(gs: seq<ApiGroup>, prefix: string): seq<Group> {
    if gs == [] then [] else ListedGroup(gs[0], prefix) + ListedGroups(gs[1..], prefix)
  }

  /** Exactly the groups whose name matches and which carry a primary key or a
      name are listed; each has a non-empty immutable ID and the kind `group`. */
  lemma {:induction false} ListedGroupsExactly(gs: seq<ApiGroup>, prefix: string)
    ensures var r := ListedGroups(gs, prefix);
      |r| <= |gs|
      && (forall k :: 0 <= k < |r| ==> r[k].immutableID != "" && r[k].kind == GroupKind && NameMatches(r[k].name, prefix))
      && (forall g :: g in gs && !Nameless(g) && NameMatches(g.name, prefix) ==> GroupOf(g) in r)
      && (forall x :: x in r ==> exists g :: g in gs && !Nameless(g) && NameMatches(g.name, prefix) && x == GroupOf(g))
  {
    if gs != [] {
      ListedGroupsExactly(gs[1..], prefix);
      var rest := ListedGroups(gs[1..], prefix);
      forall g | g in gs && !Nameless(g) && NameMatches(g.name, prefix) ensures GroupOf(g) in ListedGroups(gs, prefix) {
        if g != gs[0] {
          assert g in gs[1..];
        }
      }
      forall x | x in ListedGroups(gs, prefix)
        ensures exists g :: g in gs && !Nameless(g) && NameMatches(g.name, prefix) && x == GroupOf(g)
      {
        if x !in rest {
          assert gs[0] in gs;
        } else {
          var g :| g in gs[1..] && !Nameless(g) && NameMatches(g.name, prefix) && x == GroupOf(g);
          assert g in gs;
        }
      }
    }
  }

  /** The filter ignores case: names equal up to case, or prefixes equal up
      to case, are kept or dropped together. */
  lemma NameMatchesIgnoresCase(name: string, name': string, prefix: string, prefix': string)
    requires EqualFold(name, name') && EqualFold(prefix, prefix')
    ensures NameMatches(name, prefix) <==> NameMatches(name', prefix')
  {
  }

  /** Without a prefix every group with a primary key or a name is listed. */
  lemma {:induction false} NoPrefixListsAll(gs: seq<ApiGroup>)
    ensures ListedGroups(gs, "") == GroupsOf(gs)
  {
    if gs != [] {
      NoPrefixListsAll(gs[1..]);
    }
  }

  lemma {:induction false} ListedGroupsKeepOrder(a: seq<ApiGroup>, b: seq<ApiGroup>, prefix: string)
    ensures ListedGroups(a + b, prefix) == ListedGroups(a, prefix) + ListedGroups(b, prefix)
  {
    if a == [] {
      assert a + b == b;
    } else {
      assert (a + b)[0] == a[0] && (a + b)[1..] == a[1..] + b;
      ListedGroupsKeepOrder(a[1..], b, prefix);
      Assoc(ListedGroup(a[0], prefix), ListedGroups(a[1..], prefix), ListedGroups(b, prefix));
    }
  }

  /** The filtering loop of `ListGroups`. */
  method CollectListedGroups(gs: seq<ApiGroup>, prefix: string) returns (groups: seq<Group>)
    ensures groups == ListedGroups(gs, prefix)
  {
    groups := [];
    var lowerPrefix := ToLower(prefix);
    var i := 0;
    while i < |gs|
      invariant 0 <= i <= |gs|
      invariant groups == ListedGroups(gs[..i], prefix)
    {
      var group := gs[i];
      ListedGroupsKeepOrder(gs[..i], [group], prefix);
      PrefixSnoc(gs, i);
      assert ListedGroups([group], prefix) == ListedGroup(group, prefix) by {
        assert [group][1..] == [];
      }
      if prefix != "" && !HasPrefix(ToLower(group.name), lowerPrefix) {
        i := i + 1;
        continue;
      }
      var immutableID := group.pk;
      if immutableID == "" {
        immutableID := group.name;
      }
      if immutableID == "" {
        i := i + 1;
        continue;
      }
      groups := groups + [Group(immutableID, group.name, GroupKind)];
      i := i + 1;
    }
    PrefixAll(gs);
  }

  /** `ListGroups`. `quote` is Go's `%q`. `MaxCount` plays no part. */
  method ListGroups(s: Server, req: ListGroupsRequest, quote: string -> string)
    returns (r: Result<ListGroupsResponse, Error>)
    modifies s
    ensures var page := PageCursor(req.cursor, quote);
      (page.Err? ==> r == Err(page.error) && s.log == old(s.log))
      && (page.Ok? ==>
            var q := GroupQuery(page.value, req.namePrefix);
            s.log == old(s.log) + Sent(s.configErr, Get(GroupsPath, q))
            && match s.groups(q)
               case Err(e) => r == Err(e)
               case Ok(resp) =>
                 r == Ok(ListGroupsResponse(ListedGroups(resp.results, if req.namePrefix.Some? then req.namePrefix.value else ""),
                                            NextCursor(resp.pagination)))
         )
  {
    var page := PageCursor(req.cursor, quote);
    if page.Err? {
      return Err(page.error);
    }
    var prefix := "";
    if req.namePrefix.Some? {
      prefix := req.namePrefix.value;
    }
    var query := GroupQuery(page.value, req.namePrefix);
    var resp := s.GetGroups(query);
    if resp.Err? {
      return Err(resp.error);
    }
    var groups := CollectListedGroups(resp.value.results, prefix);
    r := Ok(ListGroupsResponse(groups, NextCursor(resp.value.pagination)));
  }
}
