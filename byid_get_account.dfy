/** `directory/dirbyid/get_account.go`: the Beyond Identity identities an
    account reference names, each with its groups. Two defects of the code as
    written are modelled beside the corrected behaviour: both reference
    pointers are dereferenced for logging, so a reference without an immutable
    ID panics before the search by user name can run (`GetAccountAsWritten`);
    and an identity yields one account per page of its groups, each with only
    that page's groups (`EntriesFrom`). */
module ByidGetAccount {
  import opened Wrappers
  import opened Api
  import opened Directory
  import opened ByidConv

  /** The Beyond Identity client, read-only: each call is answered by its
      function. A page token of `None` asks for the first page. */
  datatype Client = Client(getIdentity: string -> Result<Identity, Error>,
                           listIdentities: (string, Option<string>) -> Result<IdentityPage, Error>,
                           listIdentityGroups: (string, Option<string>) -> Result<GroupPage, Error>)

  const V0: string := "v0"

  /** The filter of the search by user name, which depends on the API version.
      `quote` is Go's `%q`. */
  function IdentityFilter(version: string, id: string, quote: string -> string): (f: string)
    ensures version == V0 ==> f == "username eq " + quote(id)
    ensures version != V0 ==> f == "traits.username eq " + quote(id)
  {
    if version == V0 then "username eq " + quote(id) else "traits.username eq " + quote(id)
  }

  /** A paging answer seen after `acc` was read. */
  function Prepended<T>(acc: seq<T>, r: Option<Result<seq<T>, Error>>): Option<Result<seq<T>, Error>> {
    if r.Some? && r.value.Ok? then Some(Ok(acc + r.value.value)) else r
  }

  // ---------------------------------------------------------------------
  // Following page tokens. Each loop asks for a page, then follows the
  // page's token until there is none; `fuel` bounds the pages asked for, and
  // `None` means it ran out while a further page was announced.

  /** The identities matching `filter`, after the ones `acc` already read. */
  function IdentitiesFrom(list: (string, Option<string>) -> Result<IdentityPage, Error>, filter: string,
                          acc: seq<Identity>, token: Option<string>, fuel: nat): Option<Result<seq<Identity>, Error>>
    decreases fuel
  {
    if fuel == 0 then None
    else
      var r := list(filter, token);
      if r.Err? then Some(Err(r.error))
      else if r.value.nextPageToken.None? then Some(Ok(acc + r.value.identities))
      else IdentitiesFrom(list, filter, acc + r.value.identities, r.value.nextPageToken, fuel - 1)
  }

  /** The identities read so far come first, and the rest follows in page
      order. */
  lemma {:induction false} IdentitiesKeepOrder(list: (string, Option<string>) -> Result<IdentityPage, Error>, filter: string,
                                               acc: seq<Identity>, token: Option<string>, fuel: nat)
    ensures IdentitiesFrom(list, filter, acc, token, fuel) == Prepended(acc, IdentitiesFrom(list, filter, [], token, fuel))
    decreases fuel
  {
    if fuel > 0 {
      var r := list(filter, token);
      if r.Ok? && r.value.nextPageToken.Some? {
        var page := r.value.identities;
        assert [] + page == page;
        IdentitiesKeepOrder(list, filter, acc + page, r.value.nextPageToken, fuel - 1);
        IdentitiesKeepOrder(list, filter, page, r.value.nextPageToken, fuel - 1);
        var rest := IdentitiesFrom(list, filter, [], r.value.nextPageToken, fuel - 1);
        if rest.Some? && rest.value.Ok? {
          assert acc + page + rest.value.value == acc + (page + rest.value.value);
        }
      } else if r.Ok? {
        assert [] + r.value.identities == r.value.identities;
      }
    }
  }

  /** All the groups of an identity, after the ones `acc` already read. */
  function GroupsFrom(list: (string, Option<string>) -> Result<GroupPage, Error>, id: string,
                      acc: seq<Group>, token: Option<string>, fuel: nat): Option<Result<seq<Group>, Error>>
    decreases fuel
  {
    if fuel == 0 then None
    else
      var r := list(id, token);
      if r.Err? then Some(Err(r.error))
      else if r.value.nextPageToken.None? then Some(Ok(acc + GroupsOf(r.value.groups)))
      else GroupsFrom(list, id, acc + GroupsOf(r.value.groups), r.value.nextPageToken, fuel - 1)
  }

  lemma {:induction false} GroupsKeepOrder(list: (string, Option<string>) -> Result<GroupPage, Error>, id: string,
                                           acc: seq<Group>, token: Option<string>, fuel: nat)
    ensures GroupsFrom(list, id, acc, token, fuel) == Prepended(acc, GroupsFrom(list, id, [], token, fuel))
    decreases fuel
  {
    if fuel > 0 {
      var r := list(id, token);
      if r.Ok? && r.value.nextPageToken.Some? {
        var page := GroupsOf(r.value.groups);
        assert [] + page == page;
        GroupsKeepOrder(list, id, acc + page, r.value.nextPageToken, fuel - 1);
        GroupsKeepOrder(list, id, page, r.value.nextPageToken, fuel - 1);
        var rest := GroupsFrom(list, id, [], r.value.nextPageToken, fuel - 1);
        if rest.Some? && rest.value.Ok? {
          assert acc + page + rest.value.value == acc + (page + rest.value.value);
        }
      } else if r.Ok? {
        assert [] + GroupsOf(r.value.groups) == GroupsOf(r.value.groups);
      }
    }
  }

  // ---------------------------------------------------------------------
  // The accounts as written: one per page of groups

  /** The account of an identity carrying some groups. */
  function WithGroups(identity: Identity, groups: seq<Group>): (a: Account)
    ensures a.groups == Some(groups) && a.(groups := None) == AccountOf(identity)
  {
    AccountOf(identity).(groups := Some(groups))
  }

  /** The inner loop as written: after the accounts `acc`, one account for
      every page of the identity's groups, carrying that page's groups. */
  function EntriesFrom(list: (string, Option<string>) -> Result<GroupPage, Error>, identity: Identity,
                       acc: seq<Account>, token: Option<string>, fuel: nat): Option<Result<seq<Account>, Error>>
    decreases fuel
  {
    if fuel == 0 then None
    else
      var r := list(identity.id, token);
      if r.Err? then Some(Err(r.error))
      else
        var entry := WithGroups(identity, GroupsOf(r.value.groups));
        if r.value.nextPageToken.None? then Some(Ok(acc + [entry]))
        else EntriesFrom(list, identity, acc + [entry], r.value.nextPageToken, fuel - 1)
  }

  /** The pages of an identity's groups the inner loop reads, in order: `None`
      when the fuel runs out, else the first failure or every page. */
  function GroupPages(list: (string, Option<string>) -> Result<GroupPage, Error>, id: string,
                      token: Option<string>, fuel: nat): Option<Result<seq<seq<Group>>, Error>>
    decreases fuel
  {
    if fuel == 0 then None
    else
      var r := list(id, token);
      if r.Err? then Some(Err(r.error))
      else
        var page := GroupsOf(r.value.groups);
        if r.value.nextPageToken.None? then Some(Ok([page]))
        else
          match GroupPages(list, id, r.value.nextPageToken, fuel - 1)
          case Some(Ok(rest)) => Some(Ok([page] + rest))
          case other => other
  }

  /** The step of `EntriesOnePerPage`: accounts laid out one per page after
      `acc + [WithGroups(identity, page)]` are laid out one per page of
      `[page] + rest` after `acc`. */
  lemma ShiftPages(es: seq<Account>, acc: seq<Account>, identity: Identity, page: seq<Group>, rest: seq<seq<Group>>)
    requires |es| == |acc| + 1 + |rest| && es[..|acc| + 1] == acc + [WithGroups(identity, page)]
    requires forall k :: 0 <= k < |rest| ==> es[|acc| + 1 + k] == WithGroups(identity, rest[k])
    ensures es[..|acc|] == acc
    ensures forall k :: 0 <= k < 1 + |rest| ==> es[|acc| + k] == WithGroups(identity, ([page] + rest)[k])
  {
    assert es[..|acc|] == es[..|acc| + 1][..|acc|];
    assert es[|acc|] == es[..|acc| + 1][|acc|];
    forall k | 1 <= k < 1 + |rest| ensures es[|acc| + k] == WithGroups(identity, ([page] + rest)[k]) {
      assert es[|acc| + 1 + (k - 1)] == WithGroups(identity, rest[k - 1]);
    }
  }

  /** As written, an identity gets exactly one account per page of its groups,
      the k-th carrying the k-th page's groups and nothing else; the accounts
      before are kept, and the loop fails or runs out exactly when reading the
      pages does. */
  lemma {:induction false} EntriesOnePerPage(list: (string, Option<string>) -> Result<GroupPage, Error>, identity: Identity,
                                             acc: seq<Account>, token: Option<string>, fuel: nat)
    ensures var es := EntriesFrom(list, identity, acc, token, fuel);
      var pages := GroupPages(list, identity.id, token, fuel);
      (pages.None? ==> es.None?)
      && (pages.Some? && pages.value.Err? ==> es == Some(Err(pages.value.error)))
      && (pages.Some? && pages.value.Ok? ==>
            es.Some? && es.value.Ok?
            && |pages.value.value| >= 1
            && |es.value.value| == |acc| + |pages.value.value|
            && es.value.value[..|acc|] == acc
            && forall k :: 0 <= k < |pages.value.value| ==> es.value.value[|acc| + k] == WithGroups(identity, pages.value.value[k]))
    decreases fuel
  {
    if fuel > 0 {
      var r := list(identity.id, token);
      if r.Ok? {
        var page := GroupsOf(r.value.groups);
        var entry := WithGroups(identity, page);
        if r.value.nextPageToken.Some? {
          EntriesOnePerPage(list, identity, acc + [entry], r.value.nextPageToken, fuel - 1);
          var rest := GroupPages(list, identity.id, r.value.nextPageToken, fuel - 1);
          if rest.Some? && rest.value.Ok? {
            ShiftPages(EntriesFrom(list, identity, acc, token, fuel).value.value, acc, identity, page, rest.value.value);
          }
        } else {
          assert (acc + [entry])[..|acc|] == acc;
        }
      }
    }
  }

  /** The groups the accounts carry, one after the other. */
  function EntryGroups(es: seq<Account>): seq<Group> {
    if es == [] then [] else (if es[0].groups.Some? then es[0].groups.value else []) + EntryGroups(es[1..])
  }

  lemma EntryGroupsAppend(a: seq<Account>, e: Account)
    ensures EntryGroups(a + [e]) == EntryGroups(a) + (if e.groups.Some? then e.groups.value else [])
    decreases |a|
  {
    if a == [] {
      assert a + [e] == [e] && [e][1..] == [];
    } else {
      assert (a + [e])[0] == a[0] && (a + [e])[1..] == a[1..] + [e];
      EntryGroupsAppend(a[1..], e);
    }
  }

  /** As written, the accounts an identity gets all describe the identity,
      there is at least one, and together they carry exactly the identity's
      groups, which the corrected loop gives to a single account. Both loops
      fail and run out alike. (`EntriesOnePerPage` shows the split.) */
  lemma {:induction false} EntriesSplitGroups(list: (string, Option<string>) -> Result<GroupPage, Error>, identity: Identity,
                                              acc: seq<Account>, groups: seq<Group>, token: Option<string>, fuel: nat)
    requires EntryGroups(acc) == groups
    ensures EntriesFrom(list, identity, acc, token, fuel).None? <==> GroupsFrom(list, identity.id, groups, token, fuel).None?
    ensures forall e :: EntriesFrom(list, identity, acc, token, fuel) == Some(Err(e)) <==> GroupsFrom(list, identity.id, groups, token, fuel) == Some(Err(e))
    ensures var es := EntriesFrom(list, identity, acc, token, fuel);
      es.Some? && es.value.Ok? ==>
        |es.value.value| > |acc| && es.value.value[..|acc|] == acc
        && (forall k :: |acc| <= k < |es.value.value| ==> es.value.value[k].(groups := None) == AccountOf(identity))
        && GroupsFrom(list, identity.id, groups, token, fuel) == Some(Ok(EntryGroups(es.value.value)))
    decreases fuel
  {
    if fuel > 0 {
      var r := list(identity.id, token);
      if r.Ok? {
        var entry := WithGroups(identity, GroupsOf(r.value.groups));
        EntryGroupsAppend(acc, entry);
        if r.value.nextPageToken.Some? {
          EntriesSplitGroups(list, identity, acc + [entry], groups + GroupsOf(r.value.groups), r.value.nextPageToken, fuel - 1);
          var es := EntriesFrom(list, identity, acc, token, fuel);
          if es.Some? && es.value.Ok? {
            assert es.value.value[..|acc| + 1][..|acc|] == acc;
            assert es.value.value[..|acc|] == acc;
          }
        } else {
          assert (acc + [entry])[..|acc|] == acc;
        }
      }
    }
  }

  /** The outer loop as written: the accounts of each identity in turn. */
  function AccountsFrom(list: (string, Option<string>) -> Result<GroupPage, Error>, identities: seq<Identity>,
                        acc: seq<Account>, fuel: nat): Option<Result<seq<Account>, Error>>
    decreases |identities|
  {
    if identities == [] then Some(Ok(acc))
    else
      var es := EntriesFrom(list, identities[0], acc, None, fuel);
      if es.Some? && es.value.Ok? then AccountsFrom(list, identities[1..], es.value.value, fuel) else es
  }

  // ---------------------------------------------------------------------
  // The accounts, corrected: one per identity with all its groups

  /** The outer loop, corrected: after `acc`, one account per identity
      carrying all of its groups. */
  function MergedFrom(list: (string, Option<string>) -> Result<GroupPage, Error>, identities: seq<Identity>,
                      acc: seq<Account>, fuel: nat): Option<Result<seq<Account>, Error>>
    decreases |identities|
  {
    if identities == [] then Some(Ok(acc))
    else
      var gs := GroupsFrom(list, identities[0].id, [], None, fuel);
      if gs.Some? && gs.value.Ok? then MergedFrom(list, identities[1..], acc + [WithGroups(identities[0], gs.value.value)], fuel)
      else if gs.Some? then Some(Err(gs.value.error)) else None
  }

  /** The corrected loop answers one account per identity, in order, each
      with all of the identity's groups. */
  lemma {:induction false} MergedOnePerIdentity(list: (string, Option<string>) -> Result<GroupPage, Error>,
                                                identities: seq<Identity>, acc: seq<Account>, fuel: nat)
    ensures var m := MergedFrom(list, identities, acc, fuel);
      m.Some? && m.value.Ok? ==>
        |m.value.value| == |acc| + |identities| && m.value.value[..|acc|] == acc
        && forall k :: 0 <= k < |identities| ==>
             GroupsFrom(list, identities[k].id, [], None, fuel).Some?
             && GroupsFrom(list, identities[k].id, [], None, fuel).value.Ok?
             && m.value.value[|acc| + k] == WithGroups(identities[k], GroupsFrom(list, identities[k].id, [], None, fuel).value.value)
    decreases |identities|
  {
    if identities != [] {
      var gs := GroupsFrom(list, identities[0].id, [], None, fuel);
      if gs.Some? && gs.value.Ok? {
        var acc' := acc + [WithGroups(identities[0], gs.value.value)];
        MergedOnePerIdentity(list, identities[1..], acc', fuel);
        var m := MergedFrom(list, identities, acc, fuel);
        if m.Some? && m.value.Ok? {
          var r := m.value.value;
          assert r[..|acc'|][..|acc|] == acc;
          forall k | 0 <= k < |identities|
            ensures GroupsFrom(list, identities[k].id, [], None, fuel).Some?
            ensures GroupsFrom(list, identities[k].id, [], None, fuel).value.Ok?
            ensures r[|acc| + k] == WithGroups(identities[k], GroupsFrom(list, identities[k].id, [], None, fuel).value.value)
          {
            if k > 0 {
              assert identities[k] == identities[1..][k - 1];
            } else {
              assert r[..|acc'|][|acc|] == r[|acc|];
            }
          }
        }
      }
    }
  }

  /** An identity with two pages of groups, one group each: as written it
      yields two accounts with one group each, where one account with both
      groups is meant. */
  lemma AsWrittenSplitsGroups(identity: Identity, g1: ByidGroup, g2: ByidGroup, token: string)
    ensures var list: (string, Option<string>) -> Result<GroupPage, Error> := (id: string, t: Option<string>) =>
      if t.None? then Ok(GroupPage([g1], Some(token))) else Ok(GroupPage([g2], None));
      AccountsFrom(list, [identity], [], 2)
        == Some(Ok([WithGroups(identity, [GroupOf(g1)]), WithGroups(identity, [GroupOf(g2)])]))
      && MergedFrom(list, [identity], [], 2) == Some(Ok([WithGroups(identity, [GroupOf(g1), GroupOf(g2)])]))
  {
    var list: (string, Option<string>) -> Result<GroupPage, Error> := (id: string, t: Option<string>) =>
      if t.None? then Ok(GroupPage([g1], Some(token))) else Ok(GroupPage([g2], None));
    assert GroupsOf([g1]) == [GroupOf(g1)] && GroupsOf([g2]) == [GroupOf(g2)];
    assert [] + [WithGroups(identity, [GroupOf(g1)])] + [WithGroups(identity, [GroupOf(g2)])]
        == [WithGroups(identity, [GroupOf(g1)]), WithGroups(identity, [GroupOf(g2)])];
    assert [] + [GroupOf(g1)] + [GroupOf(g2)] == [GroupOf(g1), GroupOf(g2)];
    assert [identity][1..] == [];
    var merged := WithGroups(identity, [GroupOf(g1), GroupOf(g2)]);
    assert GroupsFrom(list, identity.id, [], None, 2) == Some(Ok([GroupOf(g1), GroupOf(g2)]));
    assert [] + [merged] == [merged];
  }

  // ---------------------------------------------------------------------
  // GetAccount

  /** The answer once the identities are known. */
  function AnswerFor(accounts: Option<Result<seq<Account>, Error>>): Option<Outcome<GetAccountResponse>> {
    match accounts
    case None => None
    case Some(Err(e)) => Some(Finished(Err(e)))
    case Some(Ok(found)) => Some(Finished(Ok(GetAccountResponse(found))))
  }

  /** The identities a reference names: the one with its immutable ID when it
      has one, else every identity whose user name is its ID. `None` inside is
      the panic of dereferencing a reference with neither. */
  function IdentitiesOf(c: Client, version: string, ref: AccountRef, quote: string -> string, fuel: nat)
    : Option<Option<Result<seq<Identity>, Error>>>
  {
    if ref.immutableID.Some? then
      var identity := c.getIdentity(ref.immutableID.value);
      Some(Some(if identity.Err? then Err(identity.error) else Ok([identity.value])))
    else if ref.id.None? then None
    else Some(IdentitiesFrom(c.listIdentities, IdentityFilter(version, ref.id.value, quote), [], None, fuel))
  }

  /** `GetAccount`, corrected: the request is logged without dereferencing,
      and every identity found is answered once, with all its groups. A
      reference with neither ID still panics, as the search by user name
      dereferences the ID. */
  function GetAccountResult(c: Client, version: string, req: GetAccountRequest, quote: string -> string, fuel: nat)
    : (r: Option<Outcome<GetAccountResponse>>)
    ensures req.ref.immutableID.None? && req.ref.id.None? <==> r == Some(Panicked)
    ensures req.ref.immutableID.Some? ==>
      var identity := c.getIdentity(req.ref.immutableID.value);
      r == if identity.Err? then Some(Finished(Err(identity.error)))
           else AnswerFor(MergedFrom(c.listIdentityGroups, [identity.value], [], fuel))
    ensures req.ref.immutableID.None? && req.ref.id.Some? ==>
      var ids := IdentitiesFrom(c.listIdentities, IdentityFilter(version, req.ref.id.value, quote), [], None, fuel);
      r == if ids.Some? && ids.value.Ok? then AnswerFor(MergedFrom(c.listIdentityGroups, ids.value.value, [], fuel))
           else AnswerFor(if ids.Some? then Some(Err(ids.value.error)) else None)
  {
    match IdentitiesOf(c, version, req.ref, quote, fuel)
    case None => Some(Panicked)
    case Some(None) => None
    case Some(Some(Err(e))) => Some(Finished(Err(e)))
    case Some(Some(Ok(identities))) => AnswerFor(MergedFrom(c.listIdentityGroups, identities, [], fuel))
  }

  /** `GetAccount` as written: a reference without both IDs panics in the
      logging, so the search by user name is never reached; each identity
      yields one account per page of its groups. */
  function GetAccountAsWritten(c: Client, version: string, req: GetAccountRequest, quote: string -> string, fuel: nat)
    : Option<Outcome<GetAccountResponse>>
  {
    if req.ref.immutableID.None? || req.ref.id.None? then Some(Panicked)
    else
      match IdentitiesOf(c, version, req.ref, quote, fuel)
      case None => Some(Panicked)
      case Some(None) => None
      case Some(Some(Err(e))) => Some(Finished(Err(e)))
      case Some(Some(Ok(identities))) => AnswerFor(AccountsFrom(c.listIdentityGroups, identities, [], fuel))
  }

  /** As written, a reference that has only an ID panics, and no listing of
      identities is ever made; the corrected code searches by user name. */
  lemma AsWrittenNeverSearches(c: Client, version: string, req: GetAccountRequest, quote: string -> string, fuel: nat)
    requires req.ref.immutableID.None? && req.ref.id.Some?
    ensures GetAccountAsWritten(c, version, req, quote, fuel) == Some(Panicked)
    ensures GetAccountResult(c, version, req, quote, fuel) != Some(Panicked)
  {
  }

  /** `GetAccount`, corrected: the identity or the pages of identities, then
      for each identity the pages of its groups. Nothing is changed. */
  method GetAccount(c: Client, version: string, req: GetAccountRequest, quote: string -> string, fuel: nat)
    returns (r: Option<Outcome<GetAccountResponse>>)
    ensures r == GetAccountResult(c, version, req, quote, fuel)
  {
    var identities: seq<Identity>;
    if req.ref.immutableID.Some? {
      var identity := c.getIdentity(req.ref.immutableID.value);
      if identity.Err? {
        return Some(Finished(Err(identity.error)));
      }
      identities := [identity.value];
    } else {
      if req.ref.id.None? {
        return Some(Panicked);
      }
      var filter := IdentityFilter(version, req.ref.id.value, quote);
      identities := [];
      var token: Option<string> := None;
      var left := fuel;
      while true
        invariant IdentitiesFrom(c.listIdentities, filter, identities, token, left)
               == IdentitiesFrom(c.listIdentities, filter, [], None, fuel)
        decreases left
      {
        if left == 0 {
          return None;
        }
        var resp := c.listIdentities(filter, token);
        if resp.Err? {
          return Some(Finished(Err(resp.error)));
        }
        identities := identities + resp.value.identities;
        if resp.value.nextPageToken.None? {
          break;
        }
        token := resp.value.nextPageToken;
        left := left - 1;
      }
    }
    assert IdentitiesOf(c, version, req.ref, quote, fuel) == Some(Some(Ok(identities)));
    var accounts: seq<Account> := [];
    var i := 0;
    assert identities[i..] == identities;
    while i < |identities|
      invariant 0 <= i <= |identities|
      invariant MergedFrom(c.listIdentityGroups, identities[i..], accounts, fuel)
             == MergedFrom(c.listIdentityGroups, identities, [], fuel)
    {
      var identity := identities[i];
      assert identities[i..][0] == identity && identities[i..][1..] == identities[i + 1..];
      var groups: seq<Group> := [];
      var token: Option<string> := None;
      var left := fuel;
      while true
        invariant GroupsFrom(c.listIdentityGroups, identity.id, groups, token, left)
               == GroupsFrom(c.listIdentityGroups, identity.id, [], None, fuel)
        decreases left
      {
        if left == 0 {
          return None;
        }
        var resp := c.listIdentityGroups(identity.id, token);
        if resp.Err? {
          return Some(Finished(Err(resp.error)));
        }
        groups := groups + GroupsOf(resp.value.groups);
        if resp.value.nextPageToken.None? {
          break;
        }
        token := resp.value.nextPageToken;
        left := left - 1;
      }
      accounts := accounts + [WithGroups(identity, groups)];
      i := i + 1;
    }
    assert identities[i..] == [];
    r := Some(Finished(Ok(GetAccountResponse(accounts))));
  }
}
