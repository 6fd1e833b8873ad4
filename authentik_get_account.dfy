/** `directory/dirauthentik/get_account.go`: looking an account up by its
    immutable ID (the user's UUID, or its primary key) and by an external ID
    (e-mail address or username), merging the users found without repeating
    an immutable ID. */
module AuthentikGetAccount {
  import opened Wrappers
  import opened Api
  import opened Directory
  import opened Authentik
  import opened AuthentikHelpers

  const UuidKey: string := "uuid"
  const EmailKey: string := "email"
  const UsernameKey: string := "username"

  /** The `Kind` of every Authentik group. */
  const GroupKind: string := "group"

  /** `queryRequest`: a user listing, and whether an empty answer may be
      followed by a primary-key lookup. */
  datatype QueryRequest = QueryRequest(query: Query, allowPKLookup: bool)

  /** The listings `GetAccount` runs for a reference: by UUID when it carries
      an immutable ID, then by e-mail address and by username when it carries
      an ID. Only the UUID listing of a numeric immutable ID may fall back to a
      primary-key lookup. */
  function Queries(ref: AccountRef): (qs: seq<QueryRequest>)
    ensures |qs| == (if ref.immutableID.Some? then 1 else 0) + (if ref.id.Some? then 2 else 0)
    ensures ref.immutableID.Some? ==>
      qs[0] == QueryRequest(BaseUserQuery(true)[UuidKey := Str(ref.immutableID.value)], IsNumeric(ref.immutableID.value))
    ensures ref.id.Some? ==>
      qs[|qs| - 2] == QueryRequest(BaseUserQuery(true)[EmailKey := Str(ref.id.value)], false)
      && qs[|qs| - 1] == QueryRequest(BaseUserQuery(true)[UsernameKey := Str(ref.id.value)], false)
    ensures forall k :: 0 <= k < |qs| && qs[k].allowPKLookup ==>
      k == 0 && ref.immutableID.Some? && IsNumeric(ref.immutableID.value)
  {
    var byUUID := if ref.immutableID.Some? then
        [QueryRequest(BaseUserQuery(true)[UuidKey := Str(ref.immutableID.value)], IsNumeric(ref.immutableID.value))]
      else [];
    var byID := if ref.id.Some? then
        [QueryRequest(BaseUserQuery(true)[EmailKey := Str(ref.id.value)], false),
         QueryRequest(BaseUserQuery(true)[UsernameKey := Str(ref.id.value)], false)]
      else [];
    byUUID + byID
  }

  // ---------------------------------------------------------------------
  // accountFromUser

  /** One group of a user: its primary key, or its name when it has none. */
  function GroupOf(g: ApiGroup): Group {
    Group(if g.pk != "" then g.pk else g.name, g.name, GroupKind)
  }

  /** A group that carries neither primary key nor name is skipped. */
  predicate Nameless(g: ApiGroup) {
    g.pk == "" && g.name == ""
  }

  /** The groups of `accountFromUser`, in order. */
  function GroupsOf(gs: seq<ApiGroup>): seq<Group> {
    if gs == [] then []
    else if Nameless(gs[0]) then GroupsOf(gs[1..])
    else [GroupOf(gs[0])] + GroupsOf(gs[1..])
  }

  /** Each kept group has a non-empty immutable ID and the kind `group`. */
  lemma {:induction false} GroupsOfShape(gs: seq<ApiGroup>)
    ensures var r := GroupsOf(gs);
      |r| <= |gs| && forall k :: 0 <= k < |r| ==> r[k].immutableID != "" && r[k].kind == GroupKind
  {
    if gs != [] {
      GroupsOfShape(gs[1..]);
    }
  }

  /** Exactly the groups with a primary key or a name are kept, each with a
      non-empty immutable ID and the kind `group`. */
  lemma {:induction false} GroupsOfExactly(gs: seq<ApiGroup>)
    ensures var r := GroupsOf(gs);
      |r| <= |gs|
      && (forall k :: 0 <= k < |r| ==> r[k].immutableID != "" && r[k].kind == GroupKind)
      && (forall g :: g in gs && !Nameless(g) ==> GroupOf(g) in r)
      && (forall x :: x in r ==> exists g :: g in gs && !Nameless(g) && x == GroupOf(g))
  {
    GroupsOfShape(gs);
    if gs != [] {
      GroupsOfExactly(gs[1..]);
      var rest := GroupsOf(gs[1..]);
      var head := if Nameless(gs[0]) then [] else [GroupOf(gs[0])];
      assert GroupsOf(gs) == head + rest;
      forall g | g in gs && !Nameless(g) ensures GroupOf(g) in head + rest {
        if g != gs[0] {
          assert g in gs[1..];
        }
      }
      forall x | x in head + rest ensures exists g :: g in gs && !Nameless(g) && x == GroupOf(g) {
        if x in head {
          assert gs[0] in gs;
        } else {
          var g :| g in gs[1..] && !Nameless(g) && x == GroupOf(g);
          assert g in gs;
        }
      }
    }
  }

  /** The groups keep the order of the user's groups. */
  lemma {:induction false} GroupsOfKeepOrder(a: seq<ApiGroup>, b: seq<ApiGroup>)
    ensures GroupsOf(a + b) == GroupsOf(a) + GroupsOf(b)
  {
    if a == [] {
      assert a + b == b;
    } else {
      assert (a + b)[0] == a[0] && (a + b)[1..] == a[1..] + b;
      GroupsOfKeepOrder(a[1..], b);
      if !Nameless(a[0]) {
        Assoc([GroupOf(a[0])], GroupsOf(a[1..]), GroupsOf(b));
      }
    }
  }

  /** The loop of `accountFromUser` over the user's groups. */
  method CollectGroups(gs: seq<ApiGroup>) returns (groups: seq<Group>)
    ensures groups == GroupsOf(gs)
  {
    groups := [];
    var i := 0;
    while i < |gs|
      invariant 0 <= i <= |gs|
      invariant groups == GroupsOf(gs[..i])
    {
      var group := gs[i];
      GroupsOfKeepOrder(gs[..i], [group]);
      PrefixSnoc(gs, i);
      assert [group][1..] == [];
      if group.pk == "" && group.name == "" {
        i := i + 1;
        continue;
      }
      var immutableID := group.pk;
      if immutableID == "" {
        immutableID := group.name;
      }
      groups := groups + [Group(immutableID, group.name, GroupKind)];
      i := i + 1;
    }
    PrefixAll(gs);
  }

  /** `accountFromUser`. `parse(layout, value)` is Go's `time.Parse`. The groups
      are always present, even when the user has none. */
  function AccountFromUser(u: ApiUser, parse: (string, string) -> Option<Time>): (a: Account)
    ensures a.immutableID == UserImmutableID(u) && a.ids == UserExternalIDs(u) && a.name == UserDisplayName(u)
    ensures a.groups == Some(GroupsOf(u.groupsObj))
    ensures a.updatedAt == ParseAPITime(u.lastUpdated, parse) && a.birthDate.None?
  {
    Account(UserImmutableID(u), UserExternalIDs(u), UserDisplayName(u),
            Some(GroupsOf(u.groupsObj)), ParseAPITime(u.lastUpdated, parse), None)
  }

  /** The accounts of a list of users, in order. */
  function AccountsFrom(users: seq<ApiUser>, parse: (string, string) -> Option<Time>): (cands: seq<Account>)
    ensures |cands| == |users|
    ensures forall k :: 0 <= k < |users| ==> cands[k] == AccountFromUser(users[k], parse)
  {
    if users == [] then [] else [AccountFromUser(users[0], parse)] + AccountsFrom(users[1..], parse)
  }

  // ---------------------------------------------------------------------
  // Merging the accounts found

  /** The immutable IDs of a list of accounts (the `seen` map). */
  function IDsOf(accounts: seq<Account>): set<string> {
    set a | a in accounts :: a.immutableID
  }

  lemma IDsOfAppend(accounts: seq<Account>, a: Account)
    ensures IDsOf(accounts + [a]) == IDsOf(accounts) + {a.immutableID}
  {
    assert forall x :: x in accounts + [a] <==> x in accounts || x == a;
  }

  predicate DistinctIDs(accounts: seq<Account>) {
    forall i, j :: 0 <= i < j < |accounts| ==> accounts[i].immutableID != accounts[j].immutableID
  }

  predicate NoEmptyIDs(accounts: seq<Account>) {
    forall i :: 0 <= i < |accounts| ==> accounts[i].immutableID != ""
  }

  /** One account found: kept unless its immutable ID is empty or already seen. */
  function AddAccount(accounts: seq<Account>, a: Account): seq<Account> {
    if a.immutableID == "" || a.immutableID in IDsOf(accounts) then accounts else accounts + [a]
  }

  /** The accounts found, one after the other. */
  function AddAll(accounts: seq<Account>, cands: seq<Account>): seq<Account>
    decreases |cands|
  {
    if cands == [] then accounts else AddAll(AddAccount(accounts, cands[0]), cands[1..])
  }

  /** `a` is in `cands`, and no earlier candidate has its immutable ID. */
  predicate FirstWith(cands: seq<Account>, a: Account) {
    exists j :: 0 <= j < |cands| && cands[j] == a && forall i :: 0 <= i < j ==> cands[i].immutableID != a.immutableID
  }

  /** The non-empty immutable IDs of a list of accounts. */
  function NonEmptyIDs(cands: seq<Account>): set<string> {
    set c | c in cands && c.immutableID != "" :: c.immutableID
  }

  /** One merge step keeps the list free of repeated and empty immutable IDs,
      and adds the account's immutable ID when it is not empty. */
  lemma AddAccountKeeps(accounts: seq<Account>, c: Account)
    requires DistinctIDs(accounts) && NoEmptyIDs(accounts)
    ensures var acc1 := AddAccount(accounts, c);
      DistinctIDs(acc1) && NoEmptyIDs(acc1)
      && (acc1 == accounts || acc1 == accounts + [c])
      && IDsOf(acc1) == IDsOf(accounts) + (if c.immutableID == "" then {} else {c.immutableID})
  {
    var acc1 := AddAccount(accounts, c);
    if acc1 != accounts {
      forall i | 0 <= i < |accounts| ensures accounts[i].immutableID != c.immutableID {
        assert accounts[i] in accounts;
      }
      IDsOfAppend(accounts, c);
    }
  }

  /** Merging keeps what was there in front, never repeats an immutable ID and
      never keeps an empty one, and keeps every non-empty immutable ID found. */
  lemma {:induction false} AddAllKeeps(accounts: seq<Account>, cands: seq<Account>)
    requires DistinctIDs(accounts) && NoEmptyIDs(accounts)
    ensures var out := AddAll(accounts, cands);
      DistinctIDs(out) && NoEmptyIDs(out) && |accounts| <= |out| && out[..|accounts|] == accounts
      && IDsOf(out) == IDsOf(accounts) + NonEmptyIDs(cands)
    decreases |cands|
  {
    if cands != [] {
      var c := cands[0];
      var acc1 := AddAccount(accounts, c);
      AddAccountKeeps(accounts, c);
      AddAllKeeps(acc1, cands[1..]);
      var out := AddAll(acc1, cands[1..]);
      assert acc1[..|accounts|] == accounts;
      PrefixTrans(accounts, acc1, out);
      NonEmptyIDsCons(cands);
    }
  }

  lemma NonEmptyIDsCons(cands: seq<Account>)
    requires cands != []
    ensures NonEmptyIDs(cands)
         == NonEmptyIDs(cands[1..]) + (if cands[0].immutableID == "" then {} else {cands[0].immutableID})
  {
    assert forall x :: x in cands <==> x == cands[0] || x in cands[1..];
  }

  /** What merging keeps for an immutable ID is the first account found with it. */
  lemma {:induction false} AddAllKeepsFirst(accounts: seq<Account>, cands: seq<Account>)
    requires DistinctIDs(accounts) && NoEmptyIDs(accounts)
    ensures var out := AddAll(accounts, cands);
      forall k :: |accounts| <= k < |out| ==> FirstWith(cands, out[k])
    decreases |cands|
  {
    if cands != [] {
      var c := cands[0];
      var acc1 := AddAccount(accounts, c);
      AddAccountKeeps(accounts, c);
      AddAllKeeps(acc1, cands[1..]);
      AddAllKeepsFirst(acc1, cands[1..]);
      var out := AddAll(acc1, cands[1..]);
      forall k | |accounts| <= k < |out| ensures FirstWith(cands, out[k]) {
        assert out[..|acc1|] == acc1;
        if k < |acc1| {
          assert out[k] == acc1[k] == c == cands[0];
        } else {
          var j :| 0 <= j < |cands[1..]| && cands[1..][j] == out[k]
            && forall i :: 0 <= i < j ==> cands[1..][i].immutableID != out[k].immutableID;
          assert cands[j + 1] == out[k];
          assert c.immutableID != out[k].immutableID by {
            if c.immutableID != "" {
              assert c.immutableID in IDsOf(acc1);
              var m :| m in acc1 && m.immutableID == c.immutableID;
              var p :| 0 <= p < |acc1| && acc1[p] == m;
              assert out[p] == m;
            }
          }
          forall i | 0 <= i < j + 1 ensures cands[i].immutableID != out[k].immutableID {
            if i > 0 {
              assert cands[i] == cands[1..][i - 1];
            }
          }
        }
      }
    }
  }

  // ---------------------------------------------------------------------
  // GetAccount

  /** What a run of listings produced (`None` when a page-following loop was
      still going when the fuel ran out) and the requests it sent. */
  datatype Run = Run(result: Option<Result<seq<Account>, Error>>, sent: seq<HttpRequest>)

  /** A run seen after the requests `sent` went out. */
  function Then(sent: seq<HttpRequest>, r: Run): Run {
    Run(r.result, sent + r.sent)
  }

  function LookupPath(pk: string): string {
    UsersPath + pk + "/"
  }

  /** What `GetAccount` does with the listings `qs` once it holds the accounts
      `accounts`: each listing's users are merged in order; a listing that
      found nobody and may fall back looks the immutable ID up as a primary
      key; any failure ends the call with that failure. */
  function RunQueries(configErr: Option<CodedError>,
                      users: Query -> Result<UserListResponse, Error>,
                      userByPK: string -> Result<ApiUser, Error>,
                      parse: (string, string) -> Option<Time>,
                      ref: AccountRef, qs: seq<QueryRequest>, accounts: seq<Account>, fuel: nat): Run
    decreases |qs|
  {
    if qs == [] then Run(Some(Ok(accounts)), [])
    else
      var f := FetchUsersFrom(PageAnswers(users, qs[0].query), 1, fuel);
      var sent := PageRequests(configErr, qs[0].query, f.pages);
      if f.result.None? then Run(None, sent)
      else if f.result.value.Err? then Run(Some(Err(f.result.value.error)), sent)
      else
        var found := f.result.value.value;
        var acc1 := AddAll(accounts, AccountsFrom(found, parse));
        if qs[0].allowPKLookup && |found| == 0 && ref.immutableID.Some? then
          var pk := ref.immutableID.value;
          var pkSent := sent + Sent(configErr, Get(LookupPath(pk), map[]));
          if userByPK(pk).Err? then Run(Some(Err(userByPK(pk).error)), pkSent)
          else Then(pkSent, RunQueries(configErr, users, userByPK, parse, ref, qs[1..],
                                       AddAccount(acc1, AccountFromUser(userByPK(pk).value, parse)), fuel))
        else Then(sent, RunQueries(configErr, users, userByPK, parse, ref, qs[1..], acc1, fuel))
  }

  /** The response for the result of a run. */
  function Response(r: Option<Result<seq<Account>, Error>>): Option<Result<GetAccountResponse, Error>> {
    match r
    case None => None
    case Some(Err(e)) => Some(Err(e))
    case Some(Ok(accounts)) => Some(Ok(GetAccountResponse(accounts)))
  }

  /** `GetAccount`. `parse` is Go's `time.Parse`; `fuel` bounds the pages each
      listing follows, and `None` means a listing was still being followed
      when it ran out. */
  method GetAccount(s: Server, req: GetAccountRequest, parse: (string, string) -> Option<Time>, fuel: nat)
    returns (r: Option<Result<GetAccountResponse, Error>>)
    modifies s
    ensures var run := RunQueries(s.configErr, s.users, s.userByPK, parse, req.ref, Queries(req.ref), [], fuel);
      r == Response(run.result) && s.log == old(s.log) + run.sent
  {
    var qs := Queries(req.ref);
    if |qs| == 0 {
      return Some(Ok(GetAccountResponse([])));
    }
    ghost var whole := RunQueries(s.configErr, s.users, s.userByPK, parse, req.ref, qs, [], fuel);
    ghost var done: seq<HttpRequest> := [];
    var accounts: seq<Account> := [];
    var seen: set<string> := {};
    var i := 0;
    while i < |qs|
      invariant 0 <= i <= |qs|
      invariant seen == IDsOf(accounts)
      invariant whole == Then(done, RunQueries(s.configErr, s.users, s.userByPK, parse, req.ref, qs[i..], accounts, fuel))
      invariant s.log == old(s.log) + done
    {
      var request := qs[i];
      assert qs[i..][0] == request && qs[i..][1..] == qs[i + 1..];
      ghost var rest := RunQueries(s.configErr, s.users, s.userByPK, parse, req.ref, qs[i..], accounts, fuel);
      var fetched := FetchUsers(s, request.query, fuel);
      ghost var f := FetchUsersFrom(PageAnswers(s.users, request.query), 1, fuel);
      ghost var sent := PageRequests(s.configErr, request.query, f.pages);
      Assoc(old(s.log), done, sent);
      if fetched.None? || fetched.value.Err? {
        assert rest.sent == sent;
        r := if fetched.None? then None else Some(Err(fetched.value.error));
        return;
      }
      var found := fetched.value.value;
      ghost var before := accounts;
      accounts, seen := MergeUsers(accounts, seen, found, parse);
      if request.allowPKLookup && |found| == 0 && req.ref.immutableID.Some? {
        var user := s.GetUserByPK(req.ref.immutableID.value);
        ghost var pkSent := sent + Sent(s.configErr, Get(LookupPath(req.ref.immutableID.value), map[]));
        Assoc(old(s.log) + done, sent, Sent(s.configErr, Get(LookupPath(req.ref.immutableID.value), map[])));
        Assoc(old(s.log), done, pkSent);
        if user.Err? {
          assert rest == Run(Some(Err(user.error)), pkSent);
          return Some(Err(user.error));
        }
        var account := AccountFromUser(user.value, parse);
        if account.immutableID != "" {
          if account.immutableID !in seen {
            IDsOfAppend(accounts, account);
            seen := seen + {account.immutableID};
            accounts := accounts + [account];
          }
        }
        assert rest == Then(pkSent, RunQueries(s.configErr, s.users, s.userByPK, parse, req.ref, qs[i + 1..], accounts, fuel));
        ThenThen(done, pkSent, RunQueries(s.configErr, s.users, s.userByPK, parse, req.ref, qs[i + 1..], accounts, fuel));
        done := done + pkSent;
      } else {
        assert rest == Then(sent, RunQueries(s.configErr, s.users, s.userByPK, parse, req.ref, qs[i + 1..], accounts, fuel));
        ThenThen(done, sent, RunQueries(s.configErr, s.users, s.userByPK, parse, req.ref, qs[i + 1..], accounts, fuel));
        done := done + sent;
      }
      i := i + 1;
    }
    assert done + [] == done;
    r := Some(Ok(GetAccountResponse(accounts)));
  }

  lemma ThenThen(a: seq<HttpRequest>, b: seq<HttpRequest>, r: Run)
    ensures Then(a, Then(b, r)) == Then(a + b, r)
  {
  }

  /** The inner loop of `GetAccount`: the users of one listing merged into the
      accounts, with `seen` holding their immutable IDs. */
  method MergeUsers(accounts: seq<Account>, seen: set<string>, users: seq<ApiUser>,
                    parse: (string, string) -> Option<Time>)
    returns (merged: seq<Account>, seen': set<string>)
    requires seen == IDsOf(accounts)
    ensures merged == AddAll(accounts, AccountsFrom(users, parse))
    ensures seen' == IDsOf(merged)
  {
    var cands := AccountsFrom(users, parse);
    merged, seen' := accounts, seen;
    var j := 0;
    while j < |users|
      invariant 0 <= j <= |users|
      invariant seen' == IDsOf(merged)
      invariant AddAll(accounts, cands) == AddAll(merged, cands[j..])
    {
      var account := cands[j];
      assert cands[j..][0] == account && cands[j..][1..] == cands[j + 1..];
      if account.immutableID != "" && account.immutableID !in seen' {
        IDsOfAppend(merged, account);
        seen' := seen' + {account.immutableID};
        merged := merged + [account];
      }
      j := j + 1;
    }
  }

  // ---------------------------------------------------------------------
  // Properties of a whole lookup

  /** A reference with neither an immutable ID nor an ID finds nothing and
      sends nothing. */
  lemma EmptyRefSendsNothing(configErr: Option<CodedError>,
                             users: Query -> Result<UserListResponse, Error>,
                             userByPK: string -> Result<ApiUser, Error>,
                             parse: (string, string) -> Option<Time>, ref: AccountRef, fuel: nat)
    requires ref.immutableID.None? && ref.id.None?
    ensures RunQueries(configErr, users, userByPK, parse, ref, Queries(ref), [], fuel) == Run(Some(Ok([])), [])
  {
  }

  /** `a` is a prefix of `b`. */
  predicate PrefixOf(a: seq<Account>, b: seq<Account>) {
    |a| <= |b| && b[..|a|] == a
  }

  lemma PrefixTrans(a: seq<Account>, b: seq<Account>, c: seq<Account>)
    requires PrefixOf(a, b) && PrefixOf(b, c)
    ensures PrefixOf(a, c)
  {
    assert c[..|a|] == c[..|b|][..|a|];
  }

  /** The accounts a lookup returns never share an immutable ID and never have
      an empty one, and they start with the accounts it held before. */
  lemma {:induction false} RunQueriesDistinct(configErr: Option<CodedError>,
                                              users: Query -> Result<UserListResponse, Error>,
                                              userByPK: string -> Result<ApiUser, Error>,
                                              parse: (string, string) -> Option<Time>,
                                              ref: AccountRef, qs: seq<QueryRequest>, accounts: seq<Account>, fuel: nat)
    requires DistinctIDs(accounts) && NoEmptyIDs(accounts)
    ensures var r := RunQueries(configErr, users, userByPK, parse, ref, qs, accounts, fuel).result;
      r.Some? && r.value.Ok? ==>
        DistinctIDs(r.value.value) && NoEmptyIDs(r.value.value) && PrefixOf(accounts, r.value.value)
    decreases |qs|
  {
    var r := RunQueries(configErr, users, userByPK, parse, ref, qs, accounts, fuel).result;
    if qs == [] {
      assert accounts[..|accounts|] == accounts;
    } else if r.Some? && r.value.Ok? {
      var f := FetchUsersFrom(PageAnswers(users, qs[0].query), 1, fuel);
      var found := f.result.value.value;
      var acc1 := AddAll(accounts, AccountsFrom(found, parse));
      AddAllKeeps(accounts, AccountsFrom(found, parse));
      if qs[0].allowPKLookup && |found| == 0 && ref.immutableID.Some? {
        var u := userByPK(ref.immutableID.value).value;
        var acc2 := AddAccount(acc1, AccountFromUser(u, parse));
        AddAccountKeeps(acc1, AccountFromUser(u, parse));
        assert acc2[..|acc1|] == acc1;
        PrefixTrans(accounts, acc1, acc2);
        RunQueriesDistinct(configErr, users, userByPK, parse, ref, qs[1..], acc2, fuel);
        assert r == RunQueries(configErr, users, userByPK, parse, ref, qs[1..], acc2, fuel).result;
        PrefixTrans(accounts, acc2, r.value.value);
      } else {
        RunQueriesDistinct(configErr, users, userByPK, parse, ref, qs[1..], acc1, fuel);
        assert r == RunQueries(configErr, users, userByPK, parse, ref, qs[1..], acc1, fuel).result;
        PrefixTrans(accounts, acc1, r.value.value);
      }
    }
  }

  /** Every request a listing sends is a `GET core/users/`. */
  lemma {:induction false} PageRequestsList(configErr: Option<CodedError>, q: Query, pages: seq<int>)
    ensures forall x :: x in PageRequests(configErr, q, pages) ==> x.Get? && x.path == UsersPath
  {
    if pages != [] {
      PageRequestsList(configErr, q, pages[..|pages| - 1]);
    }
  }

  /** Without a listing that may fall back, no primary-key lookup is sent:
      every request is a `GET core/users/`. In particular a reference whose
      immutable ID is absent or not numeric never looks a primary key up. */
  lemma {:induction false} OnlyListings(configErr: Option<CodedError>,
                                        users: Query -> Result<UserListResponse, Error>,
                                        userByPK: string -> Result<ApiUser, Error>,
                                        parse: (string, string) -> Option<Time>,
                                        ref: AccountRef, qs: seq<QueryRequest>, accounts: seq<Account>, fuel: nat)
    requires forall k :: 0 <= k < |qs| ==> !qs[k].allowPKLookup
    ensures forall x :: x in RunQueries(configErr, users, userByPK, parse, ref, qs, accounts, fuel).sent ==>
      x.Get? && x.path == UsersPath
    decreases |qs|
  {
    if qs != [] {
      var f := FetchUsersFrom(PageAnswers(users, qs[0].query), 1, fuel);
      PageRequestsList(configErr, qs[0].query, f.pages);
      if f.result.Some? && f.result.value.Ok? {
        var acc1 := AddAll(accounts, AccountsFrom(f.result.value.value, parse));
        OnlyListings(configErr, users, userByPK, parse, ref, qs[1..], acc1, fuel);
      }
    }
  }

  /** A reference whose immutable ID is absent or not numeric is never looked up by primary key. */
  lemma NoLookupWithoutNumericID(configErr: Option<CodedError>,
                                 users: Query -> Result<UserListResponse, Error>,
                                 userByPK: string -> Result<ApiUser, Error>,
                                 parse: (string, string) -> Option<Time>, ref: AccountRef, fuel: nat)
    requires ref.immutableID.None? || !IsNumeric(ref.immutableID.value)
    ensures forall x :: x in RunQueries(configErr, users, userByPK, parse, ref, Queries(ref), [], fuel).sent ==>
      x.Get? && x.path == UsersPath
  {
    OnlyListings(configErr, users, userByPK, parse, ref, Queries(ref), [], fuel);
  }
}
