/** `directory/dirad/list_accounts.go`: the AD provider's account listing, one
    page of users turned into accounts. */
module DirAdListAccounts {
  import opened Wrappers
  import opened Api
  import opened Directory
  import opened AdClient
  import opened AdUser

  /** `externalIDs`: the e-mail address, then the SAM account name, leaving out empty ones. */
  function ExternalIDs(u: User): (ids: seq<string>)
    ensures forall k :: 0 <= k < |ids| ==> ids[k] != ""
    ensures u.emailAddress in ids <==> u.emailAddress != ""
    ensures u.samAccountName in ids <==> u.samAccountName != ""
    ensures forall k :: 0 <= k < |ids| ==> ids[k] == u.emailAddress || ids[k] == u.samAccountName
    ensures u.emailAddress != "" && u.samAccountName != "" ==> ids == [u.emailAddress, u.samAccountName]
  {
    (if u.emailAddress != "" then [u.emailAddress] else []) + (if u.samAccountName != "" then [u.samAccountName] else [])
  }

  /** `displayName`: the user's Name. */
  function DisplayName(u: User): string {
    u.name
  }

  /** The account listed for a user whose change time parsed as `t`. */
  function AccountOf(u: User, t: Time): (a: Account)
  {
    Account(u.objectGUID, ExternalIDs(u), DisplayName(u), None, Some(t), None)
  }

  function TimeErrorPrefix(u: User): string {
    "failed to parse update time for user " + u.objectGUID + ": "
  }

  const ListErrorPrefix: string := "failed to list AD users: "

  predicate TimeParses(u: User, parseTime: string -> Result<Time, Error>) {
    parseTime(u.whenChanged).Ok?
  }

  /** The page's users as accounts, in order, or the first change-time parse failure. */
  function AccountsOf(users: seq<User>, parseTime: string -> Result<Time, Error>): (r: Result<seq<Account>, Error>)
    ensures r.Ok? <==> forall j :: 0 <= j < |users| ==> TimeParses(users[j], parseTime)
    ensures r.Ok? ==> |r.value| == |users|
    ensures r.Ok? ==> forall j :: 0 <= j < |users| ==> r.value[j] == AccountOf(users[j], parseTime(users[j].whenChanged).value)
    ensures r.Err? ==> exists i :: 0 <= i < |users| && FirstBadTime(users, parseTime, i) && r.error == TimeError(users[i], parseTime)
  {
    if users == [] then Ok([])
    else
      var t := parseTime(users[0].whenChanged);
      if t.Err? then
        assert FirstBadTime(users, parseTime, 0);
        Err(TimeError(users[0], parseTime))
      else
        var rest := AccountsOf(users[1..], parseTime);
        if rest.Err? then
          var i :| 0 <= i < |users[1..]| && FirstBadTime(users[1..], parseTime, i)
            && rest.error == TimeError(users[1..][i], parseTime);
          assert FirstBadTime(users, parseTime, i + 1);
          rest
        else Ok([AccountOf(users[0], t.value)] + rest.value)
  }

  /** The error for a user whose change time does not parse. */
  function TimeError(u: User, parseTime: string -> Result<Time, Error>): Error
    requires !TimeParses(u, parseTime)
  {
    Wrapped(TimeErrorPrefix(u), parseTime(u.whenChanged).error)
  }

  /** `users[i]` is the first user whose change time does not parse. */
  predicate FirstBadTime(users: seq<User>, parseTime: string -> Result<Time, Error>, i: int)
    requires 0 <= i < |users|
  {
    !TimeParses(users[i], parseTime) && forall j :: 0 <= j < i ==> TimeParses(users[j], parseTime)
  }

  /** `ListAccounts`. `clientErr` is the failure of obtaining the PowerShell client,
      `formatTime` and `parseTime` are Go's time formatting and parsing, and
      `parseUsers` is the JSON decoding of the user list. The page is returned
      as a ghost out-parameter. */
  method ListAccounts(clientErr: Option<Error>, s: MockClient, req: ListAccountsRequest,
                      formatTime: Time -> string, parseTime: string -> Result<Time, Error>,
                      parseUsers: string -> Result<seq<User>, Error>)
    returns (r: Result<ListAccountsResponse, Error>, ghost page: Page<User>)
    modifies s
    ensures s.responseMap == old(s.responseMap)
    ensures clientErr.Some? ==> r == Err(clientErr.value) && s.executed == old(s.executed)
    ensures clientErr.None? ==>
      var args := ListADUsersArgs(req.updatedAfter, req.cursor);
      var listed := ListedUsers(s.responseMap, args, formatTime, parseUsers);
      s.executed == old(s.executed) + ListUsersCommands(s.responseMap, args, formatTime)
      && (listed.Err? ==> r == Err(Wrapped(ListErrorPrefix, listed.error)))
      && (listed.Ok? ==>
            (exists sorted :: IsUserPage(listed.value, sorted, req.cursor, page))
            && var accounts := AccountsOf(page.items, parseTime);
               if accounts.Err? then r == Err(accounts.error)
               else r == Ok(ListAccountsResponse(accounts.value, page.next)))
  {
    page := Page([], None);
    if clientErr.Some? {
      return Err(clientErr.value), page;
    }
    var users, sorted := ListADUsers(s, ListADUsersArgs(req.updatedAfter, req.cursor), formatTime, parseUsers);
    if users.Err? {
      return Err(Wrapped(ListErrorPrefix, users.error)), page;
    }
    page := users.value;
    var accounts := ToAccounts(users.value.items, parseTime);
    if accounts.Err? {
      return Err(accounts.error), page;
    }
    r := Ok(ListAccountsResponse(accounts.value, users.value.next));
  }

  /** The loop of `ListAccounts` that turns the page's users into accounts. */
  method ToAccounts(items: seq<User>, parseTime: string -> Result<Time, Error>) returns (r: Result<seq<Account>, Error>)
    ensures r == AccountsOf(items, parseTime)
  {
    var accounts: seq<Account> := [];
    var i := 0;
    while i < |items|
      invariant 0 <= i <= |items| && |accounts| == i
      invariant forall j :: 0 <= j < i ==> TimeParses(items[j], parseTime)
      invariant forall j :: 0 <= j < i ==> accounts[j] == AccountOf(items[j], parseTime(items[j].whenChanged).value)
    {
      var u := items[i];
      var t := parseTime(u.whenChanged);
      if t.Err? {
        AccountsOfFailsAt(items, parseTime, i);
        return Err(TimeError(u, parseTime));
      }
      accounts := accounts + [AccountOf(u, t.value)];
      i := i + 1;
    }
    assert AccountsOf(items, parseTime).value == accounts;
    r := Ok(accounts);
  }

  /** The listing fails with the error of its first user whose change time
      does not parse. */
  lemma AccountsOfFailsAt(users: seq<User>, parseTime: string -> Result<Time, Error>, i: int)
    requires 0 <= i < |users| && FirstBadTime(users, parseTime, i)
    ensures AccountsOf(users, parseTime) == Err(TimeError(users[i], parseTime))
  {
    var r := AccountsOf(users, parseTime);
    assert !TimeParses(users[i], parseTime);
    var k :| 0 <= k < |users| && FirstBadTime(users, parseTime, k) && r.error == TimeError(users[k], parseTime);
    FirstBadTimeUnique(users, parseTime, i, k);
  }

  /** There is only one first failure. */
  lemma FirstBadTimeUnique(users: seq<User>, parseTime: string -> Result<Time, Error>, i: int, k: int)
    requires 0 <= i < |users| && 0 <= k < |users|
    requires FirstBadTime(users, parseTime, i) && FirstBadTime(users, parseTime, k)
    ensures i == k
  {
  }
}
