/** `directory/dirokta/get_account.go`: the Okta users an account reference
    names, each with its groups. The paging loop as written keeps only the
    last page of users (see `UsersFromAsWritten`); the model reads every
    page, as the loop evidently meant to. */
module OktaGetAccount {
  import opened Wrappers
  import opened Text
  import opened Api
  import opened Directory
  import opened OktaClient
  import opened OktaListAccounts

  const Or: string := " or "
  const GroupKind: string := "group"
  const GroupsFailed: string := "okta: failed to list groups for user: "

  // ---------------------------------------------------------------------
  // The search expression

  /** The clauses of the search: the immutable ID against `id` first, then
      the ID against login, e-mail and second e-mail. `quote` is Go's `%q`. */
  function SearchClauses(ref: AccountRef, quote: string -> string): (cs: seq<string>)
    ensures |cs| == (if ref.immutableID.Some? then 1 else 0) + (if ref.id.Some? then 3 else 0)
    ensures ref.immutableID.Some? ==> cs[0] == "(id eq " + quote(ref.immutableID.value) + ")"
    ensures ref.id.Some? ==> cs[|cs| - 3..] == ["(profile.login eq " + quote(ref.id.value) + ")",
                                               "(profile.email eq " + quote(ref.id.value) + ")",
                                               "(profile.secondEmail eq " + quote(ref.id.value) + ")"]
  {
    (if ref.immutableID.Some? then ["(id eq " + quote(ref.immutableID.value) + ")"] else [])
    + (if ref.id.Some? then ["(profile.login eq " + quote(ref.id.value) + ")",
                             "(profile.email eq " + quote(ref.id.value) + ")",
                             "(profile.secondEmail eq " + quote(ref.id.value) + ")"] else [])
  }

  /** The query of the first page: 250 users matching any of the clauses. */
  function SearchQuery(ref: AccountRef, quote: string -> string): (q: UsersQuery)
    ensures q.limit == PageLimit && q.filter.None? && q.after.None?
    ensures q.search == Some(Join(SearchClauses(ref, quote), Or))
  {
    UsersQuery(PageLimit, None, Some(Join(SearchClauses(ref, quote), Or)), None)
  }

  /** A reference with only an immutable ID searches for that ID alone. */
  lemma SearchByImmutableIDOnly(ref: AccountRef, quote: string -> string)
    requires ref.immutableID.Some? && ref.id.None?
    ensures SearchQuery(ref, quote).search == Some("(id eq " + quote(ref.immutableID.value) + ")")
  {
  }

  /** A reference with only an ID matches it against the three profile
      fields, in order. */
  lemma SearchByIDOnly(ref: AccountRef, quote: string -> string)
    requires ref.immutableID.None? && ref.id.Some?
    ensures var q := quote(ref.id.value);
      var login := "(profile.login eq " + q + ")";
      var email := "(profile.email eq " + q + ")";
      var second := "(profile.secondEmail eq " + q + ")";
      SearchQuery(ref, quote).search == Some(login + Or + email + Or + second)
  {
    var cs := SearchClauses(ref, quote);
    assert Join(cs[2..], Or) == cs[2] by {
      assert cs[2..] == [cs[2]];
    }
    assert Join(cs[1..], Or) == cs[1] + Or + cs[2] by {
      assert cs[1..][1..] == cs[2..];
    }
    assert Join(cs, Or) == cs[0] + Or + (cs[1] + Or + cs[2]);
    assert cs[0] + Or + (cs[1] + Or + cs[2]) == cs[0] + Or + cs[1] + Or + cs[2];
  }

  // ---------------------------------------------------------------------
  // Following the pages

  /** The pages after one that points at `next`, read by following the
      next-page links for at most `fuel` pages: `None` when the fuel ran out
      while a further page was announced (the source would keep asking). */
  function LaterPages(nextPage: string -> Result<UserPage, Failure>, next: Option<string>, fuel: nat)
    : Option<Result<seq<UserPage>, Failure>>
    decreases fuel
  {
    if next.None? then Some(Ok([]))
    else if fuel == 0 then None
    else
      var r := nextPage(next.value);
      if r.Err? then Some(Err(r.error))
      else
        match LaterPages(nextPage, r.value.nextPage, fuel - 1)
        case Some(Ok(rest)) => Some(Ok([r.value] + rest))
        case other => other
  }

  /** The users of some pages, in page order. */
  function PageUsers(pages: seq<UserPage>): seq<User> {
    if pages == [] then [] else pages[0].users + PageUsers(pages[1..])
  }

  /** The paging loop, corrected: the users `acc` read so far followed by
      those of every later page. */
  function UsersFrom(nextPage: string -> Result<UserPage, Failure>, acc: seq<User>, next: Option<string>, fuel: nat)
    : Option<Result<seq<User>, Failure>>
    decreases fuel
  {
    if next.None? then Some(Ok(acc))
    else if fuel == 0 then None
    else
      var r := nextPage(next.value);
      if r.Err? then Some(Err(r.error))
      else UsersFrom(nextPage, acc + r.value.users, r.value.nextPage, fuel - 1)
  }

  /** The paging loop as written: `resp.Next` decodes each later page into
      `users` itself, which replaces what was read before, and then appends
      the still empty local page. */
  function UsersFromAsWritten(nextPage: string -> Result<UserPage, Failure>, acc: seq<User>, next: Option<string>, fuel: nat)
    : Option<Result<seq<User>, Failure>>
    decreases fuel
  {
    if next.None? then Some(Ok(acc))
    else if fuel == 0 then None
    else
      var r := nextPage(next.value);
      if r.Err? then Some(Err(r.error))
      else UsersFromAsWritten(nextPage, r.value.users, r.value.nextPage, fuel - 1)
  }

  /** The corrected loop reads every later page: its users follow `acc` in
      page order, and it fails or runs out exactly when the pages do. */
  lemma {:induction false} UsersFromReadsEveryPage(nextPage: string -> Result<UserPage, Failure>, acc: seq<User>,
                                                   next: Option<string>, fuel: nat)
    ensures UsersFrom(nextPage, acc, next, fuel)
      == match LaterPages(nextPage, next, fuel)
         case None => None
         case Some(Err(f)) => Some(Err(f))
         case Some(Ok(pages)) => Some(Ok(acc + PageUsers(pages)))
    decreases fuel
  {
    if next.Some? && fuel > 0 {
      var r := nextPage(next.value);
      if r.Ok? {
        UsersFromReadsEveryPage(nextPage, acc + r.value.users, r.value.nextPage, fuel - 1);
        var later := LaterPages(nextPage, r.value.nextPage, fuel - 1);
        if later.Some? && later.value.Ok? {
          var pages := [r.value] + later.value.value;
          assert pages[1..] == later.value.value;
          assert acc + r.value.users + PageUsers(later.value.value) == acc + PageUsers(pages);
        }
      }
    } else if next.None? {
      assert acc + PageUsers([]) == acc;
    }
  }

  /** The loop as written keeps only the users of the last page read. */
  lemma {:induction false} AsWrittenKeepsLastPage(nextPage: string -> Result<UserPage, Failure>, acc: seq<User>,
                                                  next: Option<string>, fuel: nat)
    ensures UsersFromAsWritten(nextPage, acc, next, fuel)
      == match LaterPages(nextPage, next, fuel)
         case None => None
         case Some(Err(f)) => Some(Err(f))
         case Some(Ok(pages)) => Some(Ok(if pages == [] then acc else pages[|pages| - 1].users))
    decreases fuel
  {
    if next.Some? && fuel > 0 {
      var r := nextPage(next.value);
      if r.Ok? {
        AsWrittenKeepsLastPage(nextPage, r.value.users, r.value.nextPage, fuel - 1);
      }
    }
  }

  /** A result of two pages, one user each: as written only the second
      page's user is kept, where both are meant. */
  lemma AsWrittenDropsFirstPage(u1: User, u2: User, link: string)
    ensures var nextPage := (url: string) => Ok(UserPage([u2], None));
      UsersFromAsWritten(nextPage, [u1], Some(link), 1) == Some(Ok([u2]))
      && UsersFrom(nextPage, [u1], Some(link), 1) == Some(Ok([u1, u2]))
  {
    assert [u1] + [u2] == [u1, u2];
  }

  // ---------------------------------------------------------------------
  // The accounts

  /** A group of a user: its ID, its profile's name ("" without a profile),
      and the kind `group`. */
  function GroupOf(g: OktaGroup): (r: Group)
    ensures r.immutableID == g.id && r.kind == GroupKind
    ensures r.name == (if g.profileName.Some? then g.profileName.value else "")
  {
    Group(g.id, if g.profileName.Some? then g.profileName.value else "", GroupKind)
  }

  /** The account of a found user with its groups; no update time and no
      birth date. */
  function AccountWithGroups(u: User, groups: seq<OktaGroup>): (a: Account)
    ensures a.immutableID == u.id && a.ids == ExternalIDs(u) && a.name == DisplayName(u)
    ensures a.groups.Some? && |a.groups.value| == |groups|
    ensures forall k :: 0 <= k < |groups| ==> a.groups.value[k] == GroupOf(groups[k])
    ensures a.updatedAt.None? && a.birthDate.None?
  {
    Account(u.id, ExternalIDs(u), DisplayName(u), Some(seq(|groups|, k requires 0 <= k < |groups| => GroupOf(groups[k]))), None, None)
  }

  /** An answer for the users after the accounts `acc` seen as the answer
      for all of them. */
  function After(acc: seq<Account>, rest: Result<seq<Account>, Error>): Result<seq<Account>, Error> {
    if rest.Ok? then Ok(acc + rest.value) else rest
  }

  /** The accounts of the users, in order, or the first failure to list a
      user's groups, wrapped. */
  function AccountsOf(users: seq<User>, userGroups: string -> Result<seq<OktaGroup>, Failure>,
                      sdkText: ApiError -> string): Result<seq<Account>, Error>
  {
    if users == [] then Ok([])
    else
      var groups := userGroups(users[0].id);
      if groups.Err? then Err(Wrapped(GroupsFailed, Raw(groups.error, sdkText)))
      else After([AccountWithGroups(users[0], groups.value)], AccountsOf(users[1..], userGroups, sdkText))
  }

  /** The accounts are found exactly when every user's groups are listed:
      then there is one account per user, in order, each with that user's
      groups. */
  lemma {:induction false} AccountsOfExactly(users: seq<User>, userGroups: string -> Result<seq<OktaGroup>, Failure>,
                                             sdkText: ApiError -> string)
    ensures var r := AccountsOf(users, userGroups, sdkText);
      (r.Ok? <==> forall k :: 0 <= k < |users| ==> userGroups(users[k].id).Ok?)
      && (r.Ok? ==> |r.value| == |users|
                    && forall k :: 0 <= k < |users| ==> r.value[k] == AccountWithGroups(users[k], userGroups(users[k].id).value))
  {
    if users != [] {
      AccountsOfExactly(users[1..], userGroups, sdkText);
      assert forall k :: 1 <= k < |users| ==> users[k] == users[1..][k - 1];
    }
  }

  /** A failing listing stops at the first user whose groups cannot be
      listed. */
  lemma {:induction false} AccountsOfFirstFailure(users: seq<User>, userGroups: string -> Result<seq<OktaGroup>, Failure>,
                                                  sdkText: ApiError -> string, i: nat)
    requires i < |users| && userGroups(users[i].id).Err?
    requires forall k :: 0 <= k < i ==> userGroups(users[k].id).Ok?
    ensures AccountsOf(users, userGroups, sdkText) == Err(Wrapped(GroupsFailed, Raw(userGroups(users[i].id).error, sdkText)))
  {
    if i > 0 {
      forall k | 0 <= k < i - 1 ensures userGroups(users[1..][k].id).Ok? {
        assert users[1..][k] == users[k + 1];
      }
      AccountsOfFirstFailure(users[1..], userGroups, sdkText, i - 1);
    }
  }

  /** The loop over the users. */
  method CollectAccounts(users: seq<User>, userGroups: string -> Result<seq<OktaGroup>, Failure>,
                         sdkText: ApiError -> string) returns (r: Result<seq<Account>, Error>)
    ensures r == AccountsOf(users, userGroups, sdkText)
  {
    var accounts: seq<Account> := [];
    var i := 0;
    AfterNothing(AccountsOf(users, userGroups, sdkText));
    while i < |users|
      invariant 0 <= i <= |users|
      invariant AccountsOf(users, userGroups, sdkText) == After(accounts, AccountsOf(users[i..], userGroups, sdkText))
    {
      var user := users[i];
      AccountsOfFrom(users, userGroups, sdkText, i);
      var groups := userGroups(user.id);
      if groups.Err? {
        return Err(Wrapped(GroupsFailed, Raw(groups.error, sdkText)));
      }
      var a := AccountWithGroups(user, groups.value);
      AfterAfter(accounts, [a], AccountsOf(users[i + 1..], userGroups, sdkText));
      accounts := accounts + [a];
      i := i + 1;
    }
    assert users[i..] == [];
    assert accounts + [] == accounts;
    r := Ok(accounts);
  }

  lemma AfterNothing(r: Result<seq<Account>, Error>)
    ensures After([], r) == r
  {
    if r.Ok? {
      assert [] + r.value == r.value;
    }
  }

  lemma AfterAfter(a: seq<Account>, b: seq<Account>, r: Result<seq<Account>, Error>)
    ensures After(a, After(b, r)) == After(a + b, r)
  {
    if r.Ok? {
      Assoc(a, b, r.value);
    }
  }

  /** The users from `i` on: the first of them fails, or gives its account
      in front of those of the rest. */
  lemma AccountsOfFrom(users: seq<User>, userGroups: string -> Result<seq<OktaGroup>, Failure>,
                       sdkText: ApiError -> string, i: nat)
    requires i < |users|
    ensures var groups := userGroups(users[i].id);
      AccountsOf(users[i..], userGroups, sdkText)
      == if groups.Err? then Err(Wrapped(GroupsFailed, Raw(groups.error, sdkText)))
         else After([AccountWithGroups(users[i], groups.value)], AccountsOf(users[i + 1..], userGroups, sdkText))
  {
    assert users[i..][0] == users[i] && users[i..][1..] == users[i + 1..];
  }

  // ---------------------------------------------------------------------
  // GetAccount

  /** What `GetAccount` answers, given the users the paging loop reads:
      `None` when the fuel ran out. */
  function AnswerFor(users: Option<Result<seq<User>, Failure>>, userGroups: string -> Result<seq<OktaGroup>, Failure>,
                     sdkText: ApiError -> string): Option<Result<GetAccountResponse, Error>> {
    match users
    case None => None
    case Some(Err(f)) => Some(Err(Wrapped(ListFailed, Raw(f, sdkText))))
    case Some(Ok(us)) =>
      var accounts := AccountsOf(us, userGroups, sdkText);
      Some(if accounts.Err? then Err(accounts.error) else Ok(GetAccountResponse(accounts.value)))
  }

  /** `GetAccount`, corrected: the users of every page, each with its
      groups. */
  function GetAccountResult(clientErr: Option<Error>, c: Client, req: GetAccountRequest, quote: string -> string, fuel: nat)
    : (r: Option<Result<GetAccountResponse, Error>>)
    ensures clientErr.Some? ==> r == Some(Err(clientErr.value))
    ensures clientErr.None? && c.listUsers(SearchQuery(req.ref, quote)).Err? ==>
      r == Some(Err(Wrapped(ListFailed, Raw(c.listUsers(SearchQuery(req.ref, quote)).error, c.sdkText))))
    ensures clientErr.None? && c.listUsers(SearchQuery(req.ref, quote)).Ok? ==>
      var first := c.listUsers(SearchQuery(req.ref, quote)).value;
      r == AnswerFor(UsersFrom(c.nextPage, first.users, first.nextPage, fuel), c.userGroups, c.sdkText)
  {
    if clientErr.Some? then Some(Err(clientErr.value))
    else
      var first := c.listUsers(SearchQuery(req.ref, quote));
      if first.Err? then Some(Err(Wrapped(ListFailed, Raw(first.error, c.sdkText))))
      else AnswerFor(UsersFrom(c.nextPage, first.value.users, first.value.nextPage, fuel), c.userGroups, c.sdkText)
  }

  /** `GetAccount` as written: only the last page's users. */
  function GetAccountAsWritten(clientErr: Option<Error>, c: Client, req: GetAccountRequest, quote: string -> string, fuel: nat)
    : Option<Result<GetAccountResponse, Error>>
  {
    if clientErr.Some? then Some(Err(clientErr.value))
    else
      var first := c.listUsers(SearchQuery(req.ref, quote));
      if first.Err? then Some(Err(Wrapped(ListFailed, Raw(first.error, c.sdkText))))
      else AnswerFor(UsersFromAsWritten(c.nextPage, first.value.users, first.value.nextPage, fuel), c.userGroups, c.sdkText)
  }

  /** With a single page of users the code as written and the corrected one
      agree. */
  lemma AsWrittenAgreesOnOnePage(clientErr: Option<Error>, c: Client, req: GetAccountRequest, quote: string -> string, fuel: nat)
    requires c.listUsers(SearchQuery(req.ref, quote)).Ok? ==> c.listUsers(SearchQuery(req.ref, quote)).value.nextPage.None?
    ensures GetAccountAsWritten(clientErr, c, req, quote, fuel) == GetAccountResult(clientErr, c, req, quote, fuel)
  {
  }

  /** `GetAccount`: one search, the following of the next-page links (at most
      `fuel` of them), then one group listing per user. Nothing is changed in
      Okta. */
  method GetAccount(clientErr: Option<Error>, c: Client, req: GetAccountRequest, quote: string -> string, fuel: nat)
    returns (r: Option<Result<GetAccountResponse, Error>>)
    ensures r == GetAccountResult(clientErr, c, req, quote, fuel)
  {
    if clientErr.Some? {
      return Some(Err(clientErr.value));
    }
    var first := c.listUsers(SearchQuery(req.ref, quote));
    if first.Err? {
      return Some(Err(Wrapped(ListFailed, Raw(first.error, c.sdkText))));
    }
    var users := first.value.users;
    var next := first.value.nextPage;
    var left := fuel;
    while next.Some?
      invariant UsersFrom(c.nextPage, users, next, left) == UsersFrom(c.nextPage, first.value.users, first.value.nextPage, fuel)
      decreases left
    {
      if left == 0 {
        return None;
      }
      var page := c.nextPage(next.value);
      if page.Err? {
        return Some(Err(Wrapped(ListFailed, Raw(page.error, c.sdkText))));
      }
      users := users + page.value.users;
      next := page.value.nextPage;
      left := left - 1;
    }
    var accounts := CollectAccounts(users, c.userGroups, c.sdkText);
    if accounts.Err? {
      return Some(Err(accounts.error));
    }
    r := Some(Ok(GetAccountResponse(accounts.value)));
  }
}
