/** `directory/dirauthentik/list_accounts.go`: one page of Authentik users as
    accounts, the page being chosen by a decimal cursor. */
module AuthentikListAccounts {
  import opened Wrappers
  import opened Text
  import opened Api
  import opened Directory
  import opened Authentik
  import opened AuthentikHelpers

  const InvalidCursor: string := "invalid cursor: "
  const PageKey: string := "page"
  const OrderingKey: string := "ordering"
  const LastUpdated: string := "last_updated"
  const UpdatedAfterKey: string := "last_updated__gt"

  // ---------------------------------------------------------------------
  // Cursors

  /** The page a cursor selects: the first page without one, else the number
      the cursor holds, which must be at least 1. `quote` is Go's `%q`. */
  function PageCursor(cursor: Option<string>, quote: string -> string): (r: Result<int, Error>)
    ensures cursor.None? ==> r == Ok(1)
    ensures r.Ok? ==> r.value >= 1
    ensures cursor.Some? ==>
      (r.Ok? <==> Atoi(cursor.value).Some? && Atoi(cursor.value).value >= 1)
      && (r.Ok? ==> r.value == Atoi(cursor.value).value)
    ensures cursor.Some? && Atoi(cursor.value).None? ==>
      r == Err(Wrapped(InvalidCursor, Plain(AtoiErrorText(cursor.value, quote))))
    ensures cursor.Some? && Atoi(cursor.value).Some? && Atoi(cursor.value).value < 1 ==>
      r == Err(Plain(InvalidCursor + quote(cursor.value)))
  {
    match cursor
    case None => Ok(1)
    case Some(c) =>
      var parsed := Atoi(c);
      if parsed.None? then Err(Wrapped(InvalidCursor, Plain(AtoiErrorText(c, quote))))
      else if parsed.value < 1 then Err(Plain(InvalidCursor + quote(c)))
      else Ok(parsed.value)
  }

  /** The cursor for the page after this one: the decimal `next` page when the
      server points at one. */
  function NextCursor(p: Pagination): (c: Option<string>)
    ensures c.Some? <==> HasNext(p)
  {
    if HasNext(p) then Some(Itoa(p.next.value)) else None
  }

  /** Every cursor handed out is accepted back and selects the page it names. */
  lemma NextCursorRoundTrip(p: Pagination, quote: string -> string)
    requires HasNext(p) && p.next.value <= MaxInt64
    ensures PageCursor(NextCursor(p), quote) == Ok(p.next.value)
  {
    AtoiItoa(p.next.value);
  }

  // ---------------------------------------------------------------------
  // The listing

  /** The query for a page: users without their groups, oldest change first,
      changed strictly after `updatedAfter` when it is given. `format` is
      `t.UTC().Format(time.RFC3339Nano)`. */
  function ListQuery(page: int, updatedAfter: Option<Time>, format: Time -> string): (q: Query)
    ensures PageKey in q && q[PageKey] == Number(page)
    ensures OrderingKey in q && q[OrderingKey] == Str(LastUpdated)
    ensures IncludeGroupsKey in q && q[IncludeGroupsKey] == Str("false")
    ensures UpdatedAfterKey in q <==> updatedAfter.Some?
    ensures updatedAfter.Some? ==> q[UpdatedAfterKey] == Str(format(updatedAfter.value))
    ensures forall k :: k in BaseUserQuery(false) ==> k in q
  {
    var q := BaseUserQuery(false)[PageKey := Number(page)][OrderingKey := Str(LastUpdated)];
    if updatedAfter.Some? then q[UpdatedAfterKey := Str(format(updatedAfter.value))] else q
  }

  /** A listed user's account: no groups. */
  function ListedAccount(u: ApiUser, parse: (string, string) -> Option<Time>): Account {
    Account(UserImmutableID(u), UserExternalIDs(u), UserDisplayName(u), None, ParseAPITime(u.lastUpdated, parse), None)
  }

  /** What one user adds to the page: nothing without an immutable ID. */
  function ListedOne(u: ApiUser, parse: (string, string) -> Option<Time>): seq<Account> {
    if UserImmutableID(u) == "" then [] else [ListedAccount(u, parse)]
  }

  /** The accounts of a page: every user with an immutable ID, in order. */
  function ListedAccounts(users: seq<ApiUser>, parse: (string, string) -> Option<Time>): seq<Account> {
    if users == [] then [] else ListedOne(users[0], parse) + ListedAccounts(users[1..], parse)
  }

  /** Every listed account has an immutable ID and no groups. */
  lemma {:induction false} ListedAccountsShape(users: seq<ApiUser>, parse: (string, string) -> Option<Time>)
    ensures var r := ListedAccounts(users, parse);
      |r| <= |users| && forall k :: 0 <= k < |r| ==> r[k].immutableID != "" && r[k].groups.None?
  {
    if users != [] {
      ListedAccountsShape(users[1..], parse);
    }
  }

  /** Every user with an immutable ID is listed, and nothing else is. */
  lemma {:induction false} ListedAccountsExactly(users: seq<ApiUser>, parse: (string, string) -> Option<Time>)
    ensures var r := ListedAccounts(users, parse);
      (forall u :: u in users && UserImmutableID(u) != "" ==> ListedAccount(u, parse) in r)
      && (forall a :: a in r ==> exists u :: u in users && UserImmutableID(u) != "" && a == ListedAccount(u, parse))
  {
    if users != [] {
      ListedAccountsExactly(users[1..], parse);
      var r := ListedAccounts(users, parse);
      var rest := ListedAccounts(users[1..], parse);
      assert r == ListedOne(users[0], parse) + rest;
      forall u | u in users && UserImmutableID(u) != "" ensures ListedAccount(u, parse) in r {
        if u != users[0] {
          assert u in users[1..];
          assert ListedAccount(u, parse) in rest;
        } else {
          assert ListedOne(u, parse) == [ListedAccount(u, parse)];
        }
      }
      forall a | a in r ensures exists u :: u in users && UserImmutableID(u) != "" && a == ListedAccount(u, parse) {
        if a !in rest {
          assert a in ListedOne(users[0], parse);
          assert users[0] in users && UserImmutableID(users[0]) != "" && a == ListedAccount(users[0], parse);
        } else {
          var u :| u in users[1..] && UserImmutableID(u) != "" && a == ListedAccount(u, parse);
          assert u in users;
        }
      }
    }
  }

  /** The listed accounts keep the order of the users: a page split in two
      lists as its two halves one after the other. */
  lemma {:induction false} ListedAccountsKeepOrder(a: seq<ApiUser>, b: seq<ApiUser>, parse: (string, string) -> Option<Time>)
    ensures ListedAccounts(a + b, parse) == ListedAccounts(a, parse) + ListedAccounts(b, parse)
  {
    if a == [] {
      assert a + b == b;
    } else {
      assert (a + b)[0] == a[0] && (a + b)[1..] == a[1..] + b;
      ListedAccountsKeepOrder(a[1..], b, parse);
      Assoc(ListedOne(a[0], parse), ListedAccounts(a[1..], parse), ListedAccounts(b, parse));
    }
  }

  /** The loop of `ListAccounts` over the page's users. */
  method CollectAccounts(users: seq<ApiUser>, parse: (string, string) -> Option<Time>) returns (accounts: seq<Account>)
    ensures accounts == ListedAccounts(users, parse)
  {
    accounts := [];
    var i := 0;
    while i < |users|
      invariant 0 <= i <= |users|
      invariant accounts == ListedAccounts(users[..i], parse)
    {
      var user := users[i];
      ListedAccountsKeepOrder(users[..i], [user], parse);
      PrefixSnoc(users, i);
      assert ListedAccounts([user], parse) == ListedOne(user, parse) by {
        assert [user][1..] == [];
      }
      if UserImmutableID(user) != "" {
        accounts := accounts + [ListedAccount(user, parse)];
      }
      i := i + 1;
    }
    PrefixAll(users);
  }

  /** `ListAccounts`. `quote` is Go's `%q`, `format` the RFC 3339 formatting of
      the `UpdatedAfter` time and `parse` Go's `time.Parse`. A bad cursor fails
      before anything is sent; otherwise one page is asked for. */
  method ListAccounts(s: Server, req: ListAccountsRequest, quote: string -> string,
                      format: Time -> string, parse: (string, string) -> Option<Time>)
    returns (r: Result<ListAccountsResponse, Error>)
    modifies s
    ensures var page := PageCursor(req.cursor, quote);
      (page.Err? ==> r == Err(page.error) && s.log == old(s.log))
      && (page.Ok? ==>
            var q := ListQuery(page.value, req.updatedAfter, format);
            s.log == old(s.log) + Sent(s.configErr, Get(UsersPath, q))
            && match s.users(q)
               case Err(e) => r == Err(e)
               case Ok(resp) =>
                 r == Ok(ListAccountsResponse(ListedAccounts(resp.results, parse), NextCursor(resp.pagination)))
         )
  {
    var page := PageCursor(req.cursor, quote);
    if page.Err? {
      return Err(page.error);
    }
    var query := ListQuery(page.value, req.updatedAfter, format);
    var resp := s.GetUsers(query);
    if resp.Err? {
      return Err(resp.error);
    }
    var accounts := CollectAccounts(resp.value.results, parse);
    r := Ok(ListAccountsResponse(accounts, NextCursor(resp.value.pagination)));
  }
}
