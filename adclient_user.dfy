/** `directory/dirad/adclient/user.go`: listing AD users a page at a time (sort by
    ObjectGUID, find the cursor, slice a page) and collecting a user's groups. The
    sort and the paging are generic in the item and its key, because
    `adclient/group.go` pages groups by the same rule. */
module AdUser {
  import opened Wrappers
  import opened Text
  import opened Directory
  import opened AdClient

  datatype User = User(
    samAccountName: string,
    distinguishedName: string,
    name: string,
    emailAddress: string,
    objectGUID: string,
    memberOf: seq<string>,
    lockedOut: bool,
    whenChanged: string)

  datatype UserGroup = UserGroup(name: string, objectGUID: string)

  function Guid(u: User): string {
    u.objectGUID
  }

  // ---------------------------------------------------------------------
  // Sorting by key (`sort.Slice` with `a.ObjectGUID < b.ObjectGUID`)

  predicate SortedBy<T>(s: seq<T>, key: T -> string) {
    forall i, j :: 0 <= i < j < |s| ==> LessEq(key(s[i]), key(s[j]))
  }

  lemma LessEqTransitive(a: string, b: string, c: string)
    requires LessEq(a, b) && LessEq(b, c)
    ensures LessEq(a, c)
  {
    if a != b && b != c {
      LessTransitive(a, b, c);
    }
  }

  /** `s[..i + 1]` is in order except for the element at `j`. */
  predicate SortedExcept<T>(s: seq<T>, key: T -> string, i: nat, j: nat)
    requires j <= i < |s|
  {
    forall p, q :: 0 <= p < q <= i && p != j && q != j ==> LessEq(key(s[p]), key(s[q]))
  }

  /** The element at `j` is no greater than those after it, up to `i`. */
  predicate BelowRest<T>(s: seq<T>, key: T -> string, i: nat, j: nat)
    requires j <= i < |s|
  {
    forall q :: j < q <= i ==> LessEq(key(s[j]), key(s[q]))
  }

  /** Moves `a[i]` left into place, so that `a[..i + 1]` is sorted (one round of insertion sort). */
  method InsertLast<T>(a: array<T>, key: T -> string, i: nat)
    requires 1 <= i < a.Length && SortedBy(a[..i], key)
    modifies a
    ensures SortedBy(a[..i + 1], key)
    ensures multiset(a[..]) == multiset(old(a[..]))
  {
    var j := i;
    InsertStart(a[..], key, i);
    while j > 0 && Less(key(a[j]), key(a[j - 1]))
      invariant 0 <= j <= i
      invariant multiset(a[..]) == multiset(old(a[..]))
      invariant SortedExcept(a[..], key, i, j) && BelowRest(a[..], key, i, j)
    {
      ghost var before := a[..];
      SwapDown(a, j);
      SwapKeepsOrder(before, a[..], key, i, j);
      j := j - 1;
    }
    InsertEnd(a[..], key, i, j);
  }

  /** Exchanges `a[j - 1]` and `a[j]`. */
  method SwapDown<T>(a: array<T>, j: nat)
    requires 0 < j < a.Length
    modifies a
    ensures a[..] == old(a[..])[j - 1 := old(a[j])][j := old(a[j - 1])]
    ensures multiset(a[..]) == multiset(old(a[..]))
  {
    a[j], a[j - 1] := a[j - 1], a[j];
  }

  /** Before the first swap the gap is at `i`, the element being inserted. */
  lemma InsertStart<T>(s: seq<T>, key: T -> string, i: nat)
    requires i < |s| && SortedBy(s[..i], key)
    ensures SortedExcept(s, key, i, i) && BelowRest(s, key, i, i)
  {
    forall p, q | 0 <= p < q <= i && p != i && q != i
      ensures LessEq(key(s[p]), key(s[q]))
    {
      assert s[p] == s[..i][p] && s[q] == s[..i][q];
    }
  }

  /** Swapping the out-of-order pair at `j - 1` and `j` moves the gap in the
      order of `s[..i + 1]` one place to the left. */
  lemma SwapKeepsOrder<T>(s: seq<T>, t: seq<T>, key: T -> string, i: nat, j: nat)
    requires 0 < j <= i < |s| && t == s[j - 1 := s[j]][j := s[j - 1]]
    requires Less(key(s[j]), key(s[j - 1]))
    requires SortedExcept(s, key, i, j) && BelowRest(s, key, i, j)
    ensures SortedExcept(t, key, i, j - 1) && BelowRest(t, key, i, j - 1)
  {
  }

  /** Once the element at the gap is no smaller than the one before it (or
      has reached the front), `s[..i + 1]` is sorted. */
  lemma InsertEnd<T>(s: seq<T>, key: T -> string, i: nat, j: nat)
    requires j <= i < |s| && SortedExcept(s, key, i, j) && BelowRest(s, key, i, j)
    requires j > 0 ==> !Less(key(s[j]), key(s[j - 1]))
    ensures SortedBy(s[..i + 1], key)
  {
    if j > 0 {
      LessTotal(key(s[j]), key(s[j - 1]));
      forall p | 0 <= p < j - 1
        ensures LessEq(key(s[p]), key(s[j]))
      {
        LessEqTransitive(key(s[p]), key(s[j - 1]), key(s[j]));
      }
    }
    var t := s[..i + 1];
    forall p, q | 0 <= p < q < |t|
      ensures LessEq(key(t[p]), key(t[q]))
    {
      assert t[p] == s[p] && t[q] == s[q];
    }
  }

  /** Insertion sort in place; any sorted permutation is what `sort.Slice` may produce. */
  method SortBy<T>(a: array<T>, key: T -> string)
    modifies a
    ensures SortedBy(a[..], key)
    ensures multiset(a[..]) == multiset(old(a[..]))
  {
    if a.Length == 0 {
      return;
    }
    var i := 1;
    while i < a.Length
      invariant 1 <= i <= a.Length
      invariant SortedBy(a[..i], key)
      invariant multiset(a[..]) == multiset(old(a[..]))
    {
      InsertLast(a, key, i);
      i := i + 1;
    }
    assert a[..a.Length] == a[..];
  }

  // ---------------------------------------------------------------------
  // Paging

  /** `lo.FindIndexOf`: the first index whose key is `k`, or -1. */
  function IndexOfKey<T>(s: seq<T>, key: T -> string, k: string): (i: int)
    ensures -1 <= i < |s|
  {
    if s == [] then -1
    else if key(s[0]) == k then 0
    else
      var r := IndexOfKey(s[1..], key, k);
      if r == -1 then -1 else r + 1
  }

  /** The index found holds the key and no earlier one does; -1 means no item
      holds it. */
  lemma {:induction false} IndexOfKeyFirst<T>(s: seq<T>, key: T -> string, k: string)
    ensures var i := IndexOfKey(s, key, k);
      (0 <= i ==> key(s[i]) == k && forall j :: 0 <= j < i ==> key(s[j]) != k)
      && (i == -1 ==> forall j :: 0 <= j < |s| ==> key(s[j]) != k)
  {
    if s != [] && key(s[0]) != k {
      IndexOfKeyFirst(s[1..], key, k);
      assert forall j :: 1 <= j < |s| ==> s[j] == s[1..][j - 1];
    }
  }

  /** Where a page starts: 0 without a cursor or with an unknown cursor, else
      just after the first item whose key is the cursor. */
  function Start<T>(s: seq<T>, key: T -> string, cursor: Option<string>): (start: nat)
    ensures start <= |s|
    ensures cursor.None? ==> start == 0
  {
    match cursor
    case None => 0
    case Some(c) => IndexOfKey(s, key, c) + 1
  }

  /** An unknown cursor starts at 0; a page that starts later starts right
      after an item whose key is the cursor. */
  lemma StartAfterCursor<T>(s: seq<T>, key: T -> string, cursor: Option<string>)
    ensures var start := Start(s, key, cursor);
      (cursor.Some? && (forall j :: 0 <= j < |s| ==> key(s[j]) != cursor.value) ==> start == 0)
      && (0 < start ==> cursor.Some? && key(s[start - 1]) == cursor.value)
  {
    if cursor.Some? {
      IndexOfKeyFirst(s, key, cursor.value);
    }
  }

  datatype Page<T> = Page(items: seq<T>, next: Option<string>)

  /** One page of `size` items from the sorted list, and the cursor for the next. */
  function PageOf<T>(s: seq<T>, key: T -> string, cursor: Option<string>, size: nat): Page<T> {
    var start := Start(s, key, cursor);
    var end := if start + size > |s| then |s| else start + size;
    var items := s[start..end];
    Page(items, if |items| > 0 && end < |s| then Some(key(s[end - 1])) else None)
  }

  /** A page is the contiguous slice that starts at `Start` and holds at most
      `size` items, as many as there are; a cursor is handed out exactly when
      the page is non-empty and items remain after it, and it is the key of
      the page's last item. */
  lemma PageOfShape<T>(s: seq<T>, key: T -> string, cursor: Option<string>, size: nat)
    ensures var p := PageOf(s, key, cursor, size);
      var st := Start(s, key, cursor);
      |p.items| <= size && st + |p.items| <= |s| && p.items == s[st..st + |p.items|]
      && (|p.items| == size || st + |p.items| == |s|)
      && (p.next.Some? <==> |p.items| > 0 && st + |p.items| < |s|)
      && (p.next.Some? ==> p.next.value == key(p.items[|p.items| - 1]))
  {
  }

  predicate DistinctKeys<T>(s: seq<T>, key: T -> string) {
    forall i, j :: 0 <= i < j < |s| ==> key(s[i]) != key(s[j])
  }

  /** The items seen by a caller that follows `next` cursors, at most `fuel` pages. */
  function Follow<T>(s: seq<T>, key: T -> string, cursor: Option<string>, size: nat, fuel: nat): seq<T>
    decreases fuel
  {
    if fuel == 0 then []
    else
      var p := PageOf(s, key, cursor, size);
      p.items + match p.next
        case None => []
        case Some(c) => Follow(s, key, Some(c), size, fuel - 1)
  }

  /** The page a cursor handed out by the previous page starts right after that page. */
  lemma NextStart<T>(s: seq<T>, key: T -> string, cursor: Option<string>, size: nat)
    requires DistinctKeys(s, key)
    requires PageOf(s, key, cursor, size).next.Some?
    ensures Start(s, key, PageOf(s, key, cursor, size).next) == Start(s, key, cursor) + |PageOf(s, key, cursor, size).items|
    ensures |PageOf(s, key, cursor, size).items| > 0
  {
    PageOfShape(s, key, cursor, size);
    var p := PageOf(s, key, cursor, size);
    var st := Start(s, key, cursor);
    var last := st + |p.items| - 1;
    assert p.items[|p.items| - 1] == s[last];
    var i := IndexOfKey(s, key, p.next.value);
    IndexOfKeyFirst(s, key, p.next.value);
    assert i <= last;
    if i < last {
      assert false;
    }
  }

  /** The last page of `Follow` is the rest of the list. */
  lemma FollowEnd<T>(s: seq<T>, key: T -> string, cursor: Option<string>, size: nat, fuel: nat)
    requires fuel > 0 && size > 0 && PageOf(s, key, cursor, size).next.None?
    ensures Follow(s, key, cursor, size, fuel) == s[Start(s, key, cursor)..]
  {
    PageOfShape(s, key, cursor, size);
    var p := PageOf(s, key, cursor, size);
    assert Follow(s, key, cursor, size, fuel) == p.items + [];
    assert Start(s, key, cursor) + |p.items| == |s|;
  }

  /** One step of `Follow`: a page, then the pages after its cursor, which
      cover the rest of the list when they start right after the page. */
  lemma FollowStep<T>(s: seq<T>, key: T -> string, cursor: Option<string>, size: nat, fuel: nat,
                      next: Option<string>, st: nat, st2: nat)
    requires fuel > 0 && next.Some? && PageOf(s, key, cursor, size).next == next
    requires st == Start(s, key, cursor) && st2 == st + |PageOf(s, key, cursor, size).items|
    requires st2 <= |s| && Follow(s, key, next, size, fuel - 1) == s[st2..]
    ensures Follow(s, key, cursor, size, fuel) == s[st..]
  {
    PageOfShape(s, key, cursor, size);
    FollowUnfold(s, key, cursor, size, fuel, next);
    SliceJoin(s, st, st2);
  }

  /** `Follow` over a page that hands out a cursor. */
  lemma FollowUnfold<T>(s: seq<T>, key: T -> string, cursor: Option<string>, size: nat, fuel: nat, next: Option<string>)
    requires fuel > 0 && next.Some? && PageOf(s, key, cursor, size).next == next
    ensures Follow(s, key, cursor, size, fuel) == PageOf(s, key, cursor, size).items + Follow(s, key, next, size, fuel - 1)
  {
  }

  /** Following cursors from a page start gives every remaining item once, in
      order; `st` is where the page of `cursor` starts. */
  lemma {:induction false} FollowFrom<T>(s: seq<T>, key: T -> string, cursor: Option<string>, size: nat, fuel: nat, st: nat)
    requires DistinctKeys(s, key) && size > 0
    requires st == Start(s, key, cursor) && fuel > |s| - st
    ensures Follow(s, key, cursor, size, fuel) == s[st..]
    decreases fuel
  {
    var p := PageOf(s, key, cursor, size);
    if p.next.Some? {
      NextStart(s, key, cursor, size);
      var st2 := st + |p.items|;
      FollowFrom(s, key, p.next, size, fuel - 1, st2);
      assert PageOf(s, key, cursor, size).next == p.next;
      FollowStep(s, key, cursor, size, fuel, p.next, st, st2);
    } else {
      FollowEnd(s, key, cursor, size, fuel);
    }
  }

  /** Over a list with distinct keys, following the cursors from no cursor visits
      every item exactly once, in sorted order, and then hands out no cursor. */
  lemma FollowAll<T>(s: seq<T>, key: T -> string, size: nat)
    requires DistinctKeys(s, key) && size > 0
    ensures Follow(s, key, None, size, |s| + 1) == s
  {
    FollowFrom(s, key, None, size, |s| + 1, 0);
  }

  // ---------------------------------------------------------------------
  // ListADUsers

  datatype ListADUsersArgs = ListADUsersArgs(updatedAfter: Option<Api.Time>, cursor: Option<string>)

  /** The command that turns the UpdatedAfter time (already formatted) into a
      PowerShell variable holding the LDAP time threshold. */
  function TimeThresholdCommand(formatted: string): string {
    TimeThresholdHead + formatted + TimeThresholdTail
  }

  const TimeThresholdHead: string := "$listUsersTimeThreshold = (Get-Date \""
  const TimeThresholdTail: string := "\").ToUniversalTime().ToString(\"yyyyMMddHHmmss.0Z\")"
  const ChangedFilter: string := "-LDAPFilter \"(whenChanged>=$listUsersTimeThreshold)\""
  const AllFilter: string := "-Filter *"
  const ListUsersHead: string := "Get-ADUser "

  /** The user filter: by change time when UpdatedAfter is given, else all users. */
  function UserFilter(args: ListADUsersArgs): (f: string)
    ensures args.updatedAfter.Some? ==> f == ChangedFilter
    ensures args.updatedAfter.None? ==> f == AllFilter
  {
    if args.updatedAfter.Some? then ChangedFilter else AllFilter
  }

  /** What follows the filter in the user listing command. */
  const ListUsersTail: string := " -Properties * | Select-Object Name, SamAccountName, ObjectGUID, EmailAddress, "
    + "@{Name='WhenChanged';Expression={$_.WhenChanged.ToUniversalTime().ToString('yyyy-MM-ddTHH:mm:ss.fffZ')}} | ConvertTo-Json"

  function ListUsersCommand(filter: string): string {
    ListUsersHead + filter + ListUsersTail
  }

  /** The commands ListADUsers runs, in order, up to the first failing one. */
  function ListUsersCommands(m: ResponseMap, args: ListADUsersArgs, formatTime: Api.Time -> string): seq<string> {
    match args.updatedAfter
    case Some(t) =>
      if Lookup(m, TimeThresholdCommand(formatTime(t))).Err? then [TimeThresholdCommand(formatTime(t))]
      else [TimeThresholdCommand(formatTime(t)), ListUsersCommand(UserFilter(args))]
    case None => [ListUsersCommand(UserFilter(args))]
  }

  /** The unsorted users ListADUsers reads, or the error it stops with. */
  function ListedUsers(m: ResponseMap, args: ListADUsersArgs, formatTime: Api.Time -> string,
                       parse: string -> Result<seq<User>, Error>): Result<seq<User>, Error> {
    var pre := if args.updatedAfter.Some? then Lookup(m, TimeThresholdCommand(formatTime(args.updatedAfter.value))) else Ok("");
    if pre.Err? then Err(pre.error)
    else
      var out := Lookup(m, ListUsersCommand(UserFilter(args)));
      if out.Err? then Err(out.error) else parse(out.value)
  }

  /** `page` is a page ListADUsers may answer: a page of some sorted arrangement of the listed users. */
  ghost predicate IsUserPage(users: seq<User>, sorted: seq<User>, cursor: Option<string>, p: Page<User>) {
    SortedBy(sorted, Guid) && multiset(sorted) == multiset(users) && p == PageOf(sorted, Guid, cursor, DefaultPageSize)
  }

  /** `ListADUsers`; `formatTime` is Go's time formatting and `parse` the JSON decoding. */
  method ListADUsers(s: MockClient, args: ListADUsersArgs, formatTime: Api.Time -> string,
                     parse: string -> Result<seq<User>, Error>)
    returns (r: Result<Page<User>, Error>, ghost sorted: seq<User>)
    modifies s
    ensures s.responseMap == old(s.responseMap)
    ensures s.executed == old(s.executed) + ListUsersCommands(s.responseMap, args, formatTime)
    ensures var listed := ListedUsers(s.responseMap, args, formatTime, parse);
      if listed.Err? then r == Err(listed.error)
      else r.Ok? && IsUserPage(listed.value, sorted, args.cursor, r.value)
  {
    sorted := [];
    if args.updatedAfter.Some? {
      var pre := s.Execute(TimeThresholdCommand(formatTime(args.updatedAfter.value)));
      if pre.Err? {
        return Err(pre.error), sorted;
      }
    }
    var out := s.Execute(ListUsersCommand(UserFilter(args)));
    if out.Err? {
      return Err(out.error), sorted;
    }
    var parsed := parse(out.value);
    if parsed.Err? {
      return Err(parsed.error), sorted;
    }
    var page;
    page, sorted := SortAndPage(parsed.value, args.cursor);
    r := Ok(page);
  }

  /** Sorts the listed users by GUID (in place, in an array) and cuts the page. */
  method SortAndPage(users: seq<User>, cursor: Option<string>) returns (p: Page<User>, ghost sorted: seq<User>)
    ensures IsUserPage(users, sorted, cursor, p)
  {
    var a := new User[|users|](i requires 0 <= i < |users| => users[i]);
    assert a[..] == users;
    SortBy(a, Guid);
    sorted := a[..];
    p := PageOf(a[..], Guid, cursor, DefaultPageSize);
  }

  // ---------------------------------------------------------------------
  // GetADUserGroups

  const GroupCommandHead: string := "Get-ADGroup -Identity '"
  const GroupCommandTail: string := "' -Properties ObjectGUID | Select-Object Name,ObjectGUID | ConvertTo-Json"

  /** The PowerShell command that looks up one group by its distinguished name. */
  function GroupCommand(dn: string): string {
    GroupCommandHead + dn + GroupCommandTail
  }

  /** The groups of the `memberOf` entries, in order, or the first failure. */
  function UserGroupsOf(m: ResponseMap, parse: string -> Result<seq<UserGroup>, Error>,
                        memberOf: seq<string>): Result<seq<UserGroup>, Error> {
    if memberOf == [] then Ok([])
    else
      var out := Lookup(m, GroupCommand(memberOf[0]));
      if out.Err? then Err(out.error)
      else
        var groups := parse(out.value);
        if groups.Err? then Err(groups.error)
        else
          var rest := UserGroupsOf(m, parse, memberOf[1..]);
          if rest.Err? then rest else Ok(groups.value + rest.value)
  }

  /** The lookups commands run: one per entry, up to the first failure. */
  function UserGroupCommands(m: ResponseMap, parse: string -> Result<seq<UserGroup>, Error>,
                             memberOf: seq<string>): (cmds: seq<string>)
    ensures |cmds| <= |memberOf|
  {
    if memberOf == [] then []
    else
      var out := Lookup(m, GroupCommand(memberOf[0]));
      if out.Err? || parse(out.value).Err? then [GroupCommand(memberOf[0])]
      else [GroupCommand(memberOf[0])] + UserGroupCommands(m, parse, memberOf[1..])
  }

  /** Looking up a list in two parts gives the two parts' groups one after the other. */
  lemma {:induction false} UserGroupsAppend(m: ResponseMap, parse: string -> Result<seq<UserGroup>, Error>,
                                            a: seq<string>, b: seq<string>)
    requires UserGroupsOf(m, parse, a).Ok? && UserGroupsOf(m, parse, b).Ok?
    ensures UserGroupsOf(m, parse, a + b) == Ok(UserGroupsOf(m, parse, a).value + UserGroupsOf(m, parse, b).value)
  {
    if a != [] {
      assert (a + b)[0] == a[0];
      assert (a + b)[1..] == a[1..] + b;
      UserGroupsAppend(m, parse, a[1..], b);
      var g0 := parse(Lookup(m, GroupCommand(a[0])).value).value;
      var ra := UserGroupsOf(m, parse, a[1..]).value;
      var rb := UserGroupsOf(m, parse, b).value;
      assert g0 + (ra + rb) == (g0 + ra) + rb;
    } else {
      assert a + b == b;
      assert UserGroupsOf(m, parse, a).value == [];
      assert [] + UserGroupsOf(m, parse, b).value == UserGroupsOf(m, parse, b).value;
    }
  }

  /** On success every entry was looked up, one command each, in order. */
  lemma {:induction false} UserGroupCommandsAll(m: ResponseMap, parse: string -> Result<seq<UserGroup>, Error>,
                                                memberOf: seq<string>)
    requires UserGroupsOf(m, parse, memberOf).Ok?
    ensures |UserGroupCommands(m, parse, memberOf)| == |memberOf|
    ensures forall k :: 0 <= k < |memberOf| ==> UserGroupCommands(m, parse, memberOf)[k] == GroupCommand(memberOf[k])
  {
    if memberOf != [] {
      UserGroupCommandsAll(m, parse, memberOf[1..]);
    }
  }

  /** `GetADUserGroups`; `parse` is the JSON decoding of one answer (one group or a list). */
  method GetADUserGroups(s: MockClient, user: User, parse: string -> Result<seq<UserGroup>, Error>)
    returns (r: Result<seq<UserGroup>, Error>)
    modifies s
    ensures s.responseMap == old(s.responseMap)
    ensures r == UserGroupsOf(s.responseMap, parse, user.memberOf)
    ensures s.executed == old(s.executed) + UserGroupCommands(s.responseMap, parse, user.memberOf)
  {
    var groups: seq<UserGroup> := [];
    ghost var m := s.responseMap;
    var i := 0;
    while i < |user.memberOf|
      invariant 0 <= i <= |user.memberOf|
      invariant s.responseMap == m == old(s.responseMap)
      invariant UserGroupsOf(m, parse, user.memberOf[..i]) == Ok(groups)
      invariant s.executed == old(s.executed) + UserGroupCommands(m, parse, user.memberOf[..i])
    {
      var head := user.memberOf[..i];
      var out := s.Execute(GroupCommand(user.memberOf[i]));
      UserGroupsSnoc(m, parse, head, user.memberOf[i]);
      Assoc(old(s.executed), UserGroupCommands(m, parse, head), [GroupCommand(user.memberOf[i])]);
      PrefixSnoc(user.memberOf, i);
      if out.Err? {
        UserGroupsStop(m, parse, user.memberOf, i);
        return Err(out.error);
      }
      var parsed := parse(out.value);
      if parsed.Err? {
        UserGroupsStop(m, parse, user.memberOf, i);
        return Err(parsed.error);
      }
      groups := groups + parsed.value;
      i := i + 1;
    }
    PrefixAll(user.memberOf);
    r := Ok(groups);
  }

  /** Extending the list by one entry, for the loop above. */
  lemma UserGroupsSnoc(m: ResponseMap, parse: string -> Result<seq<UserGroup>, Error>,
                       head: seq<string>, dn: string)
    requires UserGroupsOf(m, parse, head).Ok?
    ensures UserGroupCommands(m, parse, head + [dn]) == UserGroupCommands(m, parse, head) + [GroupCommand(dn)]
    ensures var out := Lookup(m, GroupCommand(dn));
      UserGroupsOf(m, parse, head + [dn])
      == if out.Err? then Err(out.error)
         else if parse(out.value).Err? then Err(parse(out.value).error)
         else Ok(UserGroupsOf(m, parse, head).value + parse(out.value).value)
  {
    SnocInduction(m, parse, head, dn);
  }

  lemma {:induction false} SnocInduction(m: ResponseMap, parse: string -> Result<seq<UserGroup>, Error>,
                                         head: seq<string>, dn: string)
    requires UserGroupsOf(m, parse, head).Ok?
    ensures UserGroupCommands(m, parse, head + [dn]) == UserGroupCommands(m, parse, head) + [GroupCommand(dn)]
    ensures var out := Lookup(m, GroupCommand(dn));
      UserGroupsOf(m, parse, head + [dn])
      == if out.Err? then Err(out.error)
         else if parse(out.value).Err? then Err(parse(out.value).error)
         else Ok(UserGroupsOf(m, parse, head).value + parse(out.value).value)
  {
    if head == [] {
      assert [] + [dn] == [dn];
      assert [dn][1..] == [];
      var out := Lookup(m, GroupCommand(dn));
      if out.Ok? && parse(out.value).Ok? {
        assert parse(out.value).value + [] == [] + parse(out.value).value;
      }
    } else {
      assert (head + [dn])[0] == head[0];
      assert (head + [dn])[1..] == head[1..] + [dn];
      SnocInduction(m, parse, head[1..], dn);
      var out0 := Lookup(m, GroupCommand(head[0]));
      var g0 := parse(out0.value);
      var rest := UserGroupsOf(m, parse, head[1..]);
      assert out0.Ok? && g0.Ok? && rest.Ok?;
      assert UserGroupsOf(m, parse, head).value == g0.value + rest.value;
      assert UserGroupCommands(m, parse, head + [dn])
        == [GroupCommand(head[0])] + UserGroupCommands(m, parse, head[1..] + [dn]);
      var out := Lookup(m, GroupCommand(dn));
      if out.Ok? && parse(out.value).Ok? {
        assert g0.value + (rest.value + parse(out.value).value) == (g0.value + rest.value) + parse(out.value).value;
      }
    }
  }

  /** A failure at entry i ends the lookups there. */
  lemma UserGroupsStop(m: ResponseMap, parse: string -> Result<seq<UserGroup>, Error>,
                       memberOf: seq<string>, i: nat)
    requires i < |memberOf| && UserGroupsOf(m, parse, memberOf[..i]).Ok?
    requires var out := Lookup(m, GroupCommand(memberOf[i])); out.Err? || parse(out.value).Err?
    ensures UserGroupsOf(m, parse, memberOf) == UserGroupsOf(m, parse, memberOf[..i + 1])
    ensures UserGroupCommands(m, parse, memberOf) == UserGroupCommands(m, parse, memberOf[..i + 1])
  {
    StopInduction(m, parse, memberOf, i);
  }

  lemma {:induction false} StopInduction(m: ResponseMap, parse: string -> Result<seq<UserGroup>, Error>,
                                         memberOf: seq<string>, i: nat)
    requires i < |memberOf| && UserGroupsOf(m, parse, memberOf[..i]).Ok?
    requires var out := Lookup(m, GroupCommand(memberOf[i])); out.Err? || parse(out.value).Err?
    ensures UserGroupsOf(m, parse, memberOf) == UserGroupsOf(m, parse, memberOf[..i + 1])
    ensures UserGroupCommands(m, parse, memberOf) == UserGroupCommands(m, parse, memberOf[..i + 1])
  {
    if i == 0 {
      assert memberOf[..1][1..] == [];
      assert memberOf[..1][0] == memberOf[0];
    } else {
      var tail := memberOf[1..];
      assert memberOf[..i + 1][1..] == tail[..i];
      assert memberOf[..i][1..] == tail[..i - 1];
      assert memberOf[..i + 1][0] == memberOf[0] && memberOf[..i][0] == memberOf[0];
      assert tail[i - 1] == memberOf[i];
      StopInduction(m, parse, tail, i - 1);
    }
  }
}
