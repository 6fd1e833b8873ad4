/** `directory/dirad/adclient/group.go`: listing AD groups whose name starts with
    a prefix, sorted by ObjectGUID and paged like the users. `GetADGroups`
    computes the page but hands back the whole sorted list (see `AsWrittenGroups`);
    `GetADGroups` below returns the page it computes. */
module AdGroup {
  import opened Wrappers
  import opened Text
  import opened Directory
  import opened AdClient
  import opened AdUser

  datatype ADGroup = ADGroup(name: string, objectGUID: string)

  function GroupGuid(g: ADGroup): string {
    g.objectGUID
  }

  datatype GetADGroupArgs = GetADGroupArgs(namePrefix: Option<string>, maxCount: Option<int>, cursor: Option<string>)

  /** What follows the escaped prefix in the group listing command. */
  const GroupsTail: string := "*'\" | Select-Object Name, ObjectGUID | ConvertTo-Json"

  /** The listing command, with every single quote of the prefix doubled so that
      a quote cannot end the single-quoted filter literal. Nothing else is
      escaped, so a double quote ends the `-Filter` argument (`Text.DoubleQuotesKeepsOthers`). */
  function GroupsCommand(prefix: string): string {
    "Get-ADGroup -Filter \"Name -like '" + DoubleQuotes(prefix) + GroupsTail
  }

  /** The prefix the command is built from: the given one, or none. */
  function PrefixOf(args: GetADGroupArgs): (p: string)
    ensures args.namePrefix.Some? ==> p == args.namePrefix.value
    ensures args.namePrefix.None? ==> p == ""
  {
    args.namePrefix.GetOr("")
  }

  /** The escaped prefix in the command decodes back to the prefix. */
  lemma CommandKeepsPrefix(args: GetADGroupArgs)
    ensures var c := GroupsCommand(PrefixOf(args));
      var e := DoubleQuotes(PrefixOf(args));
      c == "Get-ADGroup -Filter \"Name -like '" + e + GroupsTail
      && UndoubleQuotes(e) == Some(PrefixOf(args))
  {
    UndoubleDoubleQuotes(PrefixOf(args));
  }

  /** The page size: MaxCount when given, else the default of 250. */
  function PageSize(args: GetADGroupArgs): (n: int)
    ensures args.maxCount.Some? ==> n == args.maxCount.value
    ensures args.maxCount.None? ==> n == DefaultPageSize
  {
    if args.maxCount.Some? then args.maxCount.value else DefaultPageSize
  }

  /** How the JSON output decodes: PowerShell prints one object bare and several as a list. */
  datatype GroupsJson = SingleGroup(group: ADGroup) | GroupList(groups: seq<ADGroup>)

  /** A page that `GetADGroups` may compute from `groups`: the page of some sorted
      arrangement of them. */
  ghost predicate IsGroupPage(groups: seq<ADGroup>, sorted: seq<ADGroup>, args: GetADGroupArgs, p: Page<ADGroup>)
    requires PageSize(args) >= 0
  {
    SortedBy(sorted, GroupGuid) && multiset(sorted) == multiset(groups)
    && p == PageOf(sorted, GroupGuid, args.cursor, PageSize(args))
  }

  /** `GetADGroups` as written: the cursor is the computed page's, but the list
      returned is the whole sorted list (group.go line 97 returns `rv`, not `response`). */
  function AsWrittenGroups(sorted: seq<ADGroup>, args: GetADGroupArgs): (r: Page<ADGroup>)
    requires PageSize(args) >= 0
    ensures r.items == sorted
    ensures r.next == PageOf(sorted, GroupGuid, args.cursor, PageSize(args)).next
  {
    Page(sorted, PageOf(sorted, GroupGuid, args.cursor, PageSize(args)).next)
  }

  /** The list and cursor `GetADGroups` answers for one decoded output. */
  ghost predicate Answers(decoded: GroupsJson, sorted: seq<ADGroup>, args: GetADGroupArgs, p: Page<ADGroup>, asWritten: bool)
    requires PageSize(args) >= 0
  {
    match decoded
    case SingleGroup(g) => p == Page([g], None)
    case GroupList(gs) =>
      if asWritten then
        SortedBy(sorted, GroupGuid) && multiset(sorted) == multiset(gs) && p == AsWrittenGroups(sorted, args)
      else IsGroupPage(gs, sorted, args, p)
  }

  /** The sort and the page, as both versions compute them. */
  method SortAndPage(groups: seq<ADGroup>, args: GetADGroupArgs) returns (p: Page<ADGroup>, sorted: seq<ADGroup>)
    requires PageSize(args) >= 0
    ensures IsGroupPage(groups, sorted, args, p)
  {
    var a := new ADGroup[|groups|](i requires 0 <= i < |groups| => groups[i]);
    assert a[..] == groups;
    SortBy(a, GroupGuid);
    sorted := a[..];
    p := PageOf(a[..], GroupGuid, args.cursor, PageSize(args));
  }

  /** `GetADGroups` exactly as written. A negative MaxCount makes the slice
      `rv[index+1 : end]` panic, so callers must not pass one. */
  method GetADGroupsAsWritten(s: MockClient, args: GetADGroupArgs, parse: string -> Result<GroupsJson, Error>)
    returns (r: Result<Page<ADGroup>, Error>, ghost sorted: seq<ADGroup>)
    requires PageSize(args) >= 0
    modifies s
    ensures s.responseMap == old(s.responseMap)
    ensures s.executed == old(s.executed) + [GroupsCommand(PrefixOf(args))]
    ensures var out := Lookup(s.responseMap, GroupsCommand(PrefixOf(args)));
      if out.Err? then r == Err(out.error)
      else if parse(out.value).Err? then r == Err(parse(out.value).error)
      else r.Ok? && Answers(parse(out.value).value, sorted, args, r.value, true)
  {
    sorted := [];
    var out := s.Execute(GroupsCommand(PrefixOf(args)));
    if out.Err? {
      return Err(out.error), sorted;
    }
    var decoded := parse(out.value);
    if decoded.Err? {
      return Err(decoded.error), sorted;
    }
    match decoded.value
    case SingleGroup(g) =>
      r := Ok(Page([g], None));
    case GroupList(gs) =>
      var page, all := SortAndPage(gs, args);
      sorted := all;
      r := Ok(Page(all, page.next));
  }

  /** `GetADGroups` with the evident intent: the page it computes is the list it returns. */
  method GetADGroups(s: MockClient, args: GetADGroupArgs, parse: string -> Result<GroupsJson, Error>)
    returns (r: Result<Page<ADGroup>, Error>, ghost sorted: seq<ADGroup>)
    requires PageSize(args) >= 0
    modifies s
    ensures s.responseMap == old(s.responseMap)
    ensures s.executed == old(s.executed) + [GroupsCommand(PrefixOf(args))]
    ensures var out := Lookup(s.responseMap, GroupsCommand(PrefixOf(args)));
      if out.Err? then r == Err(out.error)
      else if parse(out.value).Err? then r == Err(parse(out.value).error)
      else r.Ok? && Answers(parse(out.value).value, sorted, args, r.value, false)
  {
    sorted := [];
    var out := s.Execute(GroupsCommand(PrefixOf(args)));
    if out.Err? {
      return Err(out.error), sorted;
    }
    var decoded := parse(out.value);
    if decoded.Err? {
      return Err(decoded.error), sorted;
    }
    match decoded.value
    case SingleGroup(g) =>
      r := Ok(Page([g], None));
    case GroupList(gs) =>
      var page;
      page, sorted := SortAndPage(gs, args);
      r := Ok(page);
  }

  /** Three groups, pages of one: the as-written answer holds every group although
      it hands out a cursor, so a caller that follows it sees the second and third
      groups twice. The corrected answer is the first group alone. */
  lemma AsWrittenRepeatsGroups()
    ensures var gs := [ADGroup("a", "1"), ADGroup("b", "2"), ADGroup("c", "3")];
      var args := GetADGroupArgs(None, Some(1), None);
      var first := AsWrittenGroups(gs, args);
      var second := AsWrittenGroups(gs, args.(cursor := first.next));
      first.next == Some("1") && first.items == gs && second.items == gs
      && PageOf(gs, GroupGuid, args.cursor, 1).items == [gs[0]]
  {
    var gs := [ADGroup("a", "1"), ADGroup("b", "2"), ADGroup("c", "3")];
    assert Start(gs, GroupGuid, None) == 0;
    assert PageOf(gs, GroupGuid, None, 1).items == gs[0..1];
  }
}
