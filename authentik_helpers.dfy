/** `directory/dirauthentik/helpers.go`: the listing queries, the timestamp
    parser, and the way an Authentik user becomes an immutable ID, a display
    name and a list of external IDs. */
module AuthentikHelpers {
  import opened Wrappers
  import opened Text
  import opened Api
  import opened Authentik

  const PageSizeKey: string := "page_size"
  const IncludeGroupsKey: string := "include_groups"
  const IncludeRolesKey: string := "include_roles"
  const IncludeUsersKey: string := "include_users"
  const IncludeParentsKey: string := "include_parents"
  const IncludeChildrenKey: string := "include_children"

  /** `strconv.FormatBool`. */
  function FormatBool(b: bool): string {
    if b then "true" else "false"
  }

  /** `baseUserQuery`: pages of the default size, roles never included, groups
      only when asked for. */
  function BaseUserQuery(includeGroups: bool): (q: Query)
    ensures q.Keys == {PageSizeKey, IncludeGroupsKey, IncludeRolesKey}
    ensures q[PageSizeKey] == Number(DefaultPageSize)
    ensures q[IncludeRolesKey] == Str("false")
    ensures q[IncludeGroupsKey] == Str("true") <==> includeGroups
  {
    map[PageSizeKey := Number(DefaultPageSize),
        IncludeGroupsKey := Str(FormatBool(includeGroups)),
        IncludeRolesKey := Str("false")]
  }

  /** `baseGroupQuery`: pages of the default size, without members, parents or children. */
  function BaseGroupQuery(): (q: Query)
    ensures q.Keys == {PageSizeKey, IncludeUsersKey, IncludeParentsKey, IncludeChildrenKey}
    ensures q[PageSizeKey] == Number(DefaultPageSize)
    ensures forall k :: k in q && k != PageSizeKey ==> q[k] == Str("false")
  {
    map[PageSizeKey := Number(DefaultPageSize),
        IncludeUsersKey := Str("false"),
        IncludeParentsKey := Str("false"),
        IncludeChildrenKey := Str("false")]
  }

  /** Go's `time.RFC3339Nano` and `time.RFC3339` layouts. */
  const RFC3339Nano: string := "2006-01-02T15:04:05.999999999Z07:00"
  const RFC3339: string := "2006-01-02T15:04:05Z07:00"

  /** `parseAPITime`. `parse(layout, value)` is Go's `time.Parse`, `None` when it fails.
      An empty value has no time; otherwise the first layout that parses wins. */
  function ParseAPITime(value: string, parse: (string, string) -> Option<Time>): (t: Option<Time>)
    ensures value == "" ==> t == None
    ensures t.None? <==> value == "" || (parse(RFC3339Nano, value).None? && parse(RFC3339, value).None?)
    ensures t.Some? ==> t == parse(RFC3339Nano, value) || t == parse(RFC3339, value)
    ensures value != "" && parse(RFC3339Nano, value).Some? ==> t == parse(RFC3339Nano, value)
  {
    if value == "" then None
    else if parse(RFC3339Nano, value).Some? then parse(RFC3339Nano, value)
    else parse(RFC3339, value)
  }

  // ---------------------------------------------------------------------
  // Identifiers and names

  /** `userImmutableID`: the UUID, else the decimal primary key, else nothing. */
  function UserImmutableID(u: ApiUser): (id: string)
    ensures u.uuid != "" ==> id == u.uuid
    ensures u.uuid == "" && u.pk != 0 ==> Atoi(id) == Some(u.pk)
    ensures id == "" <==> u.uuid == "" && u.pk == 0
  {
    if u.uuid != "" then u.uuid
    else if u.pk != 0 then (AtoiItoa(u.pk); Itoa(u.pk))
    else ""
  }

  /** `userDisplayName`: the first of Name, Username and Email that is set,
      else the immutable ID. */
  function UserDisplayName(u: ApiUser): (name: string)
    ensures u.name != "" ==> name == u.name
    ensures u.name == "" && u.username != "" ==> name == u.username
    ensures u.name == "" && u.username == "" && u.email != "" ==> name == u.email
    ensures u.name == "" && u.username == "" && u.email == "" ==> name == UserImmutableID(u)
    ensures name == "" <==> u.name == "" && u.username == "" && u.email == "" && UserImmutableID(u) == ""
  {
    if u.name != "" then u.name
    else if u.username != "" then u.username
    else if u.email != "" then u.email
    else UserImmutableID(u)
  }

  /** `isNumeric`: a non-empty string that `strconv.Atoi` accepts. */
  predicate IsNumeric(value: string) {
    value != "" && Atoi(value).Some?
  }

  /** Every decimal `strconv.Itoa` prints is numeric, so a UUID-less user's
      immutable ID is one. */
  lemma IsNumericItoa(u: ApiUser)
    ensures u.uuid == "" && u.pk != 0 ==> IsNumeric(UserImmutableID(u))
    ensures !IsNumeric("")
  {
  }

  /** What `isNumeric` accepts: an optional sign followed by at least one digit. */
  lemma IsNumericShape(value: string)
    ensures IsNumeric(value) ==>
      var digits := if value[0] == '-' || value[0] == '+' then value[1..] else value;
      digits != "" && AllDigits(digits)
  {
  }

  // ---------------------------------------------------------------------
  // External IDs

  /** `values` holds `entry` up to ASCII case. */
  predicate ContainsFold(values: seq<string>, entry: string) {
    exists i :: 0 <= i < |values| && EqualFold(values[i], entry)
  }

  /** No two entries are equal up to ASCII case. */
  predicate FoldDistinct(values: seq<string>) {
    forall i, j :: 0 <= i < j < |values| ==> !EqualFold(values[i], values[j])
  }

  predicate NoEmpty(values: seq<string>) {
    forall i :: 0 <= i < |values| ==> values[i] != ""
  }

  /** `appendUnique`, as what it leaves: the list unchanged for an empty entry
      or one already there up to case, else the entry added at the end. */
  function AppendUnique(values: seq<string>, entry: string): seq<string> {
    if entry == "" || ContainsFold(values, entry) then values else values + [entry]
  }

  /** Appending keeps a list free of empty entries and of duplicates up to
      case, and afterwards a non-empty entry is there up to case. */
  lemma AppendUniqueKeepsDistinct(values: seq<string>, entry: string)
    requires NoEmpty(values) && FoldDistinct(values)
    ensures NoEmpty(AppendUnique(values, entry)) && FoldDistinct(AppendUnique(values, entry))
    ensures entry != "" ==> ContainsFold(AppendUnique(values, entry), entry)
    ensures forall e :: ContainsFold(values, e) ==> ContainsFold(AppendUnique(values, entry), e)
    ensures forall x :: x in AppendUnique(values, entry) ==> x in values || x == entry
  {
    var r := AppendUnique(values, entry);
    if entry != "" && !ContainsFold(values, entry) {
      assert r[|values|] == entry && EqualFold(entry, entry);
      forall e | ContainsFold(values, e) ensures ContainsFold(r, e) {
        var i :| 0 <= i < |values| && EqualFold(values[i], e);
        assert r[i] == values[i];
      }
      forall i, j | 0 <= i < j < |r| ensures !EqualFold(r[i], r[j]) {
        if j == |values| {
          assert r[i] == values[i] && r[j] == entry;
          assert !EqualFold(values[i], entry);
        }
      }
    }
  }

  /** The loop of `appendUnique`: the empty entry is refused, then every
      existing value is compared with the entry ignoring case. */
  method AppendUniqueScan(values: seq<string>, entry: string) returns (r: seq<string>)
    ensures r == AppendUnique(values, entry)
  {
    if entry == "" {
      return values;
    }
    var i := 0;
    while i < |values|
      invariant 0 <= i <= |values|
      invariant forall k :: 0 <= k < i ==> !EqualFold(values[k], entry)
    {
      if EqualFold(values[i], entry) {
        return values;
      }
      i := i + 1;
    }
    r := values + [entry];
  }

  /** `userExternalIDs`. */
  function UserExternalIDs(u: ApiUser): (ids: seq<string>)
    ensures NoEmpty(ids) && FoldDistinct(ids)
    ensures |ids| <= 3
    ensures u.email != "" ==> |ids| > 0 && ids[0] == u.email
    ensures u.email != "" ==> ContainsFold(ids, u.email)
    ensures u.username != "" ==> ContainsFold(ids, u.username)
    ensures u.uid != "" ==> ContainsFold(ids, u.uid)
    ensures u.email != "" || u.username != "" || u.uid != "" ==>
      forall x :: x in ids ==> x == u.email || x == u.username || x == u.uid
    ensures u.email == "" && u.username == "" && u.uid == "" ==>
      ids == if UserImmutableID(u) == "" then [] else [UserImmutableID(u)]
  {
    var ids0 := AppendUnique([], u.email);
    var ids1 := AppendUnique(ids0, u.username);
    var ids2 := if u.uid != "" && !EqualFold(u.uid, u.email) && !EqualFold(u.uid, u.username)
                then AppendUnique(ids1, u.uid) else ids1;
    var ids3 := if |ids2| == 0 then AppendUnique(ids2, UserImmutableID(u)) else ids2;
    ExternalIDsClean(u, ids0, ids1, ids2, ids3);
    ExternalIDsCover(u, ids0, ids1, ids2, ids3);
    ExternalIDsFrom(u, ids0, ids1, ids2, ids3);
    ids3
  }

  /** The steps of `userExternalIDs`, one `appendUnique` at a time. */
  predicate ExternalIDsTrace(u: ApiUser, ids0: seq<string>, ids1: seq<string>, ids2: seq<string>, ids3: seq<string>) {
    ids0 == AppendUnique([], u.email)
    && ids1 == AppendUnique(ids0, u.username)
    && ids2 == (if u.uid != "" && !EqualFold(u.uid, u.email) && !EqualFold(u.uid, u.username)
                then AppendUnique(ids1, u.uid) else ids1)
    && ids3 == (if |ids2| == 0 then AppendUnique(ids2, UserImmutableID(u)) else ids2)
  }

  lemma ExternalIDsClean(u: ApiUser, ids0: seq<string>, ids1: seq<string>, ids2: seq<string>, ids3: seq<string>)
    requires ExternalIDsTrace(u, ids0, ids1, ids2, ids3)
    ensures NoEmpty(ids3) && FoldDistinct(ids3) && |ids3| <= 3
    ensures u.email != "" ==> |ids3| > 0 && ids3[0] == u.email
  {
    AppendUniqueKeepsDistinct([], u.email);
    AppendUniqueKeepsDistinct(ids0, u.username);
    AppendUniqueKeepsDistinct(ids1, u.uid);
    AppendUniqueKeepsDistinct(ids2, UserImmutableID(u));
  }

  lemma ExternalIDsCover(u: ApiUser, ids0: seq<string>, ids1: seq<string>, ids2: seq<string>, ids3: seq<string>)
    requires ExternalIDsTrace(u, ids0, ids1, ids2, ids3)
    ensures u.email != "" ==> ContainsFold(ids3, u.email)
    ensures u.username != "" ==> ContainsFold(ids3, u.username)
    ensures u.uid != "" ==> ContainsFold(ids3, u.uid)
  {
    AppendUniqueKeepsDistinct([], u.email);
    AppendUniqueKeepsDistinct(ids0, u.username);
    AppendUniqueKeepsDistinct(ids1, u.uid);
    AppendUniqueKeepsDistinct(ids2, UserImmutableID(u));
    if u.uid != "" && !(!EqualFold(u.uid, u.email) && !EqualFold(u.uid, u.username)) {
      if EqualFold(u.uid, u.email) {
        assert ContainsFold(ids1, u.email);
        var i :| 0 <= i < |ids1| && EqualFold(ids1[i], u.email);
        assert EqualFold(ids1[i], u.uid);
      } else {
        assert ContainsFold(ids1, u.username);
        var i :| 0 <= i < |ids1| && EqualFold(ids1[i], u.username);
        assert EqualFold(ids1[i], u.uid);
      }
    }
  }

  lemma ExternalIDsFrom(u: ApiUser, ids0: seq<string>, ids1: seq<string>, ids2: seq<string>, ids3: seq<string>)
    requires ExternalIDsTrace(u, ids0, ids1, ids2, ids3)
    ensures u.email != "" || u.username != "" || u.uid != "" ==>
      forall x :: x in ids3 ==> x == u.email || x == u.username || x == u.uid
    ensures u.email == "" && u.username == "" && u.uid == "" ==>
      ids3 == if UserImmutableID(u) == "" then [] else [UserImmutableID(u)]
  {
    AppendUniqueKeepsDistinct([], u.email);
    AppendUniqueKeepsDistinct(ids0, u.username);
    AppendUniqueKeepsDistinct(ids1, u.uid);
    if u.email != "" || u.username != "" || u.uid != "" {
      ExternalIDsCover(u, ids0, ids1, ids2, ids3);
      assert |ids2| > 0 by {
        if u.email != "" { assert ContainsFold(ids0, u.email); }
        else if u.username != "" { assert ContainsFold(ids1, u.username); }
        else { assert ContainsFold(ids2, u.uid); }
      }
    }
  }
}
