/** `directory/dirbyid/conv.go` and the client types of
    `directory/dirbyid/byidclient/client.go`: Beyond Identity identities and
    groups, and how they become accounts and groups. */
module ByidConv {
  import opened Wrappers
  import opened Api

  /** `byidclient.Identity` (its update time plays no part). */
  datatype Identity = Identity(id: string, displayName: string, username: string, emailAddress: string)

  /** `byidclient.Group`. */
  datatype ByidGroup = ByidGroup(id: string, displayName: string, groupType: string)

  /** A page of identities or of groups, with the token of the next page. */
  datatype IdentityPage = IdentityPage(identities: seq<Identity>, nextPageToken: Option<string>)
  datatype GroupPage = GroupPage(groups: seq<ByidGroup>, nextPageToken: Option<string>)

  /** `toDirAgentAccount`: the external IDs are the user name and the e-mail
      address, in that order, even when empty; no groups, no update time. */
  function AccountOf(identity: Identity): (a: Account)
    ensures a.immutableID == identity.id && a.name == identity.displayName
    ensures |a.ids| == 2 && a.ids[0] == identity.username && a.ids[1] == identity.emailAddress
    ensures a.groups.None? && a.updatedAt.None? && a.birthDate.None?
  {
    Account(identity.id, [identity.username, identity.emailAddress], identity.displayName, None, None, None)
  }

  /** `toDirAgentGroup`: the group's type is the group's kind. */
  function GroupOf(g: ByidGroup): (r: Group)
    ensures r.immutableID == g.id && r.name == g.displayName && r.kind == g.groupType
  {
    Group(g.id, g.displayName, g.groupType)
  }

  /** The groups of a page, in order. */
  function GroupsOf(gs: seq<ByidGroup>): (r: seq<Group>)
    ensures |r| == |gs| && forall k :: 0 <= k < |gs| ==> r[k] == GroupOf(gs[k])
  {
    seq(|gs|, k requires 0 <= k < |gs| => GroupOf(gs[k]))
  }

  /** The groups of pages read one after the other are the groups of their
      concatenation. */
  lemma GroupsOfAppend(a: seq<ByidGroup>, b: seq<ByidGroup>)
    ensures GroupsOf(a + b) == GroupsOf(a) + GroupsOf(b)
  {
  }
}
