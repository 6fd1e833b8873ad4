/** `directory/dirldap/dirldap.go`: the LDAP client interface the LDAP provider
    talks to. The model runs every operation against `Client`, a stub whose
    searches are answered by a fixed function and which records every search
    and every modification it was asked for. */
module LdapClient {
  import opened Wrappers
  import opened Directory
  import opened Base64
  import opened Text

  /** The provider's configuration (`config.LDAPConfig`), the fields the core reads. */
  datatype Config = Config(baseDN: string, pageSize: int, defaultPasswordPolicyDN: string)

  /** `ldap.ScopeWholeSubtree` and `ldap.ScopeBaseObject`. */
  datatype Scope = WholeSubtree | BaseObject

  /** The simple paged results control of a search request: the page size and
      the cookie of the page to continue from (empty for the first page). */
  datatype PagingRequest = PagingRequest(size: int, cookie: seq<Byte>)

  /** `ldap.SearchRequest`, the fields the providers set; aliases are never
      dereferenced and there are no size or time limits. */
  datatype SearchRequest = SearchRequest(
    baseDN: string,
    scope: Scope,
    filter: string,
    attributes: seq<string>,
    paging: Option<PagingRequest>)

  /** `ldap.Entry`: its DN and its attributes, each with its values. */
  datatype Entry = Entry(dn: string, attributes: map<string, seq<string>>)

  /** `entry.GetAttributeValue(name)`: the first value of the attribute, or ""
      when the entry has no value for it. */
  function AttributeValue(e: Entry, name: string): (v: string)
    ensures name !in e.attributes ==> v == ""
    ensures name in e.attributes && |e.attributes[name]| > 0 ==> v == e.attributes[name][0]
  {
    if name in e.attributes && |e.attributes[name]| > 0 then e.attributes[name][0] else ""
  }

  /** A response control: the paged results control with the server's cookie,
      or any other control. */
  datatype Control = Paging(cookie: seq<Byte>) | OtherControl(oid: string)

  /** `ldap.SearchResult`. A nil `Entries` slice is `None`. */
  datatype SearchResult = SearchResult(entries: Option<seq<Entry>>, controls: seq<Control>)

  /** `len(result.Entries)`: a nil slice has length 0. */
  function EntryCount(r: SearchResult): (n: nat)
    ensures r.entries.None? ==> n == 0
    ensures r.entries.Some? ==> n == |r.entries.value|
  {
    if r.entries.None? then 0 else |r.entries.value|
  }

  /** One change of a modify request: delete an attribute's values, or replace
      them. */
  datatype Change = DeleteValues(attribute: string, values: seq<string>) | ReplaceValues(attribute: string, values: seq<string>)

  /** The password policy request control (OID 1.3.6.1.4.1.42.2.27.8.5.1),
      marked critical and without a value. */
  const PasswordPolicyControl: string := "1.3.6.1.4.1.42.2.27.8.5.1"

  /** `ldap.ModifyRequest`: the entry, its changes in order, and the OIDs of its
      critical controls. */
  datatype ModifyRequest = ModifyRequest(dn: string, changes: seq<Change>, controls: seq<string>)

  /** The search the operations start with: the one entry whose `entryUUID`
      is the account's immutable ID, with one attribute. The ID goes into the
      filter unescaped. */
  function UserSearch(config: Config, immutableID: string, attribute: string): SearchRequest {
    SearchRequest(config.baseDN, WholeSubtree, "(entryUUID=" + immutableID + ")", [attribute], None)
  }

  function CountError(n: nat): Error {
    Plain("expected exactly one result, got " + Itoa(n))
  }

  /** The user entry of a search, corrected: anything but exactly one entry,
      a nil result included, is an error. */
  function SingleEntry(r: SearchResult): (e: Result<Entry, Error>)
    ensures e.Ok? <==> EntryCount(r) == 1
    ensures e.Ok? ==> e.value == r.entries.value[0]
    ensures e.Err? ==> e.error == CountError(EntryCount(r))
  {
    if EntryCount(r) != 1 then Err(CountError(EntryCount(r))) else Ok(r.entries.value[0])
  }

  /** The user entry as written (`Entries != nil && len(Entries) != 1`, then
      `Entries[0]`): a nil result passes the check and the indexing panics. */
  function SingleEntryAsWritten(r: SearchResult): Outcome<Entry> {
    if r.entries.Some? && |r.entries.value| != 1 then Finished(Err(CountError(|r.entries.value|)))
    else if r.entries.None? then Panicked
    else Finished(Ok(r.entries.value[0]))
  }

  /** The as-written check panics on exactly the nil result, and agrees with
      the corrected one on every other result. */
  lemma SingleEntryAsWrittenPanicsOnNil(r: SearchResult)
    ensures SingleEntryAsWritten(r).Panicked? <==> r.entries.None?
    ensures r.entries.Some? ==> SingleEntryAsWritten(r) == Finished(SingleEntry(r))
    ensures r.entries.None? ==> SingleEntry(r) == Err(CountError(0))
  {
  }

  const CouldNotGetClient: string := "could not get client from provider: "

  /** The `Client` interface, as a stub: `search` answers every search,
      `modifyResult` every modification, and the two logs record what the
      provider asked for, in order. */
  class Client {
    const search: SearchRequest -> Result<SearchResult, Error>
    const modifyResult: ModifyRequest -> Option<Error>
    var searches: seq<SearchRequest>
    var modified: seq<ModifyRequest>

    constructor (search: SearchRequest -> Result<SearchResult, Error>, modifyResult: ModifyRequest -> Option<Error>)
      ensures this.search == search && this.modifyResult == modifyResult
      ensures searches == [] && modified == []
    {
      this.search := search;
      this.modifyResult := modifyResult;
      searches := [];
      modified := [];
    }

    /** `Search`: the canned answer; the search is recorded. */
    method Search(req: SearchRequest) returns (r: Result<SearchResult, Error>)
      modifies this
      ensures r == search(req)
      ensures searches == old(searches) + [req] && modified == old(modified)
    {
      searches := searches + [req];
      r := search(req);
    }

    /** `Modify`: the canned answer; the modification is recorded. */
    method Modify(req: ModifyRequest) returns (err: Option<Error>)
      modifies this
      ensures err == modifyResult(req)
      ensures modified == old(modified) + [req] && searches == old(searches)
    {
      modified := modified + [req];
      err := modifyResult(req);
    }
  }
}
