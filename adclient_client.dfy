/** `directory/dirad/adclient/client.go`: the PowerShell client interface of the
    Active Directory provider. The model runs every AD command against
    `MockClient`, the map-backed stub of the source, extended with a ghost log
    of the commands it was asked to run. */
module AdClient {
  import opened Wrappers
  import opened Directory

  /** The number of users or groups on one page. */
  const DefaultPageSize: int := 250

  /** A canned answer to one command: its standard output, or an error. */
  datatype Response = Response(stdout: string, err: Option<Error>)

  /** `MockClient.ResponseMap`; a nil map is `None`. */
  type ResponseMap = Option<map<string, Response>>

  const NoResponsesText: string := "no mock responses defined"

  function NoResponseForText(cmd: string): string {
    "no mock responses defined for command: " + cmd
  }

  /** What `Execute` answers for a command, given the response map. */
  function Lookup(m: ResponseMap, cmd: string): (r: Result<string, Error>)
    ensures m.None? ==> r == Err(Plain(NoResponsesText))
    ensures m.Some? && cmd !in m.value ==> r == Err(Plain(NoResponseForText(cmd)))
    ensures m.Some? && cmd in m.value && m.value[cmd].err.Some? ==> r == Err(m.value[cmd].err.value)
    ensures m.Some? && cmd in m.value && m.value[cmd].err.None? ==> r == Ok(m.value[cmd].stdout)
  {
    match m
    case None => Err(Plain(NoResponsesText))
    case Some(rm) =>
      if cmd !in rm then Err(Plain(NoResponseForText(cmd)))
      else if rm[cmd].err.Some? then Err(rm[cmd].err.value)
      else Ok(rm[cmd].stdout)
  }

  /** A successful lookup always comes from a mapped response without an error. */
  lemma LookupOkMeansMapped(m: ResponseMap, cmd: string)
    ensures Lookup(m, cmd).Ok? <==> m.Some? && cmd in m.value && m.value[cmd].err.None?
  {
  }

  class MockClient {
    var responseMap: ResponseMap
    /** Every command `Execute` was called with, in order. */
    ghost var executed: seq<string>

    constructor (m: ResponseMap)
      ensures responseMap == m && executed == []
    {
      responseMap := m;
      executed := [];
    }

    /** `Execute`: the canned response, and the map is left as it was. */
    method Execute(cmd: string) returns (r: Result<string, Error>)
      modifies this
      ensures r == Lookup(responseMap, cmd)
      ensures responseMap == old(responseMap)
      ensures executed == old(executed) + [cmd]
    {
      executed := executed + [cmd];
      r := Lookup(responseMap, cmd);
    }
  }
}
