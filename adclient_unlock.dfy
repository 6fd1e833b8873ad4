/** `directory/dirad/adclient/unlock.go`: reading a user's lockout state and
    unlocking the account. */
module AdUnlock {
  import opened Wrappers
  import opened Directory
  import opened AdClient

  const LockedHead: string := "Get-ADUser -Identity "
  const LockedTail: string := " -Properties LockedOut | Select-Object LockedOut | ConvertTo-Json"
  const UnlockHead: string := "Unlock-ADAccount -Identity "

  function LockedCommand(immutableID: string): string {
    LockedHead + immutableID + LockedTail
  }

  function UnlockCommand(immutableID: string): string {
    UnlockHead + immutableID
  }

  /** The lockout query and the unlock command are never the same command. */
  lemma CommandsDiffer(a: string, b: string)
    ensures LockedCommand(a) != UnlockCommand(b)
  {
    assert LockedHead[0] == 'G' && UnlockHead[0] == 'U';
    assert LockedCommand(a)[0] == 'G' && UnlockCommand(b)[0] == 'U';
  }

  /** What `IsAccountLocked` answers: the lockout flag, or the query's or the decoding's error. */
  function LockedOutcome(m: ResponseMap, immutableID: string,
                         parse: string -> Result<bool, Error>): (r: Result<bool, Error>)
    ensures Lookup(m, LockedCommand(immutableID)).Err? ==> r == Err(Lookup(m, LockedCommand(immutableID)).error)
    ensures Lookup(m, LockedCommand(immutableID)).Ok? ==> r == parse(Lookup(m, LockedCommand(immutableID)).value)
  {
    var out := Lookup(m, LockedCommand(immutableID));
    if out.Err? then Err(out.error) else parse(out.value)
  }

  /** `IsAccountLocked`; `parse` decodes the JSON and reads `LockedOut`. */
  method IsAccountLocked(s: MockClient, immutableID: string, parse: string -> Result<bool, Error>)
    returns (r: Result<bool, Error>)
    modifies s
    ensures s.responseMap == old(s.responseMap)
    ensures r == LockedOutcome(s.responseMap, immutableID, parse)
    ensures s.executed == old(s.executed) + [LockedCommand(immutableID)]
  {
    var out := s.Execute(LockedCommand(immutableID));
    if out.Err? {
      return Err(out.error);
    }
    r := parse(out.value);
  }

  /** `UnlockAccount`: the command's error, if any. */
  method UnlockAccount(s: MockClient, immutableID: string) returns (err: Option<Error>)
    modifies s
    ensures s.responseMap == old(s.responseMap)
    ensures var out := Lookup(s.responseMap, UnlockCommand(immutableID));
      err == if out.Err? then Some(out.error) else None
    ensures s.executed == old(s.executed) + [UnlockCommand(immutableID)]
  {
    var out := s.Execute(UnlockCommand(immutableID));
    err := if out.Err? then Some(out.error) else None;
  }
}
