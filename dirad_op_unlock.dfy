/** `directory/dirad/op_unlock.go`: unlocking an AD account. */
module DirAdOpUnlock {
  import opened Wrappers
  import opened Api
  import opened Directory
  import opened AdClient
  import opened AdUnlock

  const NotLockedMessage: string := "account is not locked"

  /** What the unlock operation answers. `clientErr` is the failure of obtaining
      the PowerShell client; `parse` reads `LockedOut` from the JSON. */
  function UnlockOutcome(clientErr: Option<Error>, m: ResponseMap, req: PerformOperationRequest,
                         parse: string -> Result<bool, Error>): (r: Result<PerformOperationResponse, Error>)
    // failing to get the client or the lock state is returned first
    ensures clientErr.Some? ==> r == Err(clientErr.value)
    ensures clientErr.None? && LockedOutcome(m, req.accountImmutableID, parse).Err?
            ==> r == Err(LockedOutcome(m, req.accountImmutableID, parse).error)
    // an account that is not locked is refused, dry run or not
    ensures clientErr.None? && LockedOutcome(m, req.accountImmutableID, parse) == Ok(false)
            ==> r == Err(CodedErr(UnsupportedAccountState, NotLockedMessage))
    // a dry run on a locked account succeeds with an empty response
    ensures clientErr.None? && LockedOutcome(m, req.accountImmutableID, parse) == Ok(true) && IsDryRun(req)
            ==> r == Ok(EmptyOperationResponse)
    // otherwise the answer is the unlock command's
    ensures clientErr.None? && LockedOutcome(m, req.accountImmutableID, parse) == Ok(true) && !IsDryRun(req)
            ==> r == (if Lookup(m, UnlockCommand(req.accountImmutableID)).Err?
                      then Err(Lookup(m, UnlockCommand(req.accountImmutableID)).error)
                      else Ok(EmptyOperationResponse))
  {
    if clientErr.Some? then Err(clientErr.value)
    else
      var locked := LockedOutcome(m, req.accountImmutableID, parse);
      if locked.Err? then Err(locked.error)
      else if !locked.value then Err(CodedErr(UnsupportedAccountState, NotLockedMessage))
      else if IsDryRun(req) then Ok(EmptyOperationResponse)
      else
        var out := Lookup(m, UnlockCommand(req.accountImmutableID));
        if out.Err? then Err(out.error) else Ok(EmptyOperationResponse)
  }

  /** The commands the unlock operation runs. */
  function UnlockCommands(clientErr: Option<Error>, m: ResponseMap, req: PerformOperationRequest,
                          parse: string -> Result<bool, Error>): (cmds: seq<string>)
    ensures clientErr.Some? ==> cmds == []
    ensures clientErr.None? ==> |cmds| >= 1 && cmds[0] == LockedCommand(req.accountImmutableID)
    // the unlock command runs once, exactly for a locked account outside a dry run
    ensures UnlockCommand(req.accountImmutableID) in cmds <==>
      clientErr.None? && LockedOutcome(m, req.accountImmutableID, parse) == Ok(true) && !IsDryRun(req)
    ensures |cmds| <= 2
  {
    CommandsDiffer(req.accountImmutableID, req.accountImmutableID);
    if clientErr.Some? then []
    else if LockedOutcome(m, req.accountImmutableID, parse) == Ok(true) && !IsDryRun(req)
    then [LockedCommand(req.accountImmutableID), UnlockCommand(req.accountImmutableID)]
    else [LockedCommand(req.accountImmutableID)]
  }

  /** `performOperationUnlock`. */
  method PerformUnlock(clientErr: Option<Error>, s: MockClient, req: PerformOperationRequest,
                       parse: string -> Result<bool, Error>)
    returns (r: Result<PerformOperationResponse, Error>)
    modifies s
    ensures s.responseMap == old(s.responseMap)
    ensures r == UnlockOutcome(clientErr, s.responseMap, req, parse)
    ensures s.executed == old(s.executed) + UnlockCommands(clientErr, s.responseMap, req, parse)
  {
    if clientErr.Some? {
      return Err(clientErr.value);
    }
    var locked := IsAccountLocked(s, req.accountImmutableID, parse);
    if locked.Err? {
      return Err(locked.error);
    }
    if !locked.value {
      return Err(CodedErr(UnsupportedAccountState, NotLockedMessage));
    }
    if IsDryRun(req) {
      return Ok(EmptyOperationResponse);
    }
    var err := UnlockAccount(s, req.accountImmutableID);
    if err.Some? {
      return Err(err.value);
    }
    r := Ok(EmptyOperationResponse);
  }
}
