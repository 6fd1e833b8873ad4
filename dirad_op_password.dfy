/** `directory/dirad/op_password.go`: handing out a temporary AD password. */
module DirAdOpPassword {
  import opened Wrappers
  import opened Api
  import opened Directory
  import opened AdClient
  import opened AdPassword

  /** What the temporary-password operation answers. */
  function PasswordOutcome(clientErr: Option<Error>, m: ResponseMap, req: PerformOperationRequest,
                           parse: string -> Result<PasswordPolicy, Error>, generate: int -> Result<string, Error>)
    : (r: Result<PerformOperationResponse, Error>)
    requires AlwaysHasLength(parse)
    ensures clientErr.Some? ==> r == Err(clientErr.value)
    // a dry run checks nothing beyond the client
    ensures clientErr.None? && IsDryRun(req) ==> r == Ok(EmptyOperationResponse)
    // otherwise the password is exactly the one assigned, and errors pass through
    ensures clientErr.None? && !IsDryRun(req) ==>
      var a := AssignOutcome(m, req.accountImmutableID, parse, generate);
      r == if a.Err? then Err(a.error) else Ok(PerformOperationResponse(Some(a.value), None))
  {
    if clientErr.Some? then Err(clientErr.value)
    else if IsDryRun(req) then Ok(EmptyOperationResponse)
    else
      var a := AssignOutcome(m, req.accountImmutableID, parse, generate);
      if a.Err? then Err(a.error) else Ok(PerformOperationResponse(Some(a.value), None))
  }

  /** The commands it runs: none on a dry run. */
  function PasswordCommands(clientErr: Option<Error>, m: ResponseMap, req: PerformOperationRequest,
                            parse: string -> Result<PasswordPolicy, Error>, generate: int -> Result<string, Error>)
    : (cmds: seq<string>)
    requires AlwaysHasLength(parse)
    ensures clientErr.Some? || IsDryRun(req) ==> cmds == []
    ensures clientErr.None? && !IsDryRun(req) ==> cmds == AssignCommands(m, req.accountImmutableID, parse, generate)
  {
    if clientErr.Some? || IsDryRun(req) then []
    else AssignCommands(m, req.accountImmutableID, parse, generate)
  }

  /** `performOperationGetTemporaryPassword`. */
  method PerformGetTemporaryPassword(clientErr: Option<Error>, s: MockClient, req: PerformOperationRequest,
                                     parse: string -> Result<PasswordPolicy, Error>, generate: int -> Result<string, Error>)
    returns (r: Result<PerformOperationResponse, Error>)
    requires AlwaysHasLength(parse)
    modifies s
    ensures s.responseMap == old(s.responseMap)
    ensures r == PasswordOutcome(clientErr, s.responseMap, req, parse, generate)
    ensures s.executed == old(s.executed) + PasswordCommands(clientErr, s.responseMap, req, parse, generate)
  {
    if clientErr.Some? {
      return Err(clientErr.value);
    }
    if IsDryRun(req) {
      return Ok(EmptyOperationResponse);
    }
    var pw := AssignTemporaryPassword(s, req.accountImmutableID, parse, generate);
    if pw.Err? {
      return Err(pw.error);
    }
    r := Ok(PerformOperationResponse(Some(pw.value), None));
  }
}
