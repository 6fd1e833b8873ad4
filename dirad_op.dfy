/** `directory/dirad/op.go`: the AD provider's operation dispatch. */
module DirAdOp {
  import opened Wrappers
  import opened Api
  import opened Directory
  import opened AdClient
  import opened AdPassword
  import opened DirAdOpUnlock
  import opened DirAdOpPassword

  /** `PerformOperation`: GetTemporaryPassword and Unlock go to their handlers with
      the request unchanged; anything else, RemoveAllMFA included, is unsupported
      and runs nothing. */
  method PerformOperation(clientErr: Option<Error>, s: MockClient, req: PerformOperationRequest,
                          parseLocked: string -> Result<bool, Error>,
                          parsePolicy: string -> Result<PasswordPolicy, Error>, generate: int -> Result<string, Error>)
    returns (r: Result<PerformOperationResponse, Error>)
    requires AlwaysHasLength(parsePolicy)
    modifies s
    ensures s.responseMap == old(s.responseMap)
    ensures req.operation == GetTemporaryPassword ==>
      r == PasswordOutcome(clientErr, s.responseMap, req, parsePolicy, generate)
      && s.executed == old(s.executed) + PasswordCommands(clientErr, s.responseMap, req, parsePolicy, generate)
    ensures req.operation == Unlock ==>
      r == UnlockOutcome(clientErr, s.responseMap, req, parseLocked)
      && s.executed == old(s.executed) + UnlockCommands(clientErr, s.responseMap, req, parseLocked)
    ensures req.operation != GetTemporaryPassword && req.operation != Unlock ==>
      r == Err(UnsupportedOperation(req.operation)) && s.executed == old(s.executed)
  {
    match req.operation
    case GetTemporaryPassword =>
      r := PerformGetTemporaryPassword(clientErr, s, req, parsePolicy, generate);
    case Unlock =>
      r := PerformUnlock(clientErr, s, req, parseLocked);
    case _ =>
      r := Err(UnsupportedOperation(req.operation));
  }
}
