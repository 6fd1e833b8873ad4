/** `PerformOperation` of `directory/dirokta/op.go`: the Okta provider's
    operation dispatch. */
module OktaOp {
  import opened Wrappers
  import opened Api
  import opened Directory
  import opened OktaClient
  import opened OktaOpUnlock
  import opened OktaOpMfa
  import opened OktaOpPassword

  /** What a request is answered with: GetPasswordLink, RemoveAllMFA and
      Unlock by their handlers, anything else as unsupported. */
  function OperationResult(clientErr: Option<Error>, c: Client, req: PerformOperationRequest)
    : (r: Result<PerformOperationResponse, Error>)
    ensures req.operation == GetPasswordLink ==> r == PasswordLinkResult(clientErr, c.resetPassword, c.sdkText, req)
    ensures req.operation == RemoveAllMFA ==> r == MfaResult(clientErr, c.listFactors, c.resetFactorsResult, c.sdkText, req)
    ensures req.operation == Unlock ==> r == UnlockResult(clientErr, c.getUser, c.unlockResult, c.sdkText, req)
    ensures req.operation !in {GetPasswordLink, RemoveAllMFA, Unlock} ==> r == Err(UnsupportedOperation(req.operation))
  {
    match req.operation
    case GetPasswordLink => PasswordLinkResult(clientErr, c.resetPassword, c.sdkText, req)
    case RemoveAllMFA => MfaResult(clientErr, c.listFactors, c.resetFactorsResult, c.sdkText, req)
    case Unlock => UnlockResult(clientErr, c.getUser, c.unlockResult, c.sdkText, req)
    case _ => Err(UnsupportedOperation(req.operation))
  }

  /** The mutations a request makes: those of its handler; none for an
      unsupported operation. */
  function OperationMutations(clientErr: Option<Error>, c: Client, req: PerformOperationRequest): (ms: seq<Mutation>)
    ensures |ms| <= 1
    ensures forall k :: 0 <= k < |ms| ==> ms[k].userID == req.accountImmutableID
  {
    match req.operation
    case GetPasswordLink => PasswordMutations(clientErr, req)
    case RemoveAllMFA => MfaMutations(clientErr, req)
    case Unlock => UnlockMutations(clientErr, c.getUser, c.sdkText, req)
    case _ => []
  }

  /** A dry run changes nothing in Okta, whatever the operation. */
  lemma DryRunChangesNothing(clientErr: Option<Error>, c: Client, req: PerformOperationRequest)
    requires IsDryRun(req)
    ensures OperationMutations(clientErr, c, req) == []
  {
  }

  /** A request that succeeded and was no dry run of a supported operation
      changed exactly the requested user once. */
  lemma SuccessChangesOnce(clientErr: Option<Error>, c: Client, req: PerformOperationRequest)
    requires OperationResult(clientErr, c, req).Ok? && !IsDryRun(req)
    ensures |OperationMutations(clientErr, c, req)| == 1
  {
  }

  /** `PerformOperation`. */
  method PerformOperation(clientErr: Option<Error>, c: Client, req: PerformOperationRequest)
    returns (r: Result<PerformOperationResponse, Error>)
    modifies c
    ensures r == OperationResult(clientErr, c, req)
    ensures c.mutations == old(c.mutations) + OperationMutations(clientErr, c, req)
  {
    match req.operation
    case GetPasswordLink =>
      r := PerformGetPasswordLink(clientErr, c, req);
    case RemoveAllMFA =>
      r := PerformRemoveAllMfa(clientErr, c, req);
    case Unlock =>
      r := PerformUnlock(clientErr, c, req);
    case _ =>
      r := Err(UnsupportedOperation(req.operation));
  }
}
