/** `directory/dirokta/op_password.go`: a password reset link for an Okta
    user, asked for without Okta e-mailing the user. */
module OktaOpPassword {
  import opened Wrappers
  import opened Api
  import opened Directory
  import opened OktaClient
  import opened OktaFilter

  /** What the operation answers: nothing for a dry run; otherwise the reset
      URL as the password link, or the reset's error, filtered. */
  function PasswordLinkResult(clientErr: Option<Error>, resetPassword: string -> Result<string, Failure>,
                              sdkText: ApiError -> string, req: PerformOperationRequest)
    : (r: Result<PerformOperationResponse, Error>)
    ensures clientErr.Some? ==> r == Err(clientErr.value)
    ensures clientErr.None? && IsDryRun(req) ==> r == Ok(EmptyOperationResponse)
    ensures clientErr.None? && !IsDryRun(req) ==>
      var reset := resetPassword(req.accountImmutableID);
      (reset.Err? ==> r == Err(Filtered(reset.error, sdkText)))
      && (reset.Ok? ==> r == Ok(PerformOperationResponse(None, Some(reset.value))))
    ensures r.Ok? ==> r.value.temporaryPassword.None?
  {
    if clientErr.Some? then Err(clientErr.value)
    else if IsDryRun(req) then Ok(EmptyOperationResponse)
    else
      var reset := resetPassword(req.accountImmutableID);
      if reset.Err? then Err(Filtered(reset.error, sdkText))
      else Ok(PerformOperationResponse(None, Some(reset.value)))
  }

  /** The mutations the operation makes: one password reset of the requested
      user, never e-mailed, exactly when a client is at hand and this is no
      dry run. */
  function PasswordMutations(clientErr: Option<Error>, req: PerformOperationRequest): (ms: seq<Mutation>)
    ensures |ms| <= 1
    ensures |ms| == 1 <==> clientErr.None? && !IsDryRun(req)
    ensures |ms| == 1 ==> ms[0] == PasswordReset(req.accountImmutableID, false)
  {
    if clientErr.None? && !IsDryRun(req) then [PasswordReset(req.accountImmutableID, false)] else []
  }

  /** A link is answered exactly when a reset was made and succeeded, and it
      is the URL that reset returned. */
  lemma LinkOnlyFromReset(clientErr: Option<Error>, resetPassword: string -> Result<string, Failure>,
                          sdkText: ApiError -> string, req: PerformOperationRequest)
    ensures var r := PasswordLinkResult(clientErr, resetPassword, sdkText, req);
      (r.Ok? && r.value.passwordLink.Some?)
        <==> (|PasswordMutations(clientErr, req)| == 1 && resetPassword(req.accountImmutableID).Ok?)
    ensures var r := PasswordLinkResult(clientErr, resetPassword, sdkText, req);
      r.Ok? && r.value.passwordLink.Some? ==> r.value.passwordLink.value == resetPassword(req.accountImmutableID).value
  {
  }

  /** `performOperationGetPasswordLink`. */
  method PerformGetPasswordLink(clientErr: Option<Error>, c: Client, req: PerformOperationRequest)
    returns (r: Result<PerformOperationResponse, Error>)
    modifies c
    ensures r == PasswordLinkResult(clientErr, c.resetPassword, c.sdkText, req)
    ensures c.mutations == old(c.mutations) + PasswordMutations(clientErr, req)
  {
    if clientErr.Some? {
      return Err(clientErr.value);
    }
    if IsDryRun(req) {
      return Ok(EmptyOperationResponse);
    }
    var reset := c.ResetPassword(req.accountImmutableID, false);
    if reset.Err? {
      var filtered := FilterAPIError(reset.error, c.sdkText);
      return Err(filtered);
    }
    r := Ok(PerformOperationResponse(None, Some(reset.value)));
  }
}
