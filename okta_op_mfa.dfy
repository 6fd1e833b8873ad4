/** `directory/dirokta/op_mfa.go`: resetting every MFA factor of an Okta user.
    A dry run only checks that the user has a factor to remove. */
module OktaOpMfa {
  import opened Wrappers
  import opened Api
  import opened Directory
  import opened OktaClient
  import opened OktaFilter

  const NoFactorsMessage: string := "no MFA factors to remove"

  /** What the operation answers. A dry run lists the factors (an error is
      returned as the SDK reports it) and refuses a user without any; a real
      run resets the factors without listing them, its error filtered. */
  function MfaResult(clientErr: Option<Error>, listFactors: string -> Result<nat, Failure>,
                     resetFactorsResult: string -> Option<Failure>, sdkText: ApiError -> string,
                     req: PerformOperationRequest): (r: Result<PerformOperationResponse, Error>)
    ensures clientErr.Some? ==> r == Err(clientErr.value)
    ensures clientErr.None? && IsDryRun(req) ==>
      var factors := listFactors(req.accountImmutableID);
      (factors.Err? ==> r == Err(Raw(factors.error, sdkText)))
      && (factors.Ok? && factors.value == 0 ==> r == Err(CodedErr(UnsupportedAccountState, NoFactorsMessage)))
      && (factors.Ok? && factors.value > 0 ==> r == Ok(EmptyOperationResponse))
    ensures clientErr.None? && !IsDryRun(req) ==>
      var err := resetFactorsResult(req.accountImmutableID);
      r == if err.Some? then Err(Filtered(err.value, sdkText)) else Ok(EmptyOperationResponse)
    ensures r.Ok? ==> r.value == EmptyOperationResponse
  {
    if clientErr.Some? then Err(clientErr.value)
    else if IsDryRun(req) then
      var factors := listFactors(req.accountImmutableID);
      if factors.Err? then Err(Raw(factors.error, sdkText))
      else if factors.value == 0 then Err(CodedErr(UnsupportedAccountState, NoFactorsMessage))
      else Ok(EmptyOperationResponse)
    else
      var err := resetFactorsResult(req.accountImmutableID);
      if err.Some? then Err(Filtered(err.value, sdkText)) else Ok(EmptyOperationResponse)
  }

  /** The mutations the operation makes: one reset of the requested user's
      factors, exactly when a client is at hand and this is no dry run. */
  function MfaMutations(clientErr: Option<Error>, req: PerformOperationRequest): (ms: seq<Mutation>)
    ensures |ms| <= 1
    ensures |ms| == 1 <==> clientErr.None? && !IsDryRun(req)
    ensures |ms| == 1 ==> ms[0] == FactorsReset(req.accountImmutableID)
  {
    if clientErr.None? && !IsDryRun(req) then [FactorsReset(req.accountImmutableID)] else []
  }

  /** A dry run depends only on the factor listing and a real run only on
      the reset: a dry run never resets and a real run never lists. */
  lemma DryRunOnlyLists(clientErr: Option<Error>, listFactors: string -> Result<nat, Failure>,
                        listFactors': string -> Result<nat, Failure>,
                        resetFactorsResult: string -> Option<Failure>, resetFactorsResult': string -> Option<Failure>,
                        sdkText: ApiError -> string, req: PerformOperationRequest)
    ensures IsDryRun(req) ==>
      MfaResult(clientErr, listFactors, resetFactorsResult, sdkText, req)
        == MfaResult(clientErr, listFactors, resetFactorsResult', sdkText, req)
    ensures !IsDryRun(req) ==>
      MfaResult(clientErr, listFactors, resetFactorsResult, sdkText, req)
        == MfaResult(clientErr, listFactors', resetFactorsResult, sdkText, req)
  {
  }

  /** `performOperationRemoveAllMfa`. */
  method PerformRemoveAllMfa(clientErr: Option<Error>, c: Client, req: PerformOperationRequest)
    returns (r: Result<PerformOperationResponse, Error>)
    modifies c
    ensures r == MfaResult(clientErr, c.listFactors, c.resetFactorsResult, c.sdkText, req)
    ensures c.mutations == old(c.mutations) + MfaMutations(clientErr, req)
  {
    if clientErr.Some? {
      return Err(clientErr.value);
    }
    if IsDryRun(req) {
      var factors := c.listFactors(req.accountImmutableID);
      if factors.Err? {
        return Err(Raw(factors.error, c.sdkText));
      }
      if factors.value == 0 {
        return Err(CodedErr(UnsupportedAccountState, NoFactorsMessage));
      }
      return Ok(EmptyOperationResponse);
    }
    var err := c.ResetFactors(req.accountImmutableID);
    if err.Some? {
      var filtered := FilterAPIError(err.value, c.sdkText);
      return Err(filtered);
    }
    r := Ok(EmptyOperationResponse);
  }
}
