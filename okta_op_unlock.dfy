/** `directory/dirokta/op_unlock.go`: unlocking an Okta user that is locked
    out. */
module OktaOpUnlock {
  import opened Wrappers
  import opened Api
  import opened Directory
  import opened OktaClient
  import opened OktaFilter

  const LockedOut: string := "LOCKED_OUT"
  const NotLockedMessage: string := "account is not locked"

  /** The user the operation acts on, or why there is none: the client's
      error, the lookup's error as the SDK reports it, or a user that is not
      locked out. */
  function LockedUser(clientErr: Option<Error>, getUser: string -> Result<User, Failure>,
                      sdkText: ApiError -> string, req: PerformOperationRequest): (r: Result<User, Error>)
    ensures clientErr.Some? ==> r == Err(clientErr.value)
    ensures clientErr.None? && getUser(req.accountImmutableID).Err? ==>
      r == Err(Raw(getUser(req.accountImmutableID).error, sdkText))
    ensures clientErr.None? && getUser(req.accountImmutableID).Ok? ==>
      if getUser(req.accountImmutableID).value.status == LockedOut then r == Ok(getUser(req.accountImmutableID).value)
      else r == Err(CodedErr(UnsupportedAccountState, NotLockedMessage))
    ensures r.Ok? ==> r.value.status == LockedOut
  {
    if clientErr.Some? then Err(clientErr.value)
    else
      var u := getUser(req.accountImmutableID);
      if u.Err? then Err(Raw(u.error, sdkText))
      else if u.value.status != LockedOut then Err(CodedErr(UnsupportedAccountState, NotLockedMessage))
      else Ok(u.value)
  }

  /** What the operation answers: a dry run stops once the user is known to be
      locked out; otherwise the unlock's error, filtered, if any. */
  function UnlockResult(clientErr: Option<Error>, getUser: string -> Result<User, Failure>,
                        unlockResult: string -> Option<Failure>, sdkText: ApiError -> string,
                        req: PerformOperationRequest): (r: Result<PerformOperationResponse, Error>)
    ensures LockedUser(clientErr, getUser, sdkText, req).Err? ==> r == Err(LockedUser(clientErr, getUser, sdkText, req).error)
    ensures LockedUser(clientErr, getUser, sdkText, req).Ok? && IsDryRun(req) ==> r == Ok(EmptyOperationResponse)
    ensures LockedUser(clientErr, getUser, sdkText, req).Ok? && !IsDryRun(req) ==>
      var err := unlockResult(req.accountImmutableID);
      r == if err.Some? then Err(Filtered(err.value, sdkText)) else Ok(EmptyOperationResponse)
    ensures r.Ok? ==> r.value == EmptyOperationResponse
  {
    var locked := LockedUser(clientErr, getUser, sdkText, req);
    if locked.Err? then Err(locked.error)
    else if IsDryRun(req) then Ok(EmptyOperationResponse)
    else
      var err := unlockResult(req.accountImmutableID);
      if err.Some? then Err(Filtered(err.value, sdkText)) else Ok(EmptyOperationResponse)
  }

  /** The mutations the operation makes: one unlock of the requested user,
      exactly when that user is locked out and this is no dry run. */
  function UnlockMutations(clientErr: Option<Error>, getUser: string -> Result<User, Failure>,
                           sdkText: ApiError -> string, req: PerformOperationRequest): (ms: seq<Mutation>)
    ensures |ms| <= 1
    ensures |ms| == 1 <==> LockedUser(clientErr, getUser, sdkText, req).Ok? && !IsDryRun(req)
    ensures |ms| == 1 ==> ms[0] == Unlocked(req.accountImmutableID)
  {
    if LockedUser(clientErr, getUser, sdkText, req).Ok? && !IsDryRun(req) then [Unlocked(req.accountImmutableID)] else []
  }

  /** A user that is not locked out is refused the same way with or without a
      dry run, and nothing is changed for it. */
  lemma NotLockedIgnoresDryRun(clientErr: Option<Error>, getUser: string -> Result<User, Failure>,
                               unlockResult: string -> Option<Failure>, sdkText: ApiError -> string,
                               req: PerformOperationRequest)
    requires clientErr.None? && getUser(req.accountImmutableID).Ok?
    requires getUser(req.accountImmutableID).value.status != LockedOut
    ensures forall dry: Option<bool> ::
      UnlockResult(clientErr, getUser, unlockResult, sdkText, req.(dryRun := dry))
        == Err(CodedErr(UnsupportedAccountState, NotLockedMessage))
      && UnlockMutations(clientErr, getUser, sdkText, req.(dryRun := dry)) == []
  {
    forall dry: Option<bool> ensures LockedUser(clientErr, getUser, sdkText, req.(dryRun := dry)) == LockedUser(clientErr, getUser, sdkText, req) {
    }
  }

  /** `performOperationUnlock`. */
  method PerformUnlock(clientErr: Option<Error>, c: Client, req: PerformOperationRequest)
    returns (r: Result<PerformOperationResponse, Error>)
    modifies c
    ensures r == UnlockResult(clientErr, c.getUser, c.unlockResult, c.sdkText, req)
    ensures c.mutations == old(c.mutations) + UnlockMutations(clientErr, c.getUser, c.sdkText, req)
  {
    if clientErr.Some? {
      return Err(clientErr.value);
    }
    var u := c.getUser(req.accountImmutableID);
    if u.Err? {
      return Err(Raw(u.error, c.sdkText));
    }
    if u.value.status != LockedOut {
      return Err(CodedErr(UnsupportedAccountState, NotLockedMessage));
    }
    if IsDryRun(req) {
      return Ok(EmptyOperationResponse);
    }
    var err := c.UnlockUser(req.accountImmutableID);
    if err.Some? {
      var filtered := FilterAPIError(err.value, c.sdkText);
      return Err(filtered);
    }
    r := Ok(EmptyOperationResponse);
  }
}
