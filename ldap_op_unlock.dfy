/** `directory/dirldap/op_unlock.go`: unlocking an LDAP account by deleting its
    `pwdAccountLockedTime` attribute under the password policy control. */
module LdapOpUnlock {
  import opened Wrappers
  import opened Api
  import opened Directory
  import opened LdapClient

  const LockedAttribute: string := "pwdAccountLockedTime"
  const NotLockedMessage: string := "account is not locked"
  const FailedSearch: string := "failed to search for user: "
  const FailedUnlock: string := "failed to unlock account: "

  /** The modification that unlocks the entry. */
  function UnlockModify(dn: string): ModifyRequest {
    ModifyRequest(dn, [DeleteValues(LockedAttribute, [])], [PasswordPolicyControl])
  }

  /** The locked entry the operation acts on, or why there is none: the
      client's error, the search's, the wrong number of entries, or an entry
      that is not locked. */
  function LockedEntry(clientErr: Option<Error>, config: Config, req: PerformOperationRequest,
                       search: SearchRequest -> Result<SearchResult, Error>): (r: Result<Entry, Error>)
    ensures clientErr.Some? ==> r == Err(Wrapped(CouldNotGetClient, clientErr.value))
    ensures clientErr.None? ==>
      var res := search(UserSearch(config, req.accountImmutableID, LockedAttribute));
      (res.Err? ==> r == Err(Wrapped(FailedSearch, res.error)))
      && (res.Ok? && SingleEntry(res.value).Err? ==> r == Err(SingleEntry(res.value).error))
      && (res.Ok? && SingleEntry(res.value).Ok? ==>
            var e := SingleEntry(res.value).value;
            if AttributeValue(e, LockedAttribute) == "" then r == Err(CodedErr(UnsupportedAccountState, NotLockedMessage))
            else r == Ok(e))
    ensures r.Ok? ==> AttributeValue(r.value, LockedAttribute) != ""
  {
    if clientErr.Some? then Err(Wrapped(CouldNotGetClient, clientErr.value))
    else
      var res := search(UserSearch(config, req.accountImmutableID, LockedAttribute));
      if res.Err? then Err(Wrapped(FailedSearch, res.error))
      else
        var e := SingleEntry(res.value);
        if e.Err? then Err(e.error)
        else if AttributeValue(e.value, LockedAttribute) == "" then Err(CodedErr(UnsupportedAccountState, NotLockedMessage))
        else Ok(e.value)
  }

  /** What the unlock operation answers: a dry run stops once the entry is
      known to be locked; otherwise the modification's error, if any. */
  function UnlockResult(clientErr: Option<Error>, config: Config, req: PerformOperationRequest,
                        search: SearchRequest -> Result<SearchResult, Error>,
                        modifyResult: ModifyRequest -> Option<Error>): (r: Result<PerformOperationResponse, Error>)
    ensures LockedEntry(clientErr, config, req, search).Err? ==> r == Err(LockedEntry(clientErr, config, req, search).error)
    ensures LockedEntry(clientErr, config, req, search).Ok? && IsDryRun(req) ==> r == Ok(EmptyOperationResponse)
    ensures LockedEntry(clientErr, config, req, search).Ok? && !IsDryRun(req) ==>
      var err := modifyResult(UnlockModify(LockedEntry(clientErr, config, req, search).value.dn));
      r == if err.Some? then Err(Wrapped(FailedUnlock, err.value)) else Ok(EmptyOperationResponse)
    ensures r.Ok? ==> r.value == EmptyOperationResponse
  {
    var locked := LockedEntry(clientErr, config, req, search);
    if locked.Err? then Err(locked.error)
    else if IsDryRun(req) then Ok(EmptyOperationResponse)
    else
      var err := modifyResult(UnlockModify(locked.value.dn));
      if err.Some? then Err(Wrapped(FailedUnlock, err.value)) else Ok(EmptyOperationResponse)
  }

  /** The modifications the operation sends: one, deleting the lock time of
      the entry found, exactly when that entry is locked and this is no dry
      run. */
  function UnlockModifications(clientErr: Option<Error>, config: Config, req: PerformOperationRequest,
                               search: SearchRequest -> Result<SearchResult, Error>): (mods: seq<ModifyRequest>)
    ensures |mods| <= 1
    ensures |mods| == 1 <==> LockedEntry(clientErr, config, req, search).Ok? && !IsDryRun(req)
    ensures |mods| == 1 ==> mods[0] == UnlockModify(LockedEntry(clientErr, config, req, search).value.dn)
  {
    var locked := LockedEntry(clientErr, config, req, search);
    if locked.Ok? && !IsDryRun(req) then [UnlockModify(locked.value.dn)] else []
  }

  /** An account that is not locked is refused the same way with or without
      a dry run, and nothing is modified for it. */
  lemma NotLockedIgnoresDryRun(clientErr: Option<Error>, config: Config, req: PerformOperationRequest,
                               search: SearchRequest -> Result<SearchResult, Error>,
                               modifyResult: ModifyRequest -> Option<Error>)
    requires LockedEntry(clientErr, config, req, search) == Err(CodedErr(UnsupportedAccountState, NotLockedMessage))
    ensures forall dry: Option<bool> ::
      UnlockResult(clientErr, config, req.(dryRun := dry), search, modifyResult)
        == Err(CodedErr(UnsupportedAccountState, NotLockedMessage))
      && UnlockModifications(clientErr, config, req.(dryRun := dry), search) == []
  {
    forall dry: Option<bool> ensures LockedEntry(clientErr, config, req.(dryRun := dry), search) == LockedEntry(clientErr, config, req, search) {
    }
  }

  /** A successful operation that was no dry run sent exactly one
      modification. */
  lemma SuccessModifiedOnce(clientErr: Option<Error>, config: Config, req: PerformOperationRequest,
                            search: SearchRequest -> Result<SearchResult, Error>,
                            modifyResult: ModifyRequest -> Option<Error>)
    requires UnlockResult(clientErr, config, req, search, modifyResult).Ok? && !IsDryRun(req)
    ensures |UnlockModifications(clientErr, config, req, search)| == 1
  {
  }

  /** `performOperationUnlock`, with the nil-result check corrected. */
  method PerformUnlock(clientErr: Option<Error>, c: Client, config: Config, req: PerformOperationRequest)
    returns (r: Result<PerformOperationResponse, Error>)
    modifies c
    ensures r == UnlockResult(clientErr, config, req, c.search, c.modifyResult)
    ensures c.modified == old(c.modified) + UnlockModifications(clientErr, config, req, c.search)
    ensures c.searches == old(c.searches) + (if clientErr.Some? then [] else [UserSearch(config, req.accountImmutableID, LockedAttribute)])
  {
    if clientErr.Some? {
      return Err(Wrapped(CouldNotGetClient, clientErr.value));
    }
    var result := c.Search(UserSearch(config, req.accountImmutableID, LockedAttribute));
    if result.Err? {
      return Err(Wrapped(FailedSearch, result.error));
    }
    var entry := SingleEntry(result.value);
    if entry.Err? {
      return Err(entry.error);
    }
    var userEntry := entry.value;
    if AttributeValue(userEntry, LockedAttribute) == "" {
      return Err(CodedErr(UnsupportedAccountState, NotLockedMessage));
    }
    if IsDryRun(req) {
      return Ok(EmptyOperationResponse);
    }
    var err := c.Modify(UnlockModify(userEntry.dn));
    if err.Some? {
      return Err(Wrapped(FailedUnlock, err.value));
    }
    r := Ok(EmptyOperationResponse);
  }
}
