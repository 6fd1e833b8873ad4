/** `directory/dirldap/op_password.go`: setting a generated temporary password
    whose length is the minimum of the password policy that applies to the
    user, and flagging it for a change at the next login. */
module LdapOpPassword {
  import opened Wrappers
  import opened Text
  import opened Api
  import opened Directory
  import opened LdapClient

  /** The length used when neither the user nor the configuration names a
      password policy. */
  const DefaultPasswordLength: int := 6

  const PolicyAttribute: string := "pwdPolicySubentry"
  const MinLengthAttribute: string := "pwdMinLength"
  const PolicyAttributes: seq<string> :=
    [MinLengthAttribute, "pwdAllowUserChange", "pwdMaxFailure", "pwdLockoutDuration", "pwdFailureCountInterval"]

  const FailedUser: string := "failed to fetch user: "
  const FailedPolicy: string := "failed to fetch password policy: "
  const MissingMinLength: string := "failed to fetch password policy: missing pwdMinLength attribute"
  const FailedParse: string := "failed to parse pwdMinLength: "
  const FailedGenerate: string := "failed to generate password: "
  const FailedModify: string := "failed to modify password and set reset flag: "

  /** The policy that applies: the user's own, else the configured default,
      else none. */
  function PolicyDN(userPolicyDN: string, defaultDN: string): (dn: Option<string>)
    ensures dn.None? <==> userPolicyDN == "" && defaultDN == ""
    ensures userPolicyDN != "" ==> dn == Some(userPolicyDN)
    ensures userPolicyDN == "" && defaultDN != "" ==> dn == Some(defaultDN)
    ensures dn.Some? ==> dn.value != ""
  {
    if userPolicyDN == "" && defaultDN == "" then None
    else if userPolicyDN == "" then Some(defaultDN)
    else Some(userPolicyDN)
  }

  /** The search for the policy entry itself. */
  function PolicySearch(dn: string): SearchRequest {
    SearchRequest(dn, BaseObject, "(objectClass=*)", PolicyAttributes, None)
  }

  function PolicyCountError(n: nat): Error {
    Plain("expected exactly one policy entry, got " + Itoa(n))
  }

  /** The minimum length a policy search gives: the decimal `pwdMinLength`
      of its single entry. `quote` is Go's `%q`. */
  function MinLengthOf(policy: SearchResult, quote: string -> string): (r: Result<int, Error>)
    ensures EntryCount(policy) != 1 ==> r == Err(PolicyCountError(EntryCount(policy)))
    ensures EntryCount(policy) == 1 ==>
      var text := AttributeValue(policy.entries.value[0], MinLengthAttribute);
      (text == "" ==> r == Err(Plain(MissingMinLength)))
      && (text != "" && Atoi(text).None? ==> r == Err(Wrapped(FailedParse, Plain(AtoiErrorText(text, quote)))))
      && (text != "" && Atoi(text).Some? ==> r == Ok(Atoi(text).value))
  {
    if EntryCount(policy) != 1 then Err(PolicyCountError(EntryCount(policy)))
    else
      var text := AttributeValue(policy.entries.value[0], MinLengthAttribute);
      if text == "" then Err(Plain(MissingMinLength))
      else
        match Atoi(text)
        case None => Err(Wrapped(FailedParse, Plain(AtoiErrorText(text, quote))))
        case Some(n) => Ok(n)
  }

  /** The minimum length for a user entry: 6 without a policy, else what the
      policy entry says. */
  function MinLength(config: Config, entry: Entry, search: SearchRequest -> Result<SearchResult, Error>,
                     quote: string -> string): (r: Result<int, Error>)
    ensures PolicyDN(AttributeValue(entry, PolicyAttribute), config.defaultPasswordPolicyDN).None? ==> r == Ok(DefaultPasswordLength)
    ensures PolicyDN(AttributeValue(entry, PolicyAttribute), config.defaultPasswordPolicyDN).Some? ==>
      var res := search(PolicySearch(PolicyDN(AttributeValue(entry, PolicyAttribute), config.defaultPasswordPolicyDN).value));
      r == if res.Err? then Err(Wrapped(FailedPolicy, res.error)) else MinLengthOf(res.value, quote)
  {
    match PolicyDN(AttributeValue(entry, PolicyAttribute), config.defaultPasswordPolicyDN)
    case None => Ok(DefaultPasswordLength)
    case Some(dn) =>
      var res := search(PolicySearch(dn));
      if res.Err? then Err(Wrapped(FailedPolicy, res.error)) else MinLengthOf(res.value, quote)
  }

  /** The searches made for a user entry after the user search: the policy
      search, when a policy applies. */
  function PolicySearches(config: Config, entry: Entry): (qs: seq<SearchRequest>)
    ensures |qs| <= 1
  {
    match PolicyDN(AttributeValue(entry, PolicyAttribute), config.defaultPasswordPolicyDN)
    case None => []
    case Some(dn) => [PolicySearch(dn)]
  }

  /** The modification that sets the password and the reset flag. */
  function PasswordModify(dn: string, password: string): ModifyRequest {
    ModifyRequest(dn, [ReplaceValues("userPassword", [password]), ReplaceValues("pwdReset", ["TRUE"])], [PasswordPolicyControl])
  }

  /** The user entry, and what stands in the way of finding it. */
  function UserEntry(config: Config, req: PerformOperationRequest, search: SearchRequest -> Result<SearchResult, Error>)
    : (r: Result<Entry, Error>)
    ensures var res := search(UserSearch(config, req.accountImmutableID, PolicyAttribute));
      r == if res.Err? then Err(Wrapped(FailedUser, res.error)) else SingleEntry(res.value)
  {
    var res := search(UserSearch(config, req.accountImmutableID, PolicyAttribute));
    if res.Err? then Err(Wrapped(FailedUser, res.error)) else SingleEntry(res.value)
  }

  /** The password operation's answer once the client is at hand and this is
      no dry run, given what `generate` (`password.Generate(n, 1, 1, false,
      false)`) gives for each length. */
  function PasswordResult(config: Config, req: PerformOperationRequest,
                          search: SearchRequest -> Result<SearchResult, Error>,
                          modifyResult: ModifyRequest -> Option<Error>,
                          generate: int -> Result<string, Error>, quote: string -> string)
    : (r: Result<PerformOperationResponse, Error>)
    ensures r.Ok? ==>
      UserEntry(config, req, search).Ok?
      && var entry := UserEntry(config, req, search).value;
      MinLength(config, entry, search, quote).Ok?
      && generate(MinLength(config, entry, search, quote).value).Ok?
      && var password := generate(MinLength(config, entry, search, quote).value).value;
      modifyResult(PasswordModify(entry.dn, password)).None?
      && r.value == PerformOperationResponse(Some(password), None)
  {
    match UserEntry(config, req, search)
    case Err(e) => Err(e)
    case Ok(entry) =>
      match MinLength(config, entry, search, quote)
      case Err(e) => Err(e)
      case Ok(n) =>
        match generate(n)
        case Err(e) => Err(Wrapped(FailedGenerate, e))
        case Ok(password) =>
          var err := modifyResult(PasswordModify(entry.dn, password));
          if err.Some? then Err(Wrapped(FailedModify, err.value))
          else Ok(PerformOperationResponse(Some(password), None))
  }

  /** The user entry's modification: one, setting the generated password,
      once the policy is read and the password generated. */
  function PasswordModifications(config: Config, req: PerformOperationRequest,
                                 search: SearchRequest -> Result<SearchResult, Error>,
                                 generate: int -> Result<string, Error>, quote: string -> string)
    : (mods: seq<ModifyRequest>)
    ensures |mods| <= 1
  {
    match UserEntry(config, req, search)
    case Err(_) => []
    case Ok(entry) =>
      match MinLength(config, entry, search, quote)
      case Err(_) => []
      case Ok(n) =>
        match generate(n)
        case Err(_) => []
        case Ok(password) => [PasswordModify(entry.dn, password)]
  }

  /** A password handed out is the one the modification set, and the reset
      flag went with it in the same modification. */
  lemma PasswordMatchesModification(config: Config, req: PerformOperationRequest,
                                    search: SearchRequest -> Result<SearchResult, Error>,
                                    modifyResult: ModifyRequest -> Option<Error>,
                                    generate: int -> Result<string, Error>, quote: string -> string)
    requires PasswordResult(config, req, search, modifyResult, generate, quote).Ok?
    ensures var mods := PasswordModifications(config, req, search, generate, quote);
      var pw := PasswordResult(config, req, search, modifyResult, generate, quote).value.temporaryPassword;
      |mods| == 1 && pw.Some?
      && mods[0].changes == [ReplaceValues("userPassword", [pw.value]), ReplaceValues("pwdReset", ["TRUE"])]
      && mods[0].dn == UserEntry(config, req, search).value.dn
  {
  }

  /** A policy entry that cannot be read (not exactly one entry, no minimum
      length, or a malformed one) stops the operation before anything is
      modified. */
  lemma BadPolicyModifiesNothing(config: Config, req: PerformOperationRequest,
                                 search: SearchRequest -> Result<SearchResult, Error>,
                                 generate: int -> Result<string, Error>, quote: string -> string)
    requires UserEntry(config, req, search).Ok?
    requires MinLength(config, UserEntry(config, req, search).value, search, quote).Err?
    ensures PasswordModifications(config, req, search, generate, quote) == []
  {
  }

  /** Without any policy the password has the default length of six. */
  lemma NoPolicyDefaultLength(config: Config, entry: Entry, search: SearchRequest -> Result<SearchResult, Error>,
                              quote: string -> string)
    requires AttributeValue(entry, PolicyAttribute) == "" && config.defaultPasswordPolicyDN == ""
    ensures MinLength(config, entry, search, quote) == Ok(6)
    ensures PolicySearches(config, entry) == []
  {
  }

  /** `performOperationGetTemporaryPassword`, with the nil-result check of the
      user search corrected. A dry run stops right after obtaining the client:
      it neither searches nor modifies. */
  method PerformTemporaryPassword(clientErr: Option<Error>, c: Client, config: Config, req: PerformOperationRequest,
                                  generate: int -> Result<string, Error>, quote: string -> string)
    returns (r: Result<PerformOperationResponse, Error>)
    modifies c
    ensures clientErr.Some? ==> r == Err(Wrapped(CouldNotGetClient, clientErr.value))
    ensures clientErr.None? && IsDryRun(req) ==> r == Ok(EmptyOperationResponse)
    ensures clientErr.Some? || IsDryRun(req) ==> c.searches == old(c.searches) && c.modified == old(c.modified)
    ensures clientErr.None? && !IsDryRun(req) ==>
      r == PasswordResult(config, req, c.search, c.modifyResult, generate, quote)
      && c.modified == old(c.modified) + PasswordModifications(config, req, c.search, generate, quote)
      && c.searches == old(c.searches) + [UserSearch(config, req.accountImmutableID, PolicyAttribute)]
                       + (if UserEntry(config, req, c.search).Ok?
                          then PolicySearches(config, UserEntry(config, req, c.search).value) else [])
  {
    if clientErr.Some? {
      return Err(Wrapped(CouldNotGetClient, clientErr.value));
    }
    if IsDryRun(req) {
      return Ok(EmptyOperationResponse);
    }
    var dnResult := c.Search(UserSearch(config, req.accountImmutableID, PolicyAttribute));
    if dnResult.Err? {
      return Err(Wrapped(FailedUser, dnResult.error));
    }
    var found := SingleEntry(dnResult.value);
    if found.Err? {
      return Err(found.error);
    }
    var entry := found.value;
    var pwdMinLength: int;
    var policyDN := AttributeValue(entry, PolicyAttribute);
    if policyDN == "" && config.defaultPasswordPolicyDN == "" {
      pwdMinLength := DefaultPasswordLength;
    } else {
      if policyDN == "" {
        policyDN := config.defaultPasswordPolicyDN;
      }
      var policyResult := c.Search(PolicySearch(policyDN));
      if policyResult.Err? {
        return Err(Wrapped(FailedPolicy, policyResult.error));
      }
      var n := MinLengthOf(policyResult.value, quote);
      if n.Err? {
        return Err(n.error);
      }
      pwdMinLength := n.value;
    }
    var tempPassword := generate(pwdMinLength);
    if tempPassword.Err? {
      return Err(Wrapped(FailedGenerate, tempPassword.error));
    }
    var err := c.Modify(PasswordModify(entry.dn, tempPassword.value));
    if err.Some? {
      return Err(Wrapped(FailedModify, err.value));
    }
    r := Ok(PerformOperationResponse(Some(tempPassword.value), None));
  }
}
