/** The wire types of the directory-agent protocol (the generated `diragentapi`
    package), rebuilt from the way the relay, the worker and the providers use
    them. A Go pointer field is an `Option`; a request or a response is a record
    in which any number of the optional fields may be set, because the relay and
    the worker test each field on its own. */
module Api {
  import opened Wrappers

  /** The fixed set of error codes (`diragentapi.*` constants). */
  datatype ErrorCode =
    | ConfigurationError
    | ServiceAuthenticationFailed
    | PermissionDenied
    | AccountNotFound
    | UnsupportedAccountState
    | InternalError

  /** The text an error code prints as. The generated string values are not part of
      this model, so the constant names stand for them. */
  function CodeText(c: ErrorCode): (t: string)
    ensures t != []
  {
    match c
    case ConfigurationError => "ConfigurationError"
    case ServiceAuthenticationFailed => "ServiceAuthenticationFailed"
    case PermissionDenied => "PermissionDenied"
    case AccountNotFound => "AccountNotFound"
    case UnsupportedAccountState => "UnsupportedAccountState"
    case InternalError => "InternalError"
  }

  /** A text without spaces. */
  predicate NoSpace(t: string) {
    forall k :: 0 <= k < |t| ==> t[k] != ' '
  }

  /** No code's text holds a space, so the first space of a printed coded
      error ends its code. */
  lemma CodeTextNoSpace(c: ErrorCode)
    ensures NoSpace(CodeText(c))
  {
    match c
    case ConfigurationError => ConfigurationErrorNoSpace();
    case ServiceAuthenticationFailed => ServiceAuthenticationFailedNoSpace();
    case PermissionDenied => PermissionDeniedNoSpace();
    case AccountNotFound => AccountNotFoundNoSpace();
    case UnsupportedAccountState => UnsupportedAccountStateNoSpace();
    case InternalError => InternalErrorNoSpace();
  }

  lemma ConfigurationErrorNoSpace()
    ensures NoSpace("ConfigurationError")
  {
  }

  lemma ServiceAuthenticationFailedNoSpace()
    ensures NoSpace("ServiceAuthenticationFailed")
  {
  }

  lemma PermissionDeniedNoSpace()
    ensures NoSpace("PermissionDenied")
  {
  }

  lemma AccountNotFoundNoSpace()
    ensures NoSpace("AccountNotFound")
  {
  }

  lemma UnsupportedAccountStateNoSpace()
    ensures NoSpace("UnsupportedAccountState")
  {
  }

  lemma InternalErrorNoSpace()
    ensures NoSpace("InternalError")
  {
  }

  /** Different codes print differently. */
  lemma CodeTextInjective(a: ErrorCode, b: ErrorCode)
    ensures CodeText(a) == CodeText(b) ==> a == b
  {
    if a != b {
      match a
      case ConfigurationError => assert CodeText(a)[0] == 'C';
      case ServiceAuthenticationFailed => assert CodeText(a)[0] == 'S';
      case PermissionDenied => assert CodeText(a)[0] == 'P';
      case AccountNotFound => assert CodeText(a)[0] == 'A';
      case UnsupportedAccountState => assert CodeText(a)[0] == 'U';
      case InternalError => assert CodeText(a)[0] == 'I';
    }
  }

  /** `DirAgentErrorResponse`. */
  datatype ErrorResponse = ErrorResponse(code: ErrorCode, message: string)

  /** A point in time (`time.Time`); parsing and formatting are library code. */
  type Time = int

  datatype Group = Group(immutableID: string, name: string, kind: string)

  datatype Account = Account(
    immutableID: string,
    ids: seq<string>,
    name: string,
    groups: Option<seq<Group>>,
    updatedAt: Option<Time>,
    birthDate: Option<string>)

  datatype AccountRef = AccountRef(immutableID: Option<string>, id: Option<string>)

  /** The recovery operations (a Go string type, so other values can arrive). */
  datatype Operation =
    | Unlock
    | RemoveAllMFA
    | GetTemporaryPassword
    | GetPasswordLink
    | OtherOperation(name: string)

  /** The text an operation prints as with `%s`. The generated string values are
      not part of this model, so the constant names stand for them. */
  function OperationText(op: Operation): (t: string)
    ensures op.OtherOperation? ==> t == op.name
    ensures !op.OtherOperation? ==> t != []
  {
    match op
    case Unlock => "Unlock"
    case RemoveAllMFA => "RemoveAllMFA"
    case GetTemporaryPassword => "GetTemporaryPassword"
    case GetPasswordLink => "GetPasswordLink"
    case OtherOperation(name) => name
  }

  datatype Traits = Traits(
    name: string,
    canGetTemporaryPassword: Option<bool>,
    canGetPasswordLink: Option<bool>,
    canRemoveAllMFA: Option<bool>,
    canUnlock: Option<bool>,
    canUpdateAccountsList: Option<bool>)

  datatype PingRequest = PingRequest
  datatype ConfigureRequest = ConfigureRequest
  datatype ConfigureResponse = ConfigureResponse(traits: Traits, immutableID: string)
  datatype GetAccountRequest = GetAccountRequest(ref: AccountRef)
  datatype GetAccountResponse = GetAccountResponse(accounts: seq<Account>)
  datatype ListAccountsRequest = ListAccountsRequest(updatedAfter: Option<Time>, cursor: Option<string>)
  datatype ListAccountsResponse = ListAccountsResponse(accounts: seq<Account>, nextCursor: Option<string>)
  datatype ListGroupsRequest = ListGroupsRequest(namePrefix: Option<string>, cursor: Option<string>, maxCount: Option<int>)
  datatype ListGroupsResponse = ListGroupsResponse(groups: seq<Group>, nextCursor: Option<string>)
  datatype PerformOperationRequest = PerformOperationRequest(
    operation: Operation,
    accountImmutableID: string,
    dryRun: Option<bool>)
  datatype PerformOperationResponse = PerformOperationResponse(
    temporaryPassword: Option<string>,
    passwordLink: Option<string>)

  /** The response of an operation that has nothing to report. */
  const EmptyOperationResponse := PerformOperationResponse(None, None)

  /** `lo.FromPtr(req.DryRun)`: an absent DryRun is false. */
  predicate IsDryRun(req: PerformOperationRequest) {
    req.dryRun == Some(true)
  }

  /** `DirAgentRequest`. */
  datatype Request = Request(
    ping: Option<PingRequest>,
    configure: Option<ConfigureRequest>,
    getAccount: Option<GetAccountRequest>,
    listAccounts: Option<ListAccountsRequest>,
    listGroups: Option<ListGroupsRequest>,
    performOperation: Option<PerformOperationRequest>)

  /** `DirAgentResponse`. */
  datatype Response = Response(
    error: Option<ErrorResponse>,
    configure: Option<ConfigureResponse>,
    getAccount: Option<GetAccountResponse>,
    listAccounts: Option<ListAccountsResponse>,
    listGroups: Option<ListGroupsResponse>,
    performOperation: Option<PerformOperationResponse>)

  const EmptyRequest := Request(None, None, None, None, None, None)
  const EmptyResponse := Response(None, None, None, None, None, None)

  /** A response that carries only an error. */
  function ErrorOnly(code: ErrorCode, message: string): (r: Response)
    ensures r.error == Some(ErrorResponse(code, message))
    ensures NoData(r)
  {
    EmptyResponse.(error := Some(ErrorResponse(code, message)))
  }

  /** No data field of the response is set (the error may be). */
  predicate NoData(r: Response) {
    r.configure.None? && r.getAccount.None? && r.listAccounts.None?
    && r.listGroups.None? && r.performOperation.None?
  }

  /** The number of data fields set in a response. */
  function DataCount(r: Response): (n: nat)
    ensures n <= 5
    ensures n == 0 <==> NoData(r)
  {
    (if r.configure.Some? then 1 else 0) + (if r.getAccount.Some? then 1 else 0)
    + (if r.listAccounts.Some? then 1 else 0) + (if r.listGroups.Some? then 1 else 0)
    + (if r.performOperation.Some? then 1 else 0)
  }
}
