/** `directory/dirauthentik/dirauthentik.go` (with the records of `types.go`):
    the Authentik provider's configuration checks, the normalisation of its API
    base URL, the bearer token it sends, the classification of HTTP errors and the
    page-following user fetch. The Authentik HTTP API is a stub (`Server`) whose
    answers are fixed functions and which logs every request it is sent. */
module Authentik {
  import opened Wrappers
  import opened Text
  import opened Api
  import opened Directory

  /** `defaultPageSize`. */
  const DefaultPageSize: nat := 250

  // ---------------------------------------------------------------------
  // The API records (`types.go`)

  datatype Pagination = Pagination(next: Option<int>)

  datatype ApiGroup = ApiGroup(pk: string, name: string)

  datatype ApiUser = ApiUser(
    pk: GoInt,
    uuid: string,
    username: string,
    name: string,
    email: string,
    uid: string,
    lastUpdated: string,
    groupsObj: seq<ApiGroup>)

  datatype ApiDevice = ApiDevice(pk: string, deviceType: string, metaModelName: string)

  datatype UserListResponse = UserListResponse(pagination: Pagination, results: seq<ApiUser>)

  datatype GroupListResponse = GroupListResponse(pagination: Pagination, results: seq<ApiGroup>)

  /** A query value as the provider sets it: a string, or a number that
      `strconv.Itoa` renders. */
  datatype QueryValue = Str(text: string) | Number(number: int)

  /** `url.Values` as the provider uses it: every key is set once, with `Set`. */
  type Query = map<string, QueryValue>

  /** The query string values the server receives. */
  function Rendered(q: Query): (v: map<string, string>)
    ensures v.Keys == q.Keys
    ensures forall k :: k in q && q[k].Number? ==> v[k] == Itoa(q[k].number)
    ensures forall k :: k in q && q[k].Str? ==> v[k] == q[k].text
  {
    map k | k in q :: match q[k] case Str(t) => t case Number(n) => Itoa(n)
  }

  /** True when a pagination record points at a further page (`Next != nil && *Next > 0`). */
  predicate HasNext(p: Pagination) {
    p.next.Some? && p.next.value > 0
  }

  // ---------------------------------------------------------------------
  // Configuration

  /** The provider's settings. */
  datatype Config = Config(url: string, token: string)

  /** A parsed URL: the parts of Go's `url.URL` the provider reads or clears.
      Parsing itself is library code and is a parameter (`parse`). */
  datatype Url = Url(scheme: string, host: string, path: string, rawQuery: string, fragment: string)

  const ApiRoot: string := "/api/v3"
  const ApiRootSlash: string := "/api/v3/"
  const InvalidUrl: string := "invalid authentik URL: "

  /** The path of the API base: one trailing slash is dropped, `/api/v3` is added
      unless the path already ends in it, and a slash is put back. */
  function NormalizePath(path: string): (r: string)
    ensures HasSuffix(r, ApiRootSlash)
    // a path already at the API root only gets its trailing slash
    ensures HasSuffix(TrimSuffix(path, "/"), ApiRoot) ==> r == TrimSuffix(path, "/") + "/"
    // any other path gets the API root appended
    ensures !HasSuffix(TrimSuffix(path, "/"), ApiRoot) ==> r == TrimSuffix(path, "/") + ApiRootSlash
  {
    var trimmed := TrimSuffix(path, "/");
    var withApi := if HasSuffix(trimmed, ApiRoot) then trimmed else trimmed + ApiRoot;
    assert HasSuffix(withApi, ApiRoot) by {
      if !HasSuffix(trimmed, ApiRoot) {
        assert withApi[|withApi| - 7..] == ApiRoot;
      }
    }
    var r := withApi + "/";
    assert r[|r| - 8..] == withApi[|withApi| - 7..] + "/";
    r
  }

  /** Normalising a normalised path changes nothing. */
  lemma NormalizePathIdempotent(path: string)
    ensures NormalizePath(NormalizePath(path)) == NormalizePath(path)
  {
    var n := NormalizePath(path);
    var t := n[..|n| - 1];
    assert HasSuffix(n, "/");
    assert TrimSuffix(n, "/") == t;
    assert t[|t| - 7..] == n[|n| - 8..|n| - 1];
    assert HasSuffix(t, ApiRoot);
    assert t + "/" == n;
  }

  /** `apiBaseURL`. */
  function ApiBaseURL(c: Config, parse: string -> Result<Url, Error>): (r: Result<Url, Error>)
    ensures TrimSpace(c.url) == [] ==> r == Err(Plain(UrlRequired))
    ensures TrimSpace(c.url) != [] && parse(c.url).Err? ==> r == Err(Wrapped(InvalidUrl, parse(c.url).error))
    // a URL without scheme or host is refused
    ensures TrimSpace(c.url) != [] && parse(c.url).Ok? && (parse(c.url).value.scheme == [] || parse(c.url).value.host == [])
            ==> r == Err(Plain(InvalidUrl + c.url))
    // a usable URL keeps scheme and host, gets the API path and loses query and fragment
    ensures r.Ok? ==>
      var u := parse(c.url).value;
      TrimSpace(c.url) != [] && parse(c.url).Ok? && u.scheme != [] && u.host != []
      && r.value == Url(u.scheme, u.host, NormalizePath(u.path), "", "")
  {
    if TrimSpace(c.url) == [] then Err(Plain(UrlRequired))
    else
      match parse(c.url)
      case Err(e) => Err(Wrapped(InvalidUrl, e))
      case Ok(u) =>
        if u.scheme == [] || u.host == [] then Err(Plain(InvalidUrl + c.url))
        else Ok(u.(path := NormalizePath(u.path), rawQuery := "", fragment := ""))
  }

  /** The API base of a normalised base URL is itself: the parser reads it back
      as it is, so normalising again gives the same URL. */
  lemma ApiBaseURLIdempotent(c: Config, parse: string -> Result<Url, Error>, printed: string)
    requires ApiBaseURL(c, parse).Ok?
    requires TrimSpace(printed) != [] && parse(printed) == Ok(ApiBaseURL(c, parse).value)
    ensures ApiBaseURL(Config(printed, c.token), parse) == ApiBaseURL(c, parse)
  {
    NormalizePathIdempotent(parse(c.url).value.path);
  }

  const UrlRequired: string := "authentik URL is required"
  const TokenRequired: string := "authentik token is required"

  /** `validate`: the URL, then the token, then the base URL; each failure is a
      configuration error. */
  function Validate(c: Config, parse: string -> Result<Url, Error>): (r: Option<CodedError>)
    ensures r.Some? ==> r.value.code == ConfigurationError
    ensures r.None? <==> TrimSpace(c.url) != [] && TrimSpace(c.token) != [] && ApiBaseURL(c, parse).Ok?
    ensures TrimSpace(c.url) == [] ==> r == Some(CodedError(ConfigurationError, UrlRequired))
    ensures TrimSpace(c.url) != [] && TrimSpace(c.token) == [] ==> r == Some(CodedError(ConfigurationError, TokenRequired))
    ensures TrimSpace(c.url) != [] && TrimSpace(c.token) != [] && ApiBaseURL(c, parse).Err?
            ==> r == Some(CodedError(ConfigurationError, ApiBaseURL(c, parse).error.Text()))
  {
    if TrimSpace(c.url) == [] then Some(CodedError(ConfigurationError, UrlRequired))
    else if TrimSpace(c.token) == [] then Some(CodedError(ConfigurationError, TokenRequired))
    else
      match ApiBaseURL(c, parse)
      case Err(e) => Some(CodedError(ConfigurationError, e.Text()))
      case Ok(_) => None
  }

  const ImmutableIDPrefix: string := "urn:agent:authentik:"

  /** `Configure`: a valid configuration is described by its display name, the
      three capabilities the provider has, and an ID built from the URL. */
  function Configure(c: Config, parse: string -> Result<Url, Error>): (r: Result<ConfigureResponse, Error>)
    ensures r.Err? <==> Validate(c, parse).Some?
    ensures r.Err? ==> r.error == Coded(Validate(c, parse).value) && r.error.AsCoded().value.code == ConfigurationError
    ensures r.Ok? ==> r.value.immutableID == ImmutableIDPrefix + c.url
    ensures r.Ok? ==> r.value.traits.name == DisplayName(c, parse)
    ensures r.Ok? ==> r.value.traits.canGetPasswordLink == Some(true) && r.value.traits.canRemoveAllMFA == Some(true)
                      && r.value.traits.canUpdateAccountsList == Some(true)
    ensures r.Ok? ==> r.value.traits.canUnlock.None? && r.value.traits.canGetTemporaryPassword.None?
  {
    match Validate(c, parse)
    case Some(e) => Err(Coded(e))
    case None =>
      Ok(ConfigureResponse(Traits(DisplayName(c, parse), None, Some(true), Some(true), None, Some(true)),
                           ImmutableIDPrefix + c.url))
  }

  // ---------------------------------------------------------------------
  // Display name

  /** The last index of `c` in `s`, or -1. */
  function LastIndexOf(s: string, c: char): (i: int)
    ensures -1 <= i < |s|
    ensures i >= 0 ==> s[i] == c && forall k :: i < k < |s| ==> s[k] != c
    ensures i == -1 ==> forall k :: 0 <= k < |s| ==> s[k] != c
  {
    if s == [] then -1
    else if s[|s| - 1] == c then |s| - 1
    else LastIndexOf(s[..|s| - 1], c)
  }

  /** `validOptionalPort`: empty, or a colon followed by digits. */
  predicate ValidOptionalPort(port: string) {
    port == [] || (port[0] == ':' && AllDigits(port[1..]))
  }

  /** Go's `URL.Hostname`: the host without a valid port and without IPv6 brackets. */
  function Hostname(hostPort: string): (h: string)
    ensures |h| <= |hostPort|
  {
    var colon := LastIndexOf(hostPort, ':');
    var host := if colon != -1 && ValidOptionalPort(hostPort[colon..]) then hostPort[..colon] else hostPort;
    if HasPrefix(host, "[") && HasSuffix(host, "]") && |host| >= 2 then host[1..|host| - 1] else host
  }

  const PlainDisplayName: string := "authentik"

  const NamedOpen: string := "authentik ("

  /** `displayName`. */
  function DisplayName(c: Config, parse: string -> Result<Url, Error>): (name: string)
    ensures ApiBaseURL(c, parse).Err? ==> name == PlainDisplayName
    ensures ApiBaseURL(c, parse).Ok? ==>
      var host := Hostname(ApiBaseURL(c, parse).value.host);
      name == if host == [] then PlainDisplayName else NamedOpen + host + ")"
  {
    match ApiBaseURL(c, parse)
    case Err(_) => PlainDisplayName
    case Ok(base) =>
      var host := Hostname(base.host);
      if host == [] then PlainDisplayName else NamedOpen + host + ")"
  }

  /** A plain host name with a numeric port loses the port. */
  lemma HostnameDropsPort(name: string, port: string)
    requires name != [] && name[0] != '[' && AllDigits(port)
    requires forall k :: 0 <= k < |name| ==> name[k] != ':'
    ensures Hostname(name + ":" + port) == name
  {
    var hp := name + ":" + port;
    var colon := LastIndexOf(hp, ':');
    assert hp[|name|] == ':';
    assert colon == |name|;
    assert hp[colon..][1..] == port;
    assert hp[..colon] == name;
    assert !HasPrefix(name, "[");
  }

  /** A plain host name with a port is shown without the port. */
  lemma DisplayNameDropsPort(c: Config, parse: string -> Result<Url, Error>, name: string, port: string)
    requires ApiBaseURL(c, parse).Ok? && ApiBaseURL(c, parse).value.host == name + ":" + port
    requires name != [] && name[0] != '[' && AllDigits(port)
    requires forall k :: 0 <= k < |name| ==> name[k] != ':'
    ensures DisplayName(c, parse) == NamedOpen + name + ")"
  {
    HostnameDropsPort(name, port);
  }

  // ---------------------------------------------------------------------
  // The bearer token (`doJSON`)

  const Scheme: string := "Bearer "
  const LowerScheme: string := "bearer "

  /** The token as sent: trimmed, with one leading `bearer ` (in any case) and the
      white space after it removed. */
  function BearerToken(token: string): (t: string)
    ensures t == [] || (!IsSpace(t[0]) && !IsSpace(t[|t| - 1]))
    ensures !HasPrefix(ToLower(TrimSpace(token)), LowerScheme) ==> t == TrimSpace(token)
    ensures HasPrefix(ToLower(TrimSpace(token)), LowerScheme) ==> t == TrimSpace(TrimSpace(token)[7..])
  {
    var trimmed := TrimSpace(token);
    if HasPrefix(ToLower(trimmed), LowerScheme) then TrimSpace(trimmed[7..]) else trimmed
  }

  /** The `Authorization` header value. */
  function AuthorizationHeader(token: string): (h: string)
    ensures HasPrefix(h, Scheme) && h[7..] == BearerToken(token)
  {
    Scheme + BearerToken(token)
  }

  /** The scheme in lower case. */
  lemma SchemeLowered()
    ensures ToLower(Scheme) == LowerScheme
  {
    var l := ToLower(Scheme);
    assert l[0] == 'b' && l[1] == 'e' && l[2] == 'a' && l[3] == 'r';
    assert l[4] == 'e' && l[5] == 'r' && l[6] == ' ';
  }

  /** A token that is already trimmed and has no scheme is sent as it is. */
  lemma BearerTokenKeeps(token: string)
    requires token != [] && !IsSpace(token[0]) && !IsSpace(token[|token| - 1])
    requires !HasPrefix(ToLower(token), LowerScheme)
    ensures BearerToken(token) == token
  {
    TrimSpaceNoop(token);
  }

  /** The `Bearer ` scheme in front of a trimmed token is removed. */
  lemma BearerTokenStrips(token: string)
    requires token != [] && !IsSpace(token[0]) && !IsSpace(token[|token| - 1])
    ensures BearerToken(Scheme + token) == token
  {
    var full := Scheme + token;
    assert full[0] == 'B' && full[|full| - 1] == token[|token| - 1];
    TrimSpaceNoop(full);
    TrimSpaceNoop(token);
    ToLowerConcat(Scheme, token);
    SchemeLowered();
    assert ToLower(full)[..7] == LowerScheme;
    assert full[7..] == token;
  }

  /** Configuring the token with or without the `Bearer ` scheme in front gives
      the same header. */
  lemma HeaderIgnoresScheme(token: string)
    requires token != [] && !IsSpace(token[0]) && !IsSpace(token[|token| - 1])
    requires !HasPrefix(ToLower(token), LowerScheme)
    ensures AuthorizationHeader(Scheme + token) == AuthorizationHeader(token)
  {
    BearerTokenStrips(token);
    BearerTokenKeeps(token);
  }

  // ---------------------------------------------------------------------
  // HTTP errors (`parseError`)

  /** The message of an error answer: the JSON `detail` if there is one, else the
      trimmed body, else the status line. `detail` is the JSON decoding of the body. */
  function ErrorMessage(statusText: string, body: string, detail: string -> Option<string>): string {
    var message := TrimSpace(body);
    var message := if body != [] && detail(body).Some? && detail(body).value != [] then detail(body).value else message;
    if message == [] then statusText else message
  }

  const PlainPrefix: string := "authentik: "
  const DecodeFailed: string := "authentik: decode response: "

  /** `parseError`. */
  function ParseError(status: int, statusText: string, body: string, detail: string -> Option<string>): Error {
    var message := ErrorMessage(statusText, body, detail);
    if status == 401 then CodedErr(ServiceAuthenticationFailed, message)
    else if status == 403 then CodedErr(PermissionDenied, message)
    else if status == 404 then CodedErr(AccountNotFound, message)
    else Plain(PlainPrefix + message)
  }

  /** The message of an error answer is the JSON `detail` if there is one, else
      the trimmed body, else the status line. */
  lemma ErrorMessageChoice(statusText: string, body: string, detail: string -> Option<string>)
    ensures var m := ErrorMessage(statusText, body, detail);
      (body != [] && detail(body).Some? && detail(body).value != [] ==> m == detail(body).value)
      && (!(body != [] && detail(body).Some? && detail(body).value != []) && TrimSpace(body) != [] ==> m == TrimSpace(body))
      && (!(body != [] && detail(body).Some? && detail(body).value != []) && TrimSpace(body) == [] ==> m == statusText)
  {
  }

  /** 401, 403 and 404 become coded errors that `errors.As` finds; any other
      status is a plain error whose text starts with the provider's name. */
  lemma ParseErrorClassifies(status: int, statusText: string, body: string, detail: string -> Option<string>)
    ensures var e := ParseError(status, statusText, body, detail);
      var m := ErrorMessage(statusText, body, detail);
      (e.AsCoded().Some? <==> status == 401 || status == 403 || status == 404)
      && (status == 401 ==> e.AsCoded() == Some(CodedError(ServiceAuthenticationFailed, m)))
      && (status == 403 ==> e.AsCoded() == Some(CodedError(PermissionDenied, m)))
      && (status == 404 ==> e.AsCoded() == Some(CodedError(AccountNotFound, m)))
      && (e.AsCoded().None? ==> e.Text() == PlainPrefix + m)
  {
  }

  // ---------------------------------------------------------------------
  // The HTTP API stub

  /** How a request can fail below the provider: an error status (400 or more),
      a transport failure, or an answer that does not decode. */
  datatype HttpFailure =
    | StatusFailure(status: int, statusText: string, body: string)
    | Transport(err: Error)
    | Undecodable(err: Error)

  const UsersPath: string := "core/users/"
  const GroupsPath: string := "core/groups/"
  const DevicesPath: string := "authenticators/admin/all/"

  datatype HttpRequest = Get(path: string, query: Query) | Delete(path: string)

  /** What `doJSON` returns for an answer: the configuration check comes first,
      then the failure classification. */
  function DoJSON<T>(configErr: Option<CodedError>, detail: string -> Option<string>,
                     answer: Result<T, HttpFailure>): Result<T, Error>
  {
    if configErr.Some? then Err(Coded(configErr.value))
    else
      match answer
      case Ok(v) => Ok(v)
      case Err(StatusFailure(status, text, body)) => Err(ParseError(status, text, body, detail))
      case Err(Transport(e)) => Err(e)
      case Err(Undecodable(e)) => Err(Wrapped(DecodeFailed, e))
  }

  /** An invalid configuration fails every request with its configuration error,
      before anything is sent; a valid one passes answers through and classifies
      error statuses with `parseError`. */
  lemma DoJSONOrder<T>(configErr: Option<CodedError>, detail: string -> Option<string>, answer: Result<T, HttpFailure>)
    ensures var r := DoJSON(configErr, detail, answer);
      (configErr.Some? ==> r == Err(Coded(configErr.value)) && r.error.AsCoded() == configErr)
      && (configErr.None? && answer.Ok? ==> r == Ok(answer.value))
      && (configErr.None? && answer.Err? && answer.error.StatusFailure? ==>
            r == Err(ParseError(answer.error.status, answer.error.statusText, answer.error.body, detail)))
      && (configErr.None? && answer.Err? && answer.error.Undecodable? ==> r.error.AsCoded() == answer.error.err.AsCoded())
  {
  }

  /** The requests that reach the server: none when the configuration is invalid. */
  function Sent(configErr: Option<CodedError>, req: HttpRequest): seq<HttpRequest> {
    if configErr.Some? then [] else [req]
  }

  /** The number of DELETE requests in a log: the stub's mutation counter. */
  function Deletes(log: seq<HttpRequest>): (n: nat)
    ensures n <= |log|
  {
    if log == [] then 0 else Deletes(log[..|log| - 1]) + (if log[|log| - 1].Delete? then 1 else 0)
  }

  lemma DeletesAppend(a: seq<HttpRequest>, b: seq<HttpRequest>)
    ensures Deletes(a + b) == Deletes(a) + Deletes(b)
    decreases |b|
  {
    if b != [] {
      assert (a + b)[..|a + b| - 1] == a + b[..|b| - 1];
      DeletesAppend(a, b[..|b| - 1]);
    } else {
      assert a + b == a;
    }
  }

  /** The result of a DELETE, whose answer has no body. */
  function DeleteResult(configErr: Option<CodedError>, detail: string -> Option<string>, answer: Option<HttpFailure>): Option<Error> {
    var r := DoJSON(configErr, detail, if answer.Some? then Err(answer.value) else Ok(()));
    if r.Err? then Some(r.error) else None
  }

  /** An Authentik server, seen through the provider's `doJSON`. The server's
      HTTP answers are given to the constructor; each request answers with what
      `doJSON` makes of them, and the configuration error, when there is one,
      fails every request before it is sent (`doJSON` validates first). Every
      request that reaches the server is appended to `log`. */
  class Server {
    const configErr: Option<CodedError>
    const users: Query -> Result<UserListResponse, Error>
    const groups: Query -> Result<GroupListResponse, Error>
    const userByPK: string -> Result<ApiUser, Error>
    const devices: Query -> Result<seq<ApiDevice>, Error>
    const deleteResult: string -> Option<Error>
    var log: seq<HttpRequest>

    constructor (configErr: Option<CodedError>, detail: string -> Option<string>,
                 rawUsers: Query -> Result<UserListResponse, HttpFailure>,
                 rawGroups: Query -> Result<GroupListResponse, HttpFailure>,
                 rawUserByPK: string -> Result<ApiUser, HttpFailure>,
                 rawDevices: Query -> Result<seq<ApiDevice>, HttpFailure>,
                 rawDelete: string -> Option<HttpFailure>)
      ensures this.configErr == configErr && log == []
      ensures forall q :: users(q) == DoJSON(configErr, detail, rawUsers(q))
      ensures forall q :: groups(q) == DoJSON(configErr, detail, rawGroups(q))
      ensures forall pk :: userByPK(pk) == DoJSON(configErr, detail, rawUserByPK(pk))
      ensures forall q :: devices(q) == DoJSON(configErr, detail, rawDevices(q))
      ensures forall path :: deleteResult(path) == DeleteResult(configErr, detail, rawDelete(path))
    {
      this.configErr := configErr;
      this.users := q => DoJSON(configErr, detail, rawUsers(q));
      this.groups := q => DoJSON(configErr, detail, rawGroups(q));
      this.userByPK := pk => DoJSON(configErr, detail, rawUserByPK(pk));
      this.devices := q => DoJSON(configErr, detail, rawDevices(q));
      this.deleteResult := path => DeleteResult(configErr, detail, rawDelete(path));
      log := [];
    }

    /** `GET core/users/`. */
    method GetUsers(q: Query) returns (r: Result<UserListResponse, Error>)
      modifies this
      ensures r == users(q)
      ensures log == old(log) + Sent(configErr, Get(UsersPath, q))
    {
      if configErr.None? {
        log := log + [Get(UsersPath, q)];
      }
      r := users(q);
    }

    /** `GET core/groups/` (`fetchGroups`). */
    method GetGroups(q: Query) returns (r: Result<GroupListResponse, Error>)
      modifies this
      ensures r == groups(q)
      ensures log == old(log) + Sent(configErr, Get(GroupsPath, q))
    {
      if configErr.None? {
        log := log + [Get(GroupsPath, q)];
      }
      r := groups(q);
    }

    /** `GET core/users/<pk>/` (`fetchUserByPK`). */
    method GetUserByPK(pk: string) returns (r: Result<ApiUser, Error>)
      modifies this
      ensures r == userByPK(pk)
      ensures log == old(log) + Sent(configErr, Get(UsersPath + pk + "/", map[]))
    {
      if configErr.None? {
        log := log + [Get(UsersPath + pk + "/", map[])];
      }
      r := userByPK(pk);
    }

    /** `GET authenticators/admin/all/`. */
    method GetDevices(q: Query) returns (r: Result<seq<ApiDevice>, Error>)
      modifies this
      ensures r == devices(q)
      ensures log == old(log) + Sent(configErr, Get(DevicesPath, q))
    {
      if configErr.None? {
        log := log + [Get(DevicesPath, q)];
      }
      r := devices(q);
    }

    /** `DELETE <path>`. */
    method Delete(path: string) returns (err: Option<Error>)
      modifies this
      ensures err == deleteResult(path)
      ensures log == old(log) + Sent(configErr, HttpRequest.Delete(path))
    {
      if configErr.None? {
        log := log + [HttpRequest.Delete(path)];
      }
      err := deleteResult(path);
    }
  }

  // ---------------------------------------------------------------------
  // fetchUsers

  /** The query for one page. */
  function PageQuery(q: Query, page: int): Query {
    q["page" := Number(page)]
  }

  /** What the provider gets back for each page number of a user listing. */
  function PageAnswers(users: Query -> Result<UserListResponse, Error>, q: Query): int -> Result<UserListResponse, Error> {
    page => users(PageQuery(q, page))
  }

  /** An answer for the pages after `acc` seen as the answer for all pages. */
  function After<T>(acc: seq<T>, rest: Option<Result<seq<T>, Error>>): Option<Result<seq<T>, Error>> {
    if rest.Some? && rest.value.Ok? then Some(Ok(acc + rest.value.value)) else rest
  }

  /** The outcome of following a chain of pages: the answer (`None` when the
      fuel ran out while the server still pointed at a further page) and the
      page numbers asked for, in order. */
  datatype Fetch = Fetch(result: Option<Result<seq<ApiUser>, Error>>, pages: seq<int>)

  /** A fetch seen after the users `acc` were read from the pages `asked`. */
  function Continue(acc: seq<ApiUser>, asked: seq<int>, f: Fetch): Fetch {
    Fetch(After(acc, f.result), asked + f.pages)
  }

  lemma ContinueContinue(a: seq<ApiUser>, x: seq<int>, b: seq<ApiUser>, y: seq<int>, f: Fetch)
    ensures Continue(a, x, Continue(b, y, f)) == Continue(a + b, x + y, f)
  {
    if f.result.Some? && f.result.value.Ok? {
      assert a + (b + f.result.value.value) == (a + b) + f.result.value.value;
    }
    assert x + (y + f.pages) == (x + y) + f.pages;
  }

  lemma ContinueNothing(f: Fetch)
    ensures Continue([], [], f) == f
  {
    if f.result.Some? && f.result.value.Ok? {
      assert [] + f.result.value.value == f.result.value.value;
    }
    assert [] + f.pages == f.pages;
  }

  /** What `fetchUsers` does when it asks for `page` and then follows the
      `next` pointers for at most `fuel` pages: the users of every page in order,
      or the first failure, and the pages it asked for. A `None` answer means the
      server was still pointing at further pages when the fuel ran out (the
      source would keep asking). */
  function FetchUsersFrom(answer: int -> Result<UserListResponse, Error>, page: int, fuel: nat): (f: Fetch)
    ensures |f.pages| <= fuel
    decreases fuel
  {
    if fuel == 0 then Fetch(None, [])
    else
      var r := answer(page);
      if r.Err? then Fetch(Some(Err(r.error)), [page])
      else if !HasNext(r.value.pagination) then Fetch(Some(Ok(r.value.results)), [page])
      else Continue(r.value.results, [page], FetchUsersFrom(answer, r.value.pagination.next.value, fuel - 1))
  }

  /** The requests for a list of pages, as the server logs them: none when the
      configuration is invalid. */
  function PageRequests(configErr: Option<CodedError>, q: Query, pages: seq<int>): seq<HttpRequest> {
    if pages == [] then []
    else PageRequests(configErr, q, pages[..|pages| - 1]) + Sent(configErr, Get(UsersPath, PageQuery(q, pages[|pages| - 1])))
  }

  /** Listing users sends no DELETE, and one GET per page when the
      configuration is valid. */
  lemma {:induction false} PageRequestsOnlyGet(configErr: Option<CodedError>, q: Query, pages: seq<int>)
    ensures Deletes(PageRequests(configErr, q, pages)) == 0
    ensures configErr.None? ==> |PageRequests(configErr, q, pages)| == |pages|
    ensures configErr.Some? ==> PageRequests(configErr, q, pages) == []
  {
    if pages != [] {
      var init := pages[..|pages| - 1];
      PageRequestsOnlyGet(configErr, q, init);
      DeletesAppend(PageRequests(configErr, q, init), Sent(configErr, Get(UsersPath, PageQuery(q, pages[|pages| - 1]))));
    }
  }

  lemma PageRequestsAppend(configErr: Option<CodedError>, q: Query, pages: seq<int>, page: int)
    ensures PageRequests(configErr, q, pages + [page])
         == PageRequests(configErr, q, pages) + Sent(configErr, Get(UsersPath, PageQuery(q, page)))
  {
    assert (pages + [page])[..|pages|] == pages;
  }

  /** A log that held the requests for `pages` holds, once the request for
      `page` is sent, the requests for `pages + [page]`. */
  lemma PageRequestsSent(start: seq<HttpRequest>, configErr: Option<CodedError>, q: Query, pages: seq<int>, page: int)
    ensures (start + PageRequests(configErr, q, pages)) + Sent(configErr, Get(UsersPath, PageQuery(q, page)))
         == start + PageRequests(configErr, q, pages + [page])
  {
    PageRequestsAppend(configErr, q, pages, page);
    Assoc(start, PageRequests(configErr, q, pages), Sent(configErr, Get(UsersPath, PageQuery(q, page))));
  }

  /** `fetchUsers`: starts at page 1 and follows `next` while it points at a page;
      `fuel` bounds the number of pages asked for. */
  method FetchUsers(s: Server, q: Query, fuel: nat) returns (r: Option<Result<seq<ApiUser>, Error>>)
    modifies s
    ensures r == FetchUsersFrom(PageAnswers(s.users, q), 1, fuel).result
    ensures s.log == old(s.log) + PageRequests(s.configErr, q, FetchUsersFrom(PageAnswers(s.users, q), 1, fuel).pages)
  {
    var answer := PageAnswers(s.users, q);
    ghost var whole := FetchUsersFrom(answer, 1, fuel);
    var page := 1;
    var acc: seq<ApiUser> := [];
    var asked: seq<int> := [];
    var left: nat := fuel;
    ContinueNothing(whole);
    // the whole fetch is the pages read so far followed by the fetch from `page`
    while left > 0
      invariant whole == Continue(acc, asked, FetchUsersFrom(answer, page, left))
      invariant s.log == old(s.log) + PageRequests(s.configErr, q, asked)
      decreases left
    {
      var resp := s.GetUsers(PageQuery(q, page));
      assert resp == answer(page);
      PageRequestsSent(old(s.log), s.configErr, q, asked, page);
      if resp.Err? {
        FetchUsersFails(answer, acc, asked, page, left);
        asked := asked + [page];
        return Some(Err(resp.error));
      }
      if !HasNext(resp.value.pagination) {
        FetchUsersEnds(answer, acc, asked, page, left);
        asked := asked + [page];
        return Some(Ok(acc + resp.value.results));
      }
      FetchUsersStep(answer, acc, asked, page, left);
      asked := asked + [page];
      acc := acc + resp.value.results;
      page := resp.value.pagination.next.value;
      left := left - 1;
    }
    assert asked + [] == asked;
    r := None;
  }

  /** A page that points at another adds its users and its number, and the
      fetch goes on from the page it points at. */
  lemma FetchUsersStep(answer: int -> Result<UserListResponse, Error>, acc: seq<ApiUser>, asked: seq<int>,
                       page: int, fuel: nat)
    requires fuel > 0 && answer(page).Ok? && HasNext(answer(page).value.pagination)
    ensures Continue(acc, asked, FetchUsersFrom(answer, page, fuel))
         == Continue(acc + answer(page).value.results, asked + [page],
                     FetchUsersFrom(answer, answer(page).value.pagination.next.value, fuel - 1))
  {
    ContinueContinue(acc, asked, answer(page).value.results, [page],
                     FetchUsersFrom(answer, answer(page).value.pagination.next.value, fuel - 1));
  }

  /** A failing page ends the fetch with its error. */
  lemma FetchUsersFails(answer: int -> Result<UserListResponse, Error>, acc: seq<ApiUser>, asked: seq<int>,
                        page: int, fuel: nat)
    requires fuel > 0 && answer(page).Err?
    ensures Continue(acc, asked, FetchUsersFrom(answer, page, fuel)) == Fetch(Some(Err(answer(page).error)), asked + [page])
  {
  }

  /** A page that points nowhere ends the fetch with the users read so far
      and its own. */
  lemma FetchUsersEnds(answer: int -> Result<UserListResponse, Error>, acc: seq<ApiUser>, asked: seq<int>,
                       page: int, fuel: nat)
    requires fuel > 0 && answer(page).Ok? && !HasNext(answer(page).value.pagination)
    ensures Continue(acc, asked, FetchUsersFrom(answer, page, fuel)) == Fetch(Some(Ok(acc + answer(page).value.results)), asked + [page])
  {
  }

  /** A server whose pages `first`..`n` each point at the next and whose page
      `n` points nowhere is read to the end with enough fuel: the answer is the
      users of every page, in page order. */
  lemma {:induction false} FetchUsersReadsAllPages(answer: int -> Result<UserListResponse, Error>,
                                                   first: nat, n: nat, pages: seq<seq<ApiUser>>, fuel: nat)
    requires 1 <= first <= n && |pages| == n && fuel >= n - first + 1
    requires forall p :: first <= p <= n ==>
      answer(p) == Ok(UserListResponse(Pagination(if p < n then Some(p + 1) else None), pages[p - 1]))
    ensures FetchUsersFrom(answer, first, fuel).result == Some(Ok(Concat(pages[first - 1..])))
    ensures |FetchUsersFrom(answer, first, fuel).pages| == n - first + 1
    decreases n - first
  {
    var tail := pages[first - 1..];
    assert tail[0] == pages[first - 1] && tail[1..] == pages[first..];
    assert answer(first) == Ok(UserListResponse(Pagination(if first < n then Some(first + 1) else None), pages[first - 1]));
    if first < n {
      FetchUsersReadsAllPages(answer, first + 1, n, pages, fuel - 1);
      assert Concat(tail) == pages[first - 1] + Concat(pages[first..]);
    } else {
      assert tail == [pages[first - 1]];
      assert Concat(tail) == pages[first - 1] + Concat([]);
      assert pages[first - 1] + [] == pages[first - 1];
    }
  }

  /** The concatenation of a list of pages. */
  function Concat<T>(pages: seq<seq<T>>): seq<T>
  {
    if pages == [] then [] else pages[0] + Concat(pages[1..])
  }
}
