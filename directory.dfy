/** `directory/provider.go`: the error type providers return and the capability
    interface every directory backend implements. */
module Directory {
  import opened Wrappers
  import opened Api

  /** `CodedError` is the wire error record given the `error` interface. It has
      exactly the fields of `DirAgentErrorResponse`. */
  datatype CodedError = CodedError(code: ErrorCode, message: string) {
    /** `Error()`: the code, one space, the message. */
    function Text(): (t: string)
      ensures |t| == |CodeText(code)| + 1 + |message|
      ensures t[..|CodeText(code)|] == CodeText(code) && t[|CodeText(code)|] == ' '
      ensures t[|CodeText(code)| + 1..] == message
    {
      CodeText(code) + " " + message
    }

    /** The conversion `diragentapi.DirAgentErrorResponse(codedErr)`. */
    function ToWire(): (w: ErrorResponse)
      ensures w.code == code && w.message == message
    {
      ErrorResponse(code, message)
    }
  }

  /** The conversion the other way, `CodedError(resp)`. */
  function FromWire(w: ErrorResponse): (c: CodedError)
    ensures c.ToWire() == w
  {
    CodedError(w.code, w.message)
  }

  lemma WireRoundTrip(c: CodedError)
    ensures FromWire(c.ToWire()) == c
  {
  }

  /** Go `error` values as the providers build them: a `CodedError`, a plain
      `errors.New`/`fmt.Errorf` text, or `fmt.Errorf("...%w", cause)`, which
      prints `prefix` before the cause's text and unwraps to the cause. */
  datatype Error =
    | Coded(coded: CodedError)
    | Plain(text: string)
    | Wrapped(prefix: string, cause: Error)
  {
    /** `err.Error()`. */
    function Text(): string {
      match this
      case Coded(c) => c.Text()
      case Plain(t) => t
      case Wrapped(p, cause) => p + cause.Text()
    }

    /** The errors `errors.As` visits: this error, then what it unwraps to. */
    function Chain(): (ch: seq<Error>)
      ensures |ch| > 0 && ch[0] == this
    {
      match this
      case Wrapped(_, cause) => [this] + cause.Chain()
      case _ => [this]
    }

    /** `errors.As(err, &codedErr)`: the first `CodedError` on the chain. */
    function AsCoded(): (r: Option<CodedError>)
      ensures r.Some? ==> Coded(r.value) in Chain()
      ensures r.None? ==> forall k :: 0 <= k < |Chain()| ==> !Chain()[k].Coded?
    {
      match this
      case Coded(c) => Some(c)
      case Plain(_) => None
      case Wrapped(_, cause) => cause.AsCoded()
    }
  }

  /** Wrapping never hides a coded error from `errors.As`. */
  lemma {:induction false} AsCodedThroughWraps(c: CodedError, prefixes: seq<string>)
    ensures WrapAll(prefixes, Coded(c)).AsCoded() == Some(c)
  {
    if prefixes != [] {
      AsCodedThroughWraps(c, prefixes[1..]);
    }
  }

  /** `fmt.Errorf(p0 + "%w", fmt.Errorf(p1 + "%w", ... e))`. */
  function WrapAll(prefixes: seq<string>, e: Error): (w: Error)
    ensures |w.Chain()| == |prefixes| + |e.Chain()|
  {
    if prefixes == [] then e else Wrapped(prefixes[0], WrapAll(prefixes[1..], e))
  }

  /** An error that carries a code, as the providers build with `directory.CodedError{...}`. */
  function CodedErr(code: ErrorCode, message: string): (e: Error)
    ensures e.AsCoded() == Some(CodedError(code, message))
  {
    Coded(CodedError(code, message))
  }

  /** A provider result: an error, or a (possibly nil) response pointer. */
  type Reply<T> = Result<Option<T>, Error>

  /** The `Provider` interface: exactly five operations. A backend is a value of
      this type; the operations' I/O is hidden inside the functions. */
  datatype Provider = Provider(
    configure: ConfigureRequest -> Reply<ConfigureResponse>,
    listAccounts: ListAccountsRequest -> Reply<ListAccountsResponse>,
    getAccount: GetAccountRequest -> Reply<GetAccountResponse>,
    listGroups: ListGroupsRequest -> Reply<ListGroupsResponse>,
    performOperation: PerformOperationRequest -> Reply<PerformOperationResponse>)

  /** A backend implementation's own result, which is never a nil pointer, as a
      `Provider` reply. */
  function AsReply<T>(r: Result<T, Error>): (p: Reply<T>)
    ensures r.Ok? <==> p.Ok?
    ensures r.Ok? ==> p.value == Some(r.value)
    ensures r.Err? ==> p.error == r.error
  {
    match r
    case Ok(v) => Ok(Some(v))
    case Err(e) => Err(e)
  }

  const AllCodes: seq<ErrorCode> := [ConfigurationError, ServiceAuthenticationFailed, PermissionDenied,
                                     AccountNotFound, UnsupportedAccountState, InternalError]

  lemma AllCodesListed(c: ErrorCode)
    ensures c in AllCodes
  {
    match c
    case ConfigurationError => assert AllCodes[0] == c;
    case ServiceAuthenticationFailed => assert AllCodes[1] == c;
    case PermissionDenied => assert AllCodes[2] == c;
    case AccountNotFound => assert AllCodes[3] == c;
    case UnsupportedAccountState => assert AllCodes[4] == c;
    case InternalError => assert AllCodes[5] == c;
  }

  /** Splits the `Error()` text of a coded error back into code and message. */
  function ParseCodedText(t: string): Option<CodedError> {
    ParseCodedTextFrom(t, AllCodes)
  }

  function ParseCodedTextFrom(t: string, codes: seq<ErrorCode>): Option<CodedError> {
    if codes == [] then None
    else
      var name := CodeText(codes[0]);
      if |name| < |t| && t[..|name|] == name && t[|name|] == ' '
      then Some(CodedError(codes[0], t[|name| + 1..]))
      else ParseCodedTextFrom(t, codes[1..])
  }

  /** Two words without spaces that both end at the first space of a text are
      the same word. */
  lemma SpaceEndsWord(a: string, b: string, t: string)
    requires NoSpace(a) && NoSpace(b)
    requires |a| < |t| && t[..|a|] == a && t[|a|] == ' '
    requires |b| < |t| && t[..|b|] == b && t[|b|] == ' '
    ensures a == b
  {
  }

  lemma {:induction false} ParseCodedTextFromText(c: CodedError, codes: seq<ErrorCode>)
    requires c.code in codes
    ensures ParseCodedTextFrom(c.Text(), codes) == Some(c)
  {
    var t := c.Text();
    var name := CodeText(codes[0]);
    var own := CodeText(c.code);
    if codes[0] == c.code {
      assert t[..|name|] == name && t[|name| + 1..] == c.message;
    } else {
      CodeTextInjective(codes[0], c.code);
      if |name| < |t| && t[..|name|] == name && t[|name|] == ' ' {
        CodeTextNoSpace(codes[0]);
        CodeTextNoSpace(c.code);
        SpaceEndsWord(name, own, t);
        assert false;
      }
      ParseCodedTextFromText(c, codes[1..]);
    }
  }

  /** The printed form of a coded error loses nothing: code and message can be read back. */
  lemma CodedTextRoundTrip(c: CodedError)
    ensures ParseCodedText(c.Text()) == Some(c)
  {
    AllCodesListed(c.code);
    ParseCodedTextFromText(c, AllCodes);
  }

  /** The error a provider gives for an operation it does not support
      (`fmt.Errorf("unsupported operation %s", op)`); it carries no code. */
  function UnsupportedOperation(op: Operation): (e: Error)
    ensures e.AsCoded().None?
    ensures e.Text() == "unsupported operation " + OperationText(op)
  {
    Plain("unsupported operation " + OperationText(op))
  }

  /** What a Go call does when it may panic: it returns its result, or it
      panics (a nil dereference, an index out of range, a failed type assertion). */
  datatype Outcome<T> = Finished(result: Result<T, Error>) | Panicked
}
