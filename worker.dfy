/** `internal/diragent/worker.go`: the worker process. It reads one request at a
    time, hands it to the provider and writes one response back. */
module Worker {
  import opened Wrappers
  import opened Api
  import opened Directory

  /** The request fields in the order the dispatcher tests them. */
  datatype Tag = PingTag | ConfigureTag | GetAccountTag | ListAccountsTag | ListGroupsTag | PerformOperationTag

  /** The first populated field in dispatch order, if any. */
  function FirstTag(req: Request): (t: Option<Tag>)
    ensures t.None? <==> req == EmptyRequest
    ensures t == Some(PingTag) <==> req.ping.Some?
    ensures t == Some(ConfigureTag) <==> req.ping.None? && req.configure.Some?
    ensures t == Some(GetAccountTag) <==> req.ping.None? && req.configure.None? && req.getAccount.Some?
    ensures t == Some(ListAccountsTag) <==>
      req.ping.None? && req.configure.None? && req.getAccount.None? && req.listAccounts.Some?
    ensures t == Some(ListGroupsTag) <==>
      req.ping.None? && req.configure.None? && req.getAccount.None? && req.listAccounts.None?
      && req.listGroups.Some?
    ensures t == Some(PerformOperationTag) <==>
      req.ping.None? && req.configure.None? && req.getAccount.None? && req.listAccounts.None?
      && req.listGroups.None? && req.performOperation.Some?
  {
    if req.ping.Some? then Some(PingTag)
    else if req.configure.Some? then Some(ConfigureTag)
    else if req.getAccount.Some? then Some(GetAccountTag)
    else if req.listAccounts.Some? then Some(ListAccountsTag)
    else if req.listGroups.Some? then Some(ListGroupsTag)
    else if req.performOperation.Some? then Some(PerformOperationTag)
    else None
  }

  /** The request with every field but the first populated one cleared. */
  function OnlyFirst(req: Request): (o: Request)
    ensures FirstTag(o) == FirstTag(req)
  {
    match FirstTag(req)
    case None => EmptyRequest
    case Some(PingTag) => EmptyRequest.(ping := req.ping)
    case Some(ConfigureTag) => EmptyRequest.(configure := req.configure)
    case Some(GetAccountTag) => EmptyRequest.(getAccount := req.getAccount)
    case Some(ListAccountsTag) => EmptyRequest.(listAccounts := req.listAccounts)
    case Some(ListGroupsTag) => EmptyRequest.(listGroups := req.listGroups)
    case Some(PerformOperationTag) => EmptyRequest.(performOperation := req.performOperation)
  }

  /** `handleError`: a coded error anywhere on the chain keeps its code and
      message; anything else is an internal error carrying the error's text. */
  function HandleError(err: Error): (r: Response)
    ensures NoData(r) && r.error.Some?
    ensures err.AsCoded().Some? ==> r.error == Some(err.AsCoded().value.ToWire())
    ensures err.AsCoded().None? ==> r.error == Some(ErrorResponse(InternalError, err.Text()))
  {
    match err.AsCoded()
    case Some(c) => ErrorOnly(c.code, c.message)
    case None => ErrorOnly(InternalError, err.Text())
  }

  /** Turns one provider reply into the response that carries it. */
  function Wrap<T>(reply: Reply<T>, put: Option<T> -> Response): Response {
    match reply
    case Err(e) => HandleError(e)
    case Ok(v) => put(v)
  }

  /** `workerDoRequest`. */
  function DoRequest(p: Provider, req: Request): Response {
    if req.ping.Some? then EmptyResponse
    else if req.configure.Some? then
      Wrap(p.configure(req.configure.value), (v: Option<ConfigureResponse>) => EmptyResponse.(configure := v))
    else if req.getAccount.Some? then
      Wrap(p.getAccount(req.getAccount.value), (v: Option<GetAccountResponse>) => EmptyResponse.(getAccount := v))
    else if req.listAccounts.Some? then
      Wrap(p.listAccounts(req.listAccounts.value), (v: Option<ListAccountsResponse>) => EmptyResponse.(listAccounts := v))
    else if req.listGroups.Some? then
      Wrap(p.listGroups(req.listGroups.value), (v: Option<ListGroupsResponse>) => EmptyResponse.(listGroups := v))
    else if req.performOperation.Some? then
      Wrap(p.performOperation(req.performOperation.value),
           (v: Option<PerformOperationResponse>) => EmptyResponse.(performOperation := v))
    else ErrorOnly(InternalError, "unknown operation")
  }

  /** A response never carries both an error and data, nor more than one data field. */
  lemma DoRequestShape(p: Provider, req: Request)
    ensures DataCount(DoRequest(p, req)) <= 1
    ensures DoRequest(p, req).error.Some? ==> NoData(DoRequest(p, req))
  {
  }

  /** A ping is answered with an empty response. */
  lemma PingAnswer(p: Provider, req: Request)
    requires req.ping.Some?
    ensures DoRequest(p, req) == EmptyResponse
  {
  }

  /** A request with no field set is an unknown operation. */
  lemma UnknownOperation(p: Provider)
    ensures DoRequest(p, EmptyRequest) == ErrorOnly(InternalError, "unknown operation")
  {
  }

  /** Only the first populated field matters: the provider sees that one request only. */
  lemma FirstTagWins(p: Provider, req: Request)
    ensures DoRequest(p, req) == DoRequest(p, OnlyFirst(req))
  {
  }

  /** A successful provider call gives exactly its own field and no error. */
  lemma SuccessSetsOwnField(p: Provider, req: Request)
    ensures FirstTag(req) == Some(ConfigureTag) && p.configure(req.configure.value).Ok?
            ==> DoRequest(p, req) == EmptyResponse.(configure := p.configure(req.configure.value).value)
    ensures FirstTag(req) == Some(GetAccountTag) && p.getAccount(req.getAccount.value).Ok?
            ==> DoRequest(p, req) == EmptyResponse.(getAccount := p.getAccount(req.getAccount.value).value)
    ensures FirstTag(req) == Some(ListAccountsTag) && p.listAccounts(req.listAccounts.value).Ok?
            ==> DoRequest(p, req) == EmptyResponse.(listAccounts := p.listAccounts(req.listAccounts.value).value)
    ensures FirstTag(req) == Some(ListGroupsTag) && p.listGroups(req.listGroups.value).Ok?
            ==> DoRequest(p, req) == EmptyResponse.(listGroups := p.listGroups(req.listGroups.value).value)
    ensures FirstTag(req) == Some(PerformOperationTag) && p.performOperation(req.performOperation.value).Ok?
            ==> DoRequest(p, req) == EmptyResponse.(performOperation := p.performOperation(req.performOperation.value).value)
  {
  }

  /** The error a provider call failed with, if the dispatched call failed. */
  function ProviderError(p: Provider, req: Request): Option<Error> {
    if req.ping.Some? then None
    else if req.configure.Some? then ErrOf(p.configure(req.configure.value))
    else if req.getAccount.Some? then ErrOf(p.getAccount(req.getAccount.value))
    else if req.listAccounts.Some? then ErrOf(p.listAccounts(req.listAccounts.value))
    else if req.listGroups.Some? then ErrOf(p.listGroups(req.listGroups.value))
    else if req.performOperation.Some? then ErrOf(p.performOperation(req.performOperation.value))
    else None
  }

  function ErrOf<T>(r: Reply<T>): Option<Error> {
    if r.Err? then Some(r.error) else None
  }

  /** A failed provider call is classified by `handleError`: a coded error passes
      through with code and message unchanged, any other error becomes an
      internal error with the error's text, and no data field is set. */
  lemma ErrorClassification(p: Provider, req: Request)
    requires ProviderError(p, req).Some?
    ensures NoData(DoRequest(p, req))
    ensures var e := ProviderError(p, req).value;
      match e.AsCoded()
      case Some(c) => DoRequest(p, req).error == Some(ErrorResponse(c.code, c.message))
      case None => DoRequest(p, req).error == Some(ErrorResponse(InternalError, e.Text()))
  {
  }

  /** `RunWorker`: decodes requests one by one, answers each, and stops at the
      first decode failure (an exhausted input is `io.EOF`) or the first write
      failure. `input[i]` is the i-th decode result; `writeFails(i)` is the error
      writing the i-th response gives, if any. Returns the responses written and
      the error the loop ends with. */
  method RunWorker(p: Provider, input: seq<Result<Request, Error>>, writeFails: nat -> Option<Error>)
    returns (written: seq<Response>, stop: Error)
    ensures |written| <= |input|
    ensures forall i :: 0 <= i < |written| ==>
      input[i].Ok? && written[i] == DoRequest(p, input[i].value) && writeFails(i).None?
    ensures |written| == |input| ==> stop == Plain("EOF")
    ensures |written| < |input| && input[|written|].Err? ==> stop == input[|written|].error
    ensures |written| < |input| && input[|written|].Ok? ==> writeFails(|written|) == Some(stop)
  {
    written := [];
    var i := 0;
    while i < |input|
      invariant 0 <= i <= |input| && |written| == i
      invariant forall j :: 0 <= j < i ==>
        input[j].Ok? && written[j] == DoRequest(p, input[j].value) && writeFails(j).None?
    {
      match input[i]
      case Err(e) =>
        return written, e;
      case Ok(req) =>
        var resp := DoRequest(p, req);
        match writeFails(i)
        case Some(e) =>
          return written, e;
        case None =>
          written := written + [resp];
          i := i + 1;
    }
    return written, Plain("EOF");
  }
}
