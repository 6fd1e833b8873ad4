/** `internal/diragent/diragent.go`: the relay. It checks the worker with a
    handshake, forwards requests from the server to the worker and responses
    back, overrides responses that do not carry the requested field, and
    reconnects with a backoff whose attempt counter resets after a long session. */
module Relay {
  import opened Wrappers
  import opened Text
  import opened Api
  import opened Directory
  import Worker

  // ---------------------------------------------------------------------
  // Response validation in runOnce

  /** The message the relay puts in an overriding error. */
  function MissingFieldMessage(field: string): string {
    MissingHead + field + MissingTail
  }

  const MissingHead: string := "command must set '"
  const MissingTail: string := "' in response"

  /** The response fields by their JSON names. */
  const ConfigureField: string := "configure"
  const GetAccountField: string := "get_account"
  const ListAccountsField: string := "list_accounts"
  const ListGroupsField: string := "list_groups"
  const PerformOperationField: string := "perform_operation"

  /** The field the relay insists on for a request, checked in the order
      configure, get_account, list_accounts, list_groups, perform_operation
      (there is no ping case), together with whether the response has it. */
  function Expected(req: Request, resp: Response): Option<(string, bool)> {
    if req.configure.Some? then Some((ConfigureField, resp.configure.Some?))
    else if req.getAccount.Some? then Some((GetAccountField, resp.getAccount.Some?))
    else if req.listAccounts.Some? then Some((ListAccountsField, resp.listAccounts.Some?))
    else if req.listGroups.Some? then Some((ListGroupsField, resp.listGroups.Some?))
    else if req.performOperation.Some? then Some((PerformOperationField, resp.performOperation.Some?))
    else None
  }

  /** The validation block: only `resp.Error` may change. */
  function Validate(req: Request, resp: Response): (out: Response)
    // an error from the worker is forwarded unchanged
    ensures resp.error.Some? ==> out == resp
    // only the error field is ever assigned
    ensures out == resp.(error := out.error)
    // the override happens exactly when the expected field is missing
    ensures resp.error.None? ==>
      match Expected(req, resp)
      case Some((field, present)) =>
        out.error == (if present then None else Some(ErrorResponse(InternalError, MissingFieldMessage(field))))
      case None => out == resp
  {
    if resp.error.Some? then resp
    else
      match Expected(req, resp)
      case Some((field, present)) =>
        if present then resp
        else resp.(error := Some(ErrorResponse(InternalError, MissingFieldMessage(field))))
      case None => resp
  }

  /** A ping (a request with none of the five data fields) is never overridden. */
  lemma PingNeverOverridden(req: Request, resp: Response)
    requires req.configure.None? && req.getAccount.None? && req.listAccounts.None?
    requires req.listGroups.None? && req.performOperation.None?
    ensures Validate(req, resp) == resp
  {
  }

  /** Validation is idempotent: a validated response passes validation unchanged. */
  lemma ValidateIdempotent(req: Request, resp: Response)
    ensures Validate(req, Validate(req, resp)) == Validate(req, resp)
  {
  }

  /** After validation a response to a data request carries the requested field or an error. */
  lemma ValidatedHasFieldOrError(req: Request, resp: Response)
    requires Expected(req, resp).Some?
    ensures var out := Validate(req, resp);
      out.error.Some? || Expected(req, out).value.1
  {
  }

  /** The relay and the worker agree: for a request without ping, when the
      provider call the worker makes does not return a nil response, the relay
      forwards the worker's response unchanged. */
  lemma RelayKeepsWorkerResponse(p: Provider, req: Request)
    requires req.ping.None?
    requires req.configure.Some? ==> p.configure(req.configure.value) != Ok(None)
    requires req.configure.None? && req.getAccount.Some? ==> p.getAccount(req.getAccount.value) != Ok(None)
    requires req.configure.None? && req.getAccount.None? && req.listAccounts.Some?
             ==> p.listAccounts(req.listAccounts.value) != Ok(None)
    requires req.configure.None? && req.getAccount.None? && req.listAccounts.None? && req.listGroups.Some?
             ==> p.listGroups(req.listGroups.value) != Ok(None)
    requires (req.configure.None? && req.getAccount.None? && req.listAccounts.None? && req.listGroups.None?
              && req.performOperation.Some?) ==> p.performOperation(req.performOperation.value) != Ok(None)
    ensures Validate(req, Worker.DoRequest(p, req)) == Worker.DoRequest(p, req)
  {
  }

  /** A provider that answers configure with a nil response is caught by the relay. */
  lemma RelayCatchesNilConfigure(p: Provider, c: ConfigureRequest)
    requires p.configure(c) == Ok(None)
    ensures var req := EmptyRequest.(configure := Some(c));
      Validate(req, Worker.DoRequest(p, req))
      == ErrorOnly(InternalError, MissingFieldMessage(ConfigureField))
  {
  }

  /** A request that sets both ping and configure is answered by the worker as a
      ping, and the relay then overrides that answer, as it only looks for
      configure. */
  lemma PingWithConfigure(p: Provider, c: ConfigureRequest)
    ensures var req := EmptyRequest.(ping := Some(PingRequest), configure := Some(c));
      Worker.DoRequest(p, req) == EmptyResponse
      && Validate(req, Worker.DoRequest(p, req))
         == ErrorOnly(InternalError, MissingFieldMessage(ConfigureField))
  {
  }

  // ---------------------------------------------------------------------
  // The forwarding loop of runOnce

  /** One session's forwarding loop. `fromServer[i]` is the i-th websocket read,
      `toWorker(i)` the error writing the i-th request to the worker (if any),
      `fromWorker(i)` the worker's i-th response or the decode error, and
      `toServer(i)` the error writing the i-th response upstream (if any). The
      loop returns the validated responses it delivered and the error it ends
      with; a session whose reads never fail does not end, so the reads are
      finite here and running out of them means the session was still open. */
  method RunOnce(fromServer: seq<Result<Request, Error>>, toWorker: nat -> Option<Error>,
                 fromWorker: nat -> Result<Response, Error>, toServer: nat -> Option<Error>)
    returns (delivered: seq<Response>, stop: Option<Error>)
    ensures |delivered| <= |fromServer|
    ensures forall i :: 0 <= i < |delivered| ==>
      fromServer[i].Ok? && toWorker(i).None? && fromWorker(i).Ok? && toServer(i).None?
      && delivered[i] == Validate(fromServer[i].value, fromWorker(i).value)
    ensures stop.None? <==> |delivered| == |fromServer|
    ensures stop.Some? ==> var n := |delivered|;
      if fromServer[n].Err? then stop == Some(fromServer[n].error)
      else if toWorker(n).Some? then stop == toWorker(n)
      else if fromWorker(n).Err? then stop == Some(fromWorker(n).error)
      else stop == toServer(n)
  {
    delivered := [];
    var i := 0;
    while i < |fromServer|
      invariant 0 <= i <= |fromServer| && |delivered| == i
      invariant forall j :: 0 <= j < i ==>
        fromServer[j].Ok? && toWorker(j).None? && fromWorker(j).Ok? && toServer(j).None?
        && delivered[j] == Validate(fromServer[j].value, fromWorker(j).value)
    {
      if fromServer[i].Err? {
        return delivered, Some(fromServer[i].error);
      }
      var req := fromServer[i].value;
      if toWorker(i).Some? {
        return delivered, toWorker(i);
      }
      if fromWorker(i).Err? {
        return delivered, Some(fromWorker(i).error);
      }
      var resp := Validate(req, fromWorker(i).value);
      if toServer(i).Some? {
        return delivered, toServer(i);
      }
      delivered := delivered + [resp];
      i := i + 1;
    }
    return delivered, None;
  }

  // ---------------------------------------------------------------------
  // Token redaction

  /** The value the logged URL shows for `auth`: `"**"` once per byte of the token. */
  function RedactToken(token: string): (mask: string)
    ensures |mask| == 2 * Utf8Len(token)
    ensures forall k :: 0 <= k < |mask| ==> mask[k] == '*'
  {
    Repeat("**", Utf8Len(token))
  }

  /** A token with any character other than `*` is not visible in its mask. */
  lemma RedactionHidesToken(token: string, k: nat)
    requires exists j :: 0 <= j < |token| && token[j] != '*'
    ensures k + |token| <= |RedactToken(token)| ==> RedactToken(token)[k..k + |token|] != token
  {
    var mask := RedactToken(token);
    var j :| 0 <= j < |token| && token[j] != '*';
    if k + |token| <= |mask| {
      assert mask[k..k + |token|][j] == mask[k + j] == '*';
    }
  }

  // ---------------------------------------------------------------------
  // The handshake in Run

  /** The request Run sends first: configure, with an empty configure request. */
  const HandshakeRequest: Request := EmptyRequest.(configure := Some(ConfigureRequest))

  /** The outcome of the handshake: `None` lets Run go on; an error reply stops Run
      with `error: <code> <message>`. */
  function CheckHandshake(reply: Response): (r: Option<Error>)
    ensures r.None? <==> reply.error.None?
    ensures reply.error.Some? ==>
      r == Some(Plain("error: " + CodeText(reply.error.value.code) + " " + reply.error.value.message))
  {
    match reply.error
    case Some(e) => Some(Plain("error: " + CodeText(e.code) + " " + e.message))
    case None => None
  }

  /** The handshake message of a coded worker error is the error's own text after `error: `. */
  lemma HandshakeShowsCodedText(p: Provider, c: CodedError)
    requires p.configure(ConfigureRequest) == Err(Coded(c))
    ensures CheckHandshake(Worker.DoRequest(p, HandshakeRequest)) == Some(Plain("error: " + c.Text()))
  {
    assert "error: " + CodeText(c.code) + " " + c.message == "error: " + c.Text();
  }

  // ---------------------------------------------------------------------
  // Reconnecting in Run

  /** Durations in nanoseconds, like Go's `time.Duration`. */
  const Second: nat := 1_000_000_000
  const Minute: nat := 60 * Second

  /** The part of `backoff.Backoff` the relay relies on: the attempt counter,
      with the configured bounds of one second and one minute. */
  class Backoff {
    var attempt: nat
    const min: nat
    const max: nat

    constructor ()
      ensures attempt == 0 && min == Second && max == Minute
    {
      attempt := 0;
      min := Second;
      max := Minute;
    }

    /** `bo.Reset()`. */
    method Reset()
      modifies this
      ensures attempt == 0
    {
      attempt := 0;
    }

    /** `bo.Duration()`: the delay for the current attempt (computed by the
        library) is chosen by `used`, and the counter moves on. */
    method Duration() returns (used: nat)
      modifies this
      ensures used == old(attempt) && attempt == old(attempt) + 1
    {
      used := attempt;
      attempt := attempt + 1;
    }
  }

  /** How one `runOnce` call ended, as Run sees it. */
  datatype Session = Session(err: Option<Error>, duration: nat, outerDone: Option<ContextErr>)

  /** The outer context's state when a session ended (`ctx.Err()`). */
  datatype ContextErr = Canceled | DeadlineExceeded

  datatype RunOutcome =
    | Returned(err: Option<Error>)
    | StillRetrying                  // the sessions ran out while Run kept retrying

  /** The attempt numbers the backoff uses for the sleeps after each failed
      session: a session of more than a minute starts again from 0. */
  function Attempts(durations: seq<nat>): (a: seq<nat>)
    ensures |a| == |durations|
  {
    if durations == [] then []
    else
      var prev := Attempts(durations[..|durations| - 1]);
      var last := durations[|durations| - 1];
      prev + [if last > Minute || prev == [] then 0 else prev[|prev| - 1] + 1]
  }

  /** The attempt counter is 0 exactly after the first session and after long sessions,
      and otherwise counts on from the previous sleep. */
  lemma {:induction false} AttemptsReset(durations: seq<nat>, i: nat)
    requires i < |durations|
    ensures Attempts(durations)[i] == 0 <==> i == 0 || durations[i] > Minute
    ensures 0 < i && durations[i] <= Minute ==> Attempts(durations)[i] == Attempts(durations)[i - 1] + 1
    ensures Attempts(durations)[i] <= i
  {
    var n := |durations|;
    var pre := durations[..n - 1];
    if i < n - 1 {
      AttemptsReset(pre, i);
      assert pre[i] == durations[i];
      if 0 < i {
        assert Attempts(durations)[i - 1] == Attempts(pre)[i - 1];
      }
    } else if 0 < i {
      AttemptsReset(pre, i - 1);
    }
  }

  /** The durations of the sessions before the first one that returns. */
  function Durations(sessions: seq<Session>): (d: seq<nat>)
    ensures |d| == |sessions|
    ensures forall k :: 0 <= k < |d| ==> d[k] == sessions[k].duration
  {
    if sessions == [] then [] else Durations(sessions[..|sessions| - 1]) + [sessions[|sessions| - 1].duration]
  }

  /** What ends Run after a session, if anything does. */
  function SessionEnd(s: Session): Option<RunOutcome> {
    if s.err.None? then Some(Returned(None))
    else match s.outerDone
      case Some(Canceled) => Some(Returned(None))
      case Some(DeadlineExceeded) => Some(Returned(Some(Plain("context deadline exceeded"))))
      case None => None
  }

  /** One more sleep extends the attempt sequence by one entry. */
  lemma AttemptsStep(sessions: seq<Session>, i: nat)
    requires i < |sessions|
    ensures var prev := Attempts(Durations(sessions[..i]));
      Attempts(Durations(sessions[..i + 1]))
      == prev + [if sessions[i].duration > Minute || prev == [] then 0 else prev[|prev| - 1] + 1]
  {
    assert sessions[..i + 1][..i] == sessions[..i];
    assert Durations(sessions[..i + 1])[..i] == Durations(sessions[..i]);
  }

  /** The retry loop of `Run`: sessions run until one returns nil or the outer
      context is done. The attempt numbers used for each sleep are returned. */
  method Retry(sessions: seq<Session>) returns (outcome: RunOutcome, sleeps: seq<nat>)
    ensures |sleeps| <= |sessions|
    ensures forall k :: 0 <= k < |sleeps| ==> SessionEnd(sessions[k]).None?
    ensures sleeps == Attempts(Durations(sessions[..|sleeps|]))
    ensures |sleeps| < |sessions| ==> SessionEnd(sessions[|sleeps|]) == Some(outcome)
    ensures |sleeps| == |sessions| ==> outcome == StillRetrying
  {
    sleeps := [];
    var bo := new Backoff();
    var i := 0;
    while i < |sessions|
      invariant 0 <= i <= |sessions| && |sleeps| == i
      invariant forall k :: 0 <= k < i ==> SessionEnd(sessions[k]).None?
      invariant sleeps == Attempts(Durations(sessions[..i]))
      invariant i == 0 ==> bo.attempt == 0
      invariant i > 0 ==> bo.attempt == sleeps[i - 1] + 1
    {
      var s := sessions[i];
      var end := SessionEnd(s);
      if end.Some? {
        return end.value, sleeps;
      }
      if s.duration > Minute {
        bo.Reset();
      }
      var used := bo.Duration();
      AttemptsStep(sessions, i);
      sleeps := sleeps + [used];
      i := i + 1;
    }
    return StillRetrying, sleeps;
  }

  /** `Run` after the worker has started: the handshake reply is checked first
      and stops Run on failure; otherwise Run retries sessions. */
  method Run(handshake: Result<Response, Error>, sessions: seq<Session>)
    returns (outcome: RunOutcome, sleeps: seq<nat>)
    ensures handshake.Err? ==> outcome == Returned(Some(handshake.error)) && sleeps == []
    ensures handshake.Ok? && CheckHandshake(handshake.value).Some? ==>
      outcome == Returned(CheckHandshake(handshake.value)) && sleeps == []
    ensures handshake.Ok? && CheckHandshake(handshake.value).None? ==>
      |sleeps| <= |sessions| && sleeps == Attempts(Durations(sessions[..|sleeps|]))
      && (|sleeps| < |sessions| ==> SessionEnd(sessions[|sleeps|]) == Some(outcome))
      && (|sleeps| == |sessions| ==> outcome == StillRetrying)
  {
    if handshake.Err? {
      return Returned(Some(handshake.error)), [];
    }
    var check := CheckHandshake(handshake.value);
    if check.Some? {
      return Returned(check), [];
    }
    outcome, sleeps := Retry(sessions);
  }
}
