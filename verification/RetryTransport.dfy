/** The retrying runtime transport and the body capture it relies on
    (internal/agentadapter/transport.go, proxy.go). Durations are milliseconds. */
module RetryTransport {
  import opened Wrappers

  const RETRY_MAX_ATTEMPTS := 3
  const RETRY_BASE_DELAY := 100
  const RETRY_MAX_DELAY := 1000

  // ---------- Back-off ----------

  function Pow2(n: nat): nat { if n == 0 then 1 else 2 * Pow2(n - 1) }

  /** The n-th back-off: the base doubled n-1 times, at most the maximum. */
  function Backoff(n: nat): nat
    requires n >= 1
  {
    if RETRY_BASE_DELAY * Pow2(n - 1) < RETRY_MAX_DELAY then RETRY_BASE_DELAY * Pow2(n - 1) else RETRY_MAX_DELAY
  }

  lemma {:induction false} Pow2Grows(m: nat, n: nat)
    requires m <= n
    ensures Pow2(m) <= Pow2(n)
  {
    if m < n {
      Pow2Grows(m, n - 1);
    }
  }

  method RetryBackoff(attempt: int) returns (d: nat)
    ensures d == if attempt <= 1 then RETRY_BASE_DELAY else Backoff(attempt)
    ensures attempt >= 1 ==> d == Backoff(attempt)
    ensures d == if attempt <= 1 then 100 else if attempt < 5 then [200, 400, 800][attempt - 2] else 1000
  {
    assert Pow2(4) == 16 && Pow2(3) == 8 && Pow2(2) == 4 && Pow2(1) == 2;
    if attempt <= 1 {
      return RETRY_BASE_DELAY;
    }
    d := RETRY_BASE_DELAY;
    var i := 1;
    while i < attempt
      invariant 1 <= i <= attempt && d == RETRY_BASE_DELAY * Pow2(i - 1) && d < RETRY_MAX_DELAY
      invariant i <= 4 && d == [100, 200, 400, 800][i - 1]
    {
      d := d * 2;
      i := i + 1;
      if d >= RETRY_MAX_DELAY {
        Pow2Grows(i - 1, attempt - 1);
        return RETRY_MAX_DELAY;
      }
    }
  }

  // ---------- What can come back ----------

  datatype Error = NetError(timeout: bool) | OtherError(connectionReset: bool) | ContextEnded

  predicate IsRetryableError(e: Error) {
    match e
    case NetError(timeout) => !timeout
    case OtherError(connectionReset) => connectionReset
    case ContextEnded => false
  }

  predicate ShouldRetryStatus(status: int) { status == 502 || status == 504 }

  predicate IsRetryableMethod(rpcMethod: string) {
    rpcMethod in {"tools/list", "resources/list", "prompts/list", "ping", "server/discover"}
  }

  datatype Answer = Status(status: int) | Failure(error: Error)

  /** What is sent on the wire. */
  datatype Wire = Wire(authorization: string, body: string)

  datatype Response = Response(id: nat, status: int)

  /** A base honouring the RoundTripper contract: it answers every send with exactly one of a
      response, whose body is then open, and an error. */
  class Base {
    const answers: nat -> Answer
    var sent: seq<Wire>
    var received: nat
    var open: set<nat>

    constructor (answers: nat -> Answer)
      ensures this.answers == answers && sent == [] && open == {} && received == 0
    {
      this.answers := answers;
      sent, open, received := [], {}, 0;
    }

    method RoundTrip(wire: Wire) returns (resp: Option<Response>, err: Option<Error>)
      modifies this
      ensures sent == old(sent) + [wire]
      ensures match answers(|old(sent)|)
              case Status(status) =>
                resp == Some(Response(old(received), status)) && err == None
                && open == old(open) + {old(received)} && received == old(received) + 1
              case Failure(e) => resp == None && err == Some(e) && open == old(open) && received == old(received)
    {
      sent := sent + [wire];
      match answers(|sent| - 1)
      case Status(status) =>
        resp, err := Some(Response(received, status)), None;
        open := open + {received};
        received := received + 1;
      case Failure(e) =>
        resp, err := None, Some(e);
    }

    /** Drains and closes a response body. */
    method Close(resp: Response)
      modifies this`open
      ensures open == old(open) - {resp.id}
    {
      open := open - {resp.id};
    }
  }

  /** `Request.GetBody`. */
  datatype BodyFactory = NoFactory | BrokenFactory | Replays(body: string)

  /** An outgoing request: `body` is what its first send carries. */
  datatype Request = Request(rpcMethod: string, body: string, getBody: BodyFactory)

  // ---------- The result of the retry loop, from attempt i on ----------

  datatype Result = Result(status: Option<int>, error: Option<Error>, sends: nat, waits: nat)

  function MaxAttempts(rpcMethod: string): nat { if IsRetryableMethod(rpcMethod) then RETRY_MAX_ATTEMPTS else 1 }

  function Attempts(i: nat, max: nat, answers: nat -> Answer, ended: nat -> bool, replays: bool, lastErr: Option<Error>): Result
    requires i < max
    decreases max - i
  {
    if i > 0 && ended(i) then Result(None, Some(ContextEnded), i, i)
    else if i > 0 && !replays then Result(None, lastErr, i, i)
    else match answers(i)
      case Failure(e) =>
        if IsRetryableError(e) && i + 1 < max then Attempts(i + 1, max, answers, ended, replays, Some(e))
        else Result(None, Some(e), i + 1, i)
      case Status(s) =>
        if ShouldRetryStatus(s) && i + 1 < max then Attempts(i + 1, max, answers, ended, replays, None)
        else Result(Some(s), None, i + 1, i)
  }

  function Outcome(req: Request, answers: nat -> Answer, ended: nat -> bool): Result {
    Attempts(0, MaxAttempts(req.rpcMethod), answers, ended, req.getBody.Replays?, None)
  }

  /** `authHeader` is "" when unset; `ended(i)` says whether the context ends during the i-th wait. */
  method RetryLoop(base: Base, req: Request, authHeader: string, ended: nat -> bool)
    returns (resp: Option<Response>, err: Option<Error>, delays: seq<nat>)
    requires base.sent == [] && forall id :: id in base.open ==> id < base.received
    modifies base
    ensures var out := Outcome(req, base.answers, ended);
            && out.error == err && (out.status.Some? <==> resp.Some?) && (resp.Some? ==> out.status == Some(resp.value.status))
            && |base.sent| == out.sends && |delays| == out.waits
    ensures forall k :: 0 <= k < |delays| ==> delays[k] == Backoff(k + 1)
    ensures base.sent != [] && base.sent[0] == Wire(authHeader, req.body)
    ensures forall k :: 1 <= k < |base.sent| ==> req.getBody.Replays? && base.sent[k] == Wire(authHeader, req.getBody.body)
    ensures base.open == old(base.open) + if resp.Some? then {resp.value.id} else {}
    ensures resp.Some? ==> resp.value.id !in old(base.open)
  {
    hide IsRetryableMethod;
    var retryable := IsRetryableMethod(req.rpcMethod);
    var maxAttempts := 1;
    if retryable {
      maxAttempts := RETRY_MAX_ATTEMPTS;
    }
    ghost var out := Outcome(req, base.answers, ended);
    var body := req.body;
    var lastErr: Option<Error> := None;
    resp, delays := None, [];
    var i := 0;
    while i < maxAttempts
      invariant 0 <= i <= maxAttempts && |base.sent| == i && |delays| == if i == 0 then 0 else i - 1
      invariant i < maxAttempts ==> resp == None && out == Attempts(i, maxAttempts, base.answers, ended, req.getBody.Replays?, lastErr)
      invariant i == maxAttempts ==>
                  out.error == lastErr && (out.status.Some? <==> resp.Some?) && (resp.Some? ==> out.status == Some(resp.value.status))
                  && out.sends == i && out.waits == |delays|
      invariant forall k :: 0 <= k < |delays| ==> delays[k] == Backoff(k + 1)
      invariant body == if i <= 1 then req.body else if req.getBody.Replays? then req.getBody.body else req.body
      invariant i > 0 ==> base.sent[0] == Wire(authHeader, req.body)
      invariant forall k :: 1 <= k < |base.sent| ==> req.getBody.Replays? && base.sent[k] == Wire(authHeader, req.getBody.body)
      invariant base.open == old(base.open) + if resp.Some? then {resp.value.id} else {}
      invariant resp.Some? ==> resp.value.id !in old(base.open)
      invariant old(base.received) <= base.received
    {
      if i > 0 {
        var d := RetryBackoff(i);
        delays := delays + [d];
        if ended(i) {
          return None, Some(ContextEnded), delays;
        }
        if !req.getBody.Replays? {
          return resp, lastErr, delays;
        }
        body := req.getBody.body;
      }
      resp, lastErr := base.RoundTrip(Wire(authHeader, body));
      if lastErr.Some? {
        if IsRetryableError(lastErr.value) {
          i := i + 1;
          continue;
        }
        return resp, lastErr, delays;
      }
      if !ShouldRetryStatus(resp.value.status) {
        return resp, lastErr, delays;
      }
      if i < maxAttempts - 1 {
        base.Close(resp.value);
        resp := None;
      }
      i := i + 1;
    }
    return resp, lastErr, delays;
  }

  // ---------- Guarantees over every behaviour of the network ----------

  /** Never more than the allowed sends; a non-retryable method is sent exactly once, without
      waiting; and a retryable answer is handed back only after the last allowed attempt. */
  lemma {:induction false} SendBounds(i: nat, max: nat, answers: nat -> Answer, ended: nat -> bool, replays: bool, lastErr: Option<Error>)
    requires i < max
    ensures var out := Attempts(i, max, answers, ended, replays, lastErr);
            && out.sends <= max && out.waits < max && out.waits <= out.sends
            && out.sends >= i && out.sends >= 1
            && (out.status.Some? && ShouldRetryStatus(out.status.value) ==> out.sends == max)
            && (replays && out.error.Some? && IsRetryableError(out.error.value) ==> out.sends == max)
    decreases max - i
  {
    if !(i > 0 && (ended(i) || !replays)) {
      match answers(i)
      case Failure(e) =>
        if IsRetryableError(e) && i + 1 < max { SendBounds(i + 1, max, answers, ended, replays, Some(e)); }
      case Status(s) =>
        if ShouldRetryStatus(s) && i + 1 < max { SendBounds(i + 1, max, answers, ended, replays, None); }
    }
  }

  /** The answers after which the loop goes on, if it may. */
  predicate Retried(a: Answer) {
    match a
    case Status(s) => ShouldRetryStatus(s)
    case Failure(e) => IsRetryableError(e)
  }

  function ErrorOf(a: Answer): Option<Error> { if a.Failure? then Some(a.error) else None }

  /** The run up to its last send, and what that send and the wait after it make of it. */
  lemma {:induction false} AttemptsStop(i: nat, max: nat, answers: nat -> Answer, ended: nat -> bool, replays: bool, lastErr: Option<Error>)
    requires i < max && (i > 0 ==> lastErr == ErrorOf(answers(i - 1)))
    ensures var out := Attempts(i, max, answers, ended, replays, lastErr);
            var n := out.sends;
            && i <= n <= max && n >= 1
            && (forall k :: i <= k < n - 1 ==> Retried(answers(k)))
            && (forall k :: i <= k < n && k > 0 ==> !ended(k) && replays)
            && (out.waits == n - 1 ==>
                  && (n == max || !Retried(answers(n - 1))) && out.error == ErrorOf(answers(n - 1))
                  && out.status == if answers(n - 1).Status? then Some(answers(n - 1).status) else None)
            && (out.waits != n - 1 ==>
                  && out.waits == n < max && out.status == None && (ended(n) || !replays)
                  && (n > i ==> Retried(answers(n - 1)))
                  && out.error == if ended(n) then Some(ContextEnded) else ErrorOf(answers(n - 1)))
    decreases max - i
  {
    hide ShouldRetryStatus, IsRetryableError;
    if !(i > 0 && (ended(i) || !replays)) && Retried(answers(i)) && i + 1 < max {
      AttemptsStop(i + 1, max, answers, ended, replays, ErrorOf(answers(i)));
    }
  }

  lemma RetriedAnswers(a: Answer)
    ensures Retried(a) <==> a in {Status(502), Status(504), Failure(NetError(false)), Failure(OtherError(true))}
  {
  }

  lemma AllowedSends(rpcMethod: string)
    ensures MaxAttempts(rpcMethod)
            == if rpcMethod in {"ping", "tools/list", "prompts/list", "resources/list", "server/discover"} then 3 else 1
  {
  }

  lemma FirstDelays(delays: seq<nat>)
    requires |delays| < 3 && forall k :: 0 <= k < |delays| ==> delays[k] == Backoff(k + 1)
    ensures delays <= [100, 200]
  {
    assert Pow2(0) == 1 && Pow2(1) == 2;
  }

  /** Every answer but that of the last send is transient: a 502 or 504, a network error that is no
      time-out, or a reset connection. So any other answer ends the run at once, and is what comes
      back; a transient one comes back only with the last of the allowed sends. Otherwise the
      context ended during the wait for another send, or there was no body to send again. */
  method RoundTrip(base: Base, req: Request, authHeader: string, ended: nat -> bool)
    returns (resp: Option<Response>, err: Option<Error>, delays: seq<nat>)
    requires base.sent == [] && forall id :: id in base.open ==> id < base.received
    modifies base
    ensures var out := Outcome(req, base.answers, ended);
            && out.error == err && (out.status.Some? <==> resp.Some?) && (resp.Some? ==> out.status == Some(resp.value.status))
            && |base.sent| == out.sends && |delays| == out.waits
    ensures 1 <= |base.sent| <= if req.rpcMethod in {"ping", "tools/list", "prompts/list", "resources/list", "server/discover"} then 3 else 1
    ensures forall k :: 0 <= k < |base.sent| - 1 ==>
              base.answers(k) in {Status(502), Status(504), Failure(NetError(false)), Failure(OtherError(true))}
    ensures forall k :: 1 <= k < |base.sent| ==> !ended(k)
    ensures |delays| == |base.sent| - 1 ==>
              var last := base.answers(|base.sent| - 1);
              && (resp.Some? <==> last.Status?) && (resp.Some? ==> resp.value.status == last.status)
              && err == (if last.Failure? then Some(last.error) else None)
              && (last in {Status(502), Status(504), Failure(NetError(false)), Failure(OtherError(true))} ==>
                    |base.sent| == if req.rpcMethod in {"ping", "tools/list", "prompts/list", "resources/list", "server/discover"} then 3 else 1)
    ensures |delays| != |base.sent| - 1 ==>
              var last := base.answers(|base.sent| - 1);
              && |delays| == |base.sent| < 3 && resp == None && (ended(|base.sent|) || !req.getBody.Replays?)
              && last in {Status(502), Status(504), Failure(NetError(false)), Failure(OtherError(true))}
              && err == if ended(|base.sent|) then Some(ContextEnded) else if last.Failure? then Some(last.error) else None
    ensures delays <= [100, 200]
    ensures base.sent != [] && base.sent[0] == Wire(authHeader, req.body)
    ensures forall k :: 1 <= k < |base.sent| ==> req.getBody.Replays? && base.sent[k] == Wire(authHeader, req.getBody.body)
    ensures base.open == old(base.open) + if resp.Some? then {resp.value.id} else {}
    ensures resp.Some? ==> resp.value.id !in old(base.open)
  {
    resp, err, delays := RetryLoop(base, req, authHeader, ended);
    AttemptsStop(0, MaxAttempts(req.rpcMethod), base.answers, ended, req.getBody.Replays?, None);
    AllowedSends(req.rpcMethod);
    FirstDelays(delays);
    hide IsRetryableMethod, Retried, MaxAttempts, Attempts, Backoff;
    forall k: nat ensures Retried(base.answers(k)) <==>
        base.answers(k) in {Status(502), Status(504), Failure(NetError(false)), Failure(OtherError(true))}
    {
      RetriedAnswers(base.answers(k));
    }
  }

  lemma SendCounts(req: Request, answers: nat -> Answer, ended: nat -> bool)
    ensures var out := Outcome(req, answers, ended);
            && 1 <= out.sends <= 3
            && (!IsRetryableMethod(req.rpcMethod) ==> out.sends == 1 && out.waits == 0)
  {
    hide IsRetryableMethod;
    SendBounds(0, MaxAttempts(req.rpcMethod), answers, ended, req.getBody.Replays?, None);
  }

  ghost predicate ExactlyOne(out: Result) { out.status.Some? != out.error.Some? }

  lemma {:induction false} ReplayGivesExactlyOne(i: nat, max: nat, answers: nat -> Answer, ended: nat -> bool, replays: bool, lastErr: Option<Error>)
    requires i < max && (replays || max == 1)
    ensures ExactlyOne(Attempts(i, max, answers, ended, replays, lastErr))
    decreases max - i
  {
    if !(i > 0 && ended(i)) && i + 1 < max {
      match answers(i)
      case Failure(e) => ReplayGivesExactlyOne(i + 1, max, answers, ended, replays, Some(e));
      case Status(s) => ReplayGivesExactlyOne(i + 1, max, answers, ended, replays, None);
    }
  }

  /** A retryable request without a replayable body, answered 502: neither a response nor an
      error comes back. */
  lemma NeitherReturned(req: Request) returns (answers: nat -> Answer, ended: nat -> bool)
    requires IsRetryableMethod(req.rpcMethod) && !req.getBody.Replays?
    ensures Outcome(req, answers, ended) == Result(None, None, 1, 1)
  {
    hide IsRetryableMethod;
    answers := (i: nat) => Status(502);
    ended := (i: nat) => false;
    assert Attempts(1, 3, answers, ended, false, None) == Result(None, None, 1, 1);
    assert Outcome(req, answers, ended) == Attempts(1, 3, answers, ended, false, None);
  }

  /** `RoundTrip` returns exactly one of response and error whatever the network does, exactly
      when the method is not retried or the body can be replayed. Otherwise a 502 followed by
      the missing body factory makes it return neither. */
  lemma ExactlyOneIff(req: Request)
    ensures (!IsRetryableMethod(req.rpcMethod) || req.getBody.Replays?)
            <==> forall answers: nat -> Answer, ended: nat -> bool :: ExactlyOne(Outcome(req, answers, ended))
  {
    hide IsRetryableMethod;
    if !IsRetryableMethod(req.rpcMethod) || req.getBody.Replays? {
      forall answers: nat -> Answer, ended: nat -> bool ensures ExactlyOne(Outcome(req, answers, ended)) {
        ReplayGivesExactlyOne(0, MaxAttempts(req.rpcMethod), answers, ended, req.getBody.Replays?, None);
      }
    } else {
      var answers, ended := NeitherReturned(req);
      assert !ExactlyOne(Outcome(req, answers, ended));
    }
  }

  // ---------- captureRPCRequestMetadata ----------

  const MAX_INT64 := 0x7fff_ffff_ffff_ffff

  /** An inbound HTTP request; `None` is a nil body. */
  class Inbound {
    var body: Option<string>
    var contentLength: int
    var getBody: BodyFactory

    constructor (body: Option<string>)
      ensures this.body == body && getBody == NoFactory
    {
      this.body, contentLength, getBody := body, -1, NoFactory;
    }

    /** `parseMethod` extracts the JSON-RPC method; "" when there is none. */
    method Capture(maxBytes: nat, readFails: bool, parseMethod: string -> string) returns (rpcMethod: Option<string>)
      requires body.Some? ==> |body.value| <= MAX_INT64
      modifies this
      ensures rpcMethod == None <==> old(body).Some? && (readFails || |old(body).value| > maxBytes)
      ensures rpcMethod.Some? ==> body == old(body)
      ensures rpcMethod.Some? && body.Some? ==> getBody == Replays(body.value) && contentLength == |body.value|
                                                && rpcMethod.value == parseMethod(body.value)
      ensures rpcMethod.Some? && body.None? ==> rpcMethod == Some("")
    {
      if body == None {
        return Some("");
      }
      var limit := maxBytes;
      if limit < MAX_INT64 {
        limit := limit + 1;
      }
      if readFails {
        return None;
      }
      var read := if |body.value| <= limit then body.value else body.value[..limit];
      if |read| > maxBytes {
        return None;
      }
      body := Some(read);
      contentLength := |read|;
      getBody := Replays(read);
      return Some(parseMethod(read));
    }
  }

  /** A captured request meets the condition, and every send of it carries the same bytes. */
  method ForwardCaptured(inbound: Inbound, maxBytes: nat, readFails: bool, parseMethod: string -> string,
                         base: Base, authHeader: string, ended: nat -> bool)
    returns (resp: Option<Response>, err: Option<Error>, delays: seq<nat>, forwarded: bool)
    requires inbound.body.Some? ==> |inbound.body.value| <= MAX_INT64
    requires base.sent == [] && base.open == {}
    modifies inbound, base
    ensures forwarded ==> resp.Some? != err.Some? && 1 <= |base.sent| <= 3
    ensures forwarded ==> forall k :: 0 <= k < |base.sent| ==>
                            base.sent[k] == Wire(authHeader, if old(inbound.body).Some? then old(inbound.body).value else "")
    ensures forwarded ==> base.open == if resp.Some? then {resp.value.id} else {}
    ensures !forwarded ==> base.sent == []
  {
    hide IsRetryableMethod;
    var rpcMethod := inbound.Capture(maxBytes, readFails, parseMethod);
    if rpcMethod == None {
      return None, None, [], false;
    }
    var body := if inbound.body.Some? then inbound.body.value else "";
    var req := Request(rpcMethod.value, body, inbound.getBody);
    EmptyMethodNotRetried();
    ExactlyOneIff(req);
    SendCounts(req, base.answers, ended);
    resp, err, delays := RoundTrip(base, req, authHeader, ended);
    assert ExactlyOne(Outcome(req, base.answers, ended));
    forwarded := true;
  }

  lemma EmptyMethodNotRetried()
    ensures !IsRetryableMethod("")
  {
  }
}
