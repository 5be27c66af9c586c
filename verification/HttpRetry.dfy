/** The retry loop of the HTTP client: one call of `Do`, at most three HTTP sends, one idempotency
    key. The server, the token endpoint and the rate limiter are an arbitrary `World`. */
module HttpRetry {
  import opened Common

  const MAX_ATTEMPTS: nat := 3

  datatype Family = Orders | Auth | OtherFamily

  datatype Response = NetworkError | Status(code: int)

  /** What one attempt meets: the response, and what a forced token refresh would yield were the
      response a 401 that asks for one (`None` when the refresh fails). */
  datatype Reply = Reply(response: Response, refresh: Option<string>)

  /** Everything outside the loop: the proactive refresh (`None` on failure), the rate limiter, and
      the reply to each attempt. */
  datatype World = World(ensured: Option<string>, limiterOk: bool, replies: nat -> Reply)

  datatype Outcome =
    | NoToken | LimiterFailed
    | Returned(code: int)
    | NetworkFailed | BadCredentials | StillUnauthorized | RefreshFailed | RateLimited
    | ServerError(code: int) | Exhausted

  /** The request headers the loop writes that matter here. */
  datatype Headers = Headers(authorization: Option<string>, idempotencyKey: Option<string>)

  predicate IsServerError(code: int) {
    code in {500, 502, 503, 504}
  }

  // ---- What a call must do, read off the replies ----

  /** Some attempt before `i` was answered 401. */
  ghost predicate Seen401(replies: nat -> Reply, i: nat) {
    i > 0 && (replies(i - 1).response == Status(401) || Seen401(replies, i - 1))
  }

  /** Whether the reply to attempt `i` asks for another attempt. */
  ghost predicate Retryable(authenticated: bool, replies: nat -> Reply, i: nat) {
    match replies(i).response
    case NetworkError => true
    case Status(code) =>
      if code == 401 then authenticated && !Seen401(replies, i) && replies(i).refresh.Some?
      else code == 429 || IsServerError(code)
  }

  /** What a call whose last attempt was `i` reports. */
  ghost function Verdict(authenticated: bool, replies: nat -> Reply, i: nat): Outcome {
    match replies(i).response
    case NetworkError => NetworkFailed
    case Status(code) =>
      if code == 401 then
        if !authenticated then BadCredentials
        else if Seen401(replies, i) then StillUnauthorized
        else if replies(i).refresh.None? then RefreshFailed
        else Exhausted
      else if code == 429 then RateLimited
      else if IsServerError(code) then ServerError(code)
      else Returned(code)
  }

  /** The Authorization value attempt `i` carries: the token of the first answered 401, if any. */
  ghost function TokenAt(initial: string, replies: nat -> Reply, i: nat): string {
    if i == 0 then initial
    else if replies(i - 1).response == Status(401) && replies(i - 1).refresh.Some? then replies(i - 1).refresh.value
    else TokenAt(initial, replies, i - 1)
  }

  /** `n` attempts is what these replies ask for. */
  ghost predicate Attempts(authenticated: bool, replies: nat -> Reply, n: nat) {
    && 1 <= n <= MAX_ATTEMPTS
    && (forall i: nat :: i < n - 1 ==> Retryable(authenticated, replies, i))
    && (n < MAX_ATTEMPTS ==> !Retryable(authenticated, replies, n - 1))
  }

  // ---- The same, in plain numbers ----

  /** No attempt from `j` up to `i` was answered 401. */
  ghost predicate No401(replies: nat -> Reply, j: nat, i: nat) {
    forall k: nat :: j <= k < i ==> replies(k).response != Status(401)
  }

  /** These replies ask for another attempt: a network error, 429, 500, 502, 503, 504, and the first 401 of an
      authenticated call when the refresh it forces succeeds. */
  lemma RetryableMeans(authenticated: bool, replies: nat -> Reply, i: nat)
    ensures Retryable(authenticated, replies, i) <==>
      || replies(i).response == NetworkError
      || replies(i).response in {Status(429), Status(500), Status(502), Status(503), Status(504)}
      || (replies(i).response == Status(401) && authenticated && replies(i).refresh.Some? && No401(replies, 0, i))
  {
    Seen401Means(replies, i);
  }

  lemma {:induction false} Seen401Means(replies: nat -> Reply, i: nat)
    ensures Seen401(replies, i) <==> !No401(replies, 0, i)
  {
    if i > 0 {
      Seen401Means(replies, i - 1);
    }
  }

  /** What the last reply makes the call report. */
  lemma VerdictMeans(authenticated: bool, replies: nat -> Reply, i: nat)
    ensures var (v, response) := (Verdict(authenticated, replies, i), replies(i).response);
      && (v == NetworkFailed <==> response == NetworkError)
      && (v == RateLimited <==> response == Status(429))
      && (forall code :: v == ServerError(code) <==> response == Status(code) && code in {500, 502, 503, 504})
      && (forall code :: v == Returned(code) <==> response == Status(code) && code !in {401, 429, 500, 502, 503, 504})
      && (v == BadCredentials <==> response == Status(401) && !authenticated)
      && (v == StillUnauthorized <==> response == Status(401) && authenticated && !No401(replies, 0, i))
      && (v == RefreshFailed <==> response == Status(401) && authenticated && No401(replies, 0, i) && replies(i).refresh.None?)
      && (v == Exhausted <==> response == Status(401) && authenticated && No401(replies, 0, i) && replies(i).refresh.Some?)
  {
    Seen401Means(replies, i);
  }

  /** Three attempts at most, and fewer exactly when a reply does not ask for another. */
  lemma AttemptsMeans(authenticated: bool, replies: nat -> Reply, n: nat)
    ensures Attempts(authenticated, replies, n) <==>
      && n in {1, 2, 3}
      && (n >= 2 ==> Retryable(authenticated, replies, 0))
      && (n >= 3 ==> Retryable(authenticated, replies, 1))
      && (n < 3 ==> !Retryable(authenticated, replies, n - 1))
  {
  }

  /** After the first 401, the token its refresh gave; before, the one the call began with. */
  lemma {:induction false} TokenMeans(initial: string, replies: nat -> Reply, i: nat)
    ensures No401(replies, 0, i) ==> TokenAt(initial, replies, i) == initial
    ensures forall j: nat :: j < i && replies(j).response == Status(401) && replies(j).refresh.Some? && No401(replies, j + 1, i) ==>
      TokenAt(initial, replies, i) == replies(j).refresh.value
  {
    if i > 0 {
      TokenMeans(initial, replies, i - 1);
    }
  }

  // ---- The loop itself ----

  class Request {
    const family: Family
    const writes: bool  // POST or PUT
    var headers: Headers

    constructor (family: Family, writes: bool)
      ensures this.family == family && this.writes == writes && headers == Headers(None, None)
    {
      this.family := family;
      this.writes := writes;
      headers := Headers(None, None);
    }
  }

  class Client {
    const authenticated: bool
    var token: string  // the Authorization value in force

    constructor (authenticated: bool, token: string)
      ensures this.authenticated == authenticated && this.token == token
    {
      this.authenticated := authenticated;
      this.token := token;
    }

    ghost function Sets(req: Request, token: string, key: string): Headers
      reads req
    {
      Headers(
        if authenticated then Some(token) else req.headers.authorization,
        if req.family == Orders && req.writes then Some(key) else req.headers.idempotencyKey)
    }

    method InjectHeaders(req: Request, key: string)
      modifies req
      ensures req.headers == old(Sets(req, token, key))
    {
      if authenticated {
        req.headers := req.headers.(authorization := Some(token));
      }
      if req.family == Orders && req.writes {
        req.headers := req.headers.(idempotencyKey := Some(key));
      }
    }

    /** The headers attempt `i` carries: of the two, what is not set stays as it was `before`. */
    ghost function HeadersAt(req: Request, before: Headers, initial: string, key: string, world: World, i: nat): Headers {
      Headers(
        if authenticated then Some(TokenAt(initial, world.replies, i)) else before.authorization,
        if req.family == Orders && req.writes then Some(key) else before.idempotencyKey)
    }

    /** What one turn of the loop does with the reply: `stop` is nothing to go round again. */
    method HandleReply(req: Request, key: string, attempt: nat, tokenRefreshed: bool, reply: Reply)
      returns (stop: Option<Outcome>, refreshed: bool)
      requires attempt < MAX_ATTEMPTS
      modifies this, req
      ensures match After(Call(attempt, tokenRefreshed, key), authenticated, reply)
        case Again(call) => stop == None && refreshed == call.refreshed
        case Stop(outcome) =>
          if outcome == Exhausted then stop == None && refreshed && attempt + 1 == MAX_ATTEMPTS else stop == Some(outcome)
      ensures stop == None && reply.response == Status(401) ==>
        token == reply.refresh.value && req.headers == old(Sets(req, token, key)).(authorization := Some(token))
      ensures stop == None && reply.response != Status(401) ==> req.headers == old(req.headers)
    {
      stop, refreshed := None, tokenRefreshed;
      match reply.response {
      case NetworkError =>
        if attempt + 1 >= MAX_ATTEMPTS {
          stop := Some(NetworkFailed);
        }
      case Status(code) =>
        if code == 401 {
          if !authenticated {
            return Some(BadCredentials), refreshed;
          }
          if tokenRefreshed {
            return Some(StillUnauthorized), refreshed;
          }
          if reply.refresh.None? {
            return Some(RefreshFailed), refreshed;
          }
          token := reply.refresh.value;
          refreshed := true;
          InjectHeaders(req, key);
        } else if code == 429 {
          if attempt + 1 >= MAX_ATTEMPTS {
            stop := Some(RateLimited);
          }
        } else if code in {500, 502, 503, 504} {
          if attempt + 1 >= MAX_ATTEMPTS {
            stop := Some(ServerError(code));
          }
        } else {
          stop := Some(Returned(code));
        }
      }
    }

    /** `key` is the caller's idempotency key, `uuid` the one generated when that is empty. `sends`
        are the headers of the HTTP sends in order, `refreshes` the number of forced refreshes. */
    method Do(req: Request, key: string, uuid: string, world: World)
      returns (outcome: Outcome, sends: seq<Headers>, refreshes: nat)
      modifies this, req
      ensures authenticated && req.family != Auth && world.ensured.None? ==> outcome == NoToken
      ensures !(authenticated && req.family != Auth && world.ensured.None?) && !world.limiterOk ==> outcome == LimiterFailed
      ensures sends == [] <==> outcome in {NoToken, LimiterFailed}
      ensures sends == [] <==> (authenticated && req.family != Auth && world.ensured.None?) || !world.limiterOk
      ensures sends == [] ==> refreshes == 0
      ensures sends != [] ==>
        Answered(req, old(req.headers), Initial(req, old(token), world), if key == "" then uuid else key, world, sends, refreshes, outcome)
      ensures |sends| <= 3 && refreshes <= 1
      ensures req.family == Orders && req.writes ==>
        forall i :: 0 <= i < |sends| ==> sends[i].idempotencyKey == Some(if key == "" then uuid else key)
    {
      sends, refreshes := [], 0;
      if authenticated && req.family != Auth {
        if world.ensured.None? {
          return NoToken, [], 0;
        }
        token := world.ensured.value;
      }
      if !world.limiterOk {
        return LimiterFailed, [], 0;
      }
      var idempotencyKey := if key == "" then uuid else key;
      ghost var (before, initial) := (req.headers, token);
      InjectHeaders(req, idempotencyKey);
      var tokenRefreshed := false;
      var attempt := 0;
      while attempt < MAX_ATTEMPTS
        invariant attempt <= MAX_ATTEMPTS
        invariant Midway(req, before, initial, idempotencyKey, world, attempt, tokenRefreshed, sends, refreshes)
        invariant attempt == MAX_ATTEMPTS ==> Answered(req, before, initial, idempotencyKey, world, sends, refreshes, Exhausted)
        decreases MAX_ATTEMPTS - attempt
      {
        var stop;
        stop, tokenRefreshed, sends, refreshes := Turn(req, before, initial, idempotencyKey, world, attempt, tokenRefreshed, sends, refreshes);
        if stop.Some? {
          return stop.value, sends, refreshes;
        }
        attempt := attempt + 1;
      }
      outcome := Exhausted;
    }

    /** The token a call begins with: the one ensured, except on the authentication calls themselves. */
    ghost function Initial(req: Request, inForce: string, world: World): string {
      if authenticated && req.family != Auth && world.ensured.Some? then world.ensured.value else inForce
    }

    /** The sends so far carry what they must, and the replies to them ask for another. */
    ghost predicate Midway(req: Request, before: Headers, initial: string, key: string, world: World, attempt: nat,
                           tokenRefreshed: bool, sends: seq<Headers>, refreshes: nat)
      reads this, req
    {
      && |sends| == attempt && CarriesAll(req, before, initial, key, world, sends)
      && (forall i: nat :: i < attempt ==> Retryable(authenticated, world.replies, i))
      && tokenRefreshed == Seen401(world.replies, attempt) && (tokenRefreshed ==> authenticated)
      && refreshes == (if tokenRefreshed then 1 else 0)
      && req.headers == HeadersAt(req, before, initial, key, world, attempt)
    }

    /** The sends are those the replies ask for, and the outcome is that of the last. */
    ghost predicate Answered(req: Request, before: Headers, initial: string, key: string, world: World,
                             sends: seq<Headers>, refreshes: nat, outcome: Outcome)
    {
      && Attempts(authenticated, world.replies, |sends|)
      && outcome == Verdict(authenticated, world.replies, |sends| - 1)
      && refreshes == (if authenticated && Seen401(world.replies, |sends|) then 1 else 0)
      && CarriesAll(req, before, initial, key, world, sends)
    }

    ghost predicate CarriesAll(req: Request, before: Headers, initial: string, key: string, world: World, sends: seq<Headers>) {
      forall i: nat :: i < |sends| ==> sends[i] == HeadersAt(req, before, initial, key, world, i)
    }

    /** One turn of the loop. */
    method Turn(req: Request, ghost before: Headers, ghost initial: string, key: string, world: World, attempt: nat,
                tokenRefreshed: bool, sends: seq<Headers>, refreshes: nat)
      returns (stop: Option<Outcome>, tokenRefreshed': bool, sends': seq<Headers>, refreshes': nat)
      requires attempt < MAX_ATTEMPTS
      requires Midway(req, before, initial, key, world, attempt, tokenRefreshed, sends, refreshes)
      modifies this, req
      ensures sends' == sends + [old(req.headers)]
      ensures stop.None? ==> Midway(req, before, initial, key, world, attempt + 1, tokenRefreshed', sends', refreshes')
      ensures stop.None? && attempt + 1 == MAX_ATTEMPTS ==> Answered(req, before, initial, key, world, sends', refreshes', Exhausted)
      ensures stop.Some? ==> Answered(req, before, initial, key, world, sends', refreshes', stop.value)
    {
      sends', refreshes' := sends + [req.headers], refreshes;
      var reply := world.replies(attempt);
      StepsAreTheLoop(authenticated, world.replies, key, attempt);
      if ForcesRefresh(Call(attempt, tokenRefreshed, key), authenticated, reply) {
        refreshes' := refreshes + 1;
      }
      stop, tokenRefreshed' := HandleReply(req, key, attempt, tokenRefreshed, reply);
    }
  }

  // ---- The same loop one reply at a time, for the submit protocol ----

  /** A call between two attempts: attempts made, whether a refresh was forced, the key it sends. */
  datatype Call = Call(attempt: nat, refreshed: bool, key: string)

  datatype Next = Again(call: Call) | Stop(outcome: Outcome)

  function After(call: Call, authenticated: bool, reply: Reply): Next {
    var again := Call(call.attempt + 1, call.refreshed, call.key);
    var last := call.attempt + 1 >= MAX_ATTEMPTS;
    match reply.response
    case NetworkError => if last then Stop(NetworkFailed) else Again(again)
    case Status(code) =>
      if code == 401 then
        if !authenticated then Stop(BadCredentials)
        else if call.refreshed then Stop(StillUnauthorized)
        else if reply.refresh.None? then Stop(RefreshFailed)
        else if last then Stop(Exhausted)
        else Again(again.(refreshed := true))
      else if code == 429 then if last then Stop(RateLimited) else Again(again)
      else if IsServerError(code) then if last then Stop(ServerError(code)) else Again(again)
      else Stop(Returned(code))
  }

  /** Whether handling this reply forces a token refresh. */
  predicate ForcesRefresh(call: Call, authenticated: bool, reply: Reply) {
    reply.response == Status(401) && authenticated && !call.refreshed
  }

  /** Stepping reply by reply is the loop: the step from attempt `i` goes round again exactly when
      the reply asks for it and attempts are left, and otherwise stops with the loop's verdict. */
  lemma StepsAreTheLoop(authenticated: bool, replies: nat -> Reply, key: string, i: nat)
    requires i < MAX_ATTEMPTS
    ensures After(Call(i, Seen401(replies, i), key), authenticated, replies(i))
      == if Retryable(authenticated, replies, i) && i + 1 < MAX_ATTEMPTS
         then Again(Call(i + 1, Seen401(replies, i + 1), key))
         else Stop(Verdict(authenticated, replies, i))
  {
  }

  /** The replies fix the number of attempts: no two counts both answer them. */
  lemma AttemptsUnique(authenticated: bool, replies: nat -> Reply, m: nat, n: nat)
    requires Attempts(authenticated, replies, m) && Attempts(authenticated, replies, n)
    ensures m == n
  {
    var last: nat := (if m < n then m else n) - 1;
    assert m != n ==> Retryable(authenticated, replies, last);
  }
}
