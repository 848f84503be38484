/**
 * The process-wide connection cache behind `connectDB`: the cached connection,
 * the cached promise of the attempt in flight, and the URI the attempt uses.
 * Asynchrony is reduced to its events: a call, and the settlement of the
 * attempt in flight (success with a connection, or failure).
 */
module MongoDb {
  import opened Wrappers

  // ---------------------------------------------------------------------------
  // Configuration
  // ---------------------------------------------------------------------------

  const DefaultUri: string := "mongodb://localhost:27017/nextjs-app"

  /** `process.env.MONGODB_URI || DefaultUri`: an unset or empty variable falls back to the default. */
  function EffectiveUri(env: Option<string>): (uri: string)
    ensures uri != []
    ensures env.Some? && env.value != [] ==> uri == env.value
    ensures env.None? || env.value == [] ==> uri == DefaultUri
  {
    match env
    case Some(v) => if v != [] then v else DefaultUri
    case None => DefaultUri
  }

  datatype ConfigError = MissingUri

  function ConfigMessage(e: ConfigError): string {
    "Please define the MONGODB_URI environment variable inside .env.local"
  }

  /** `if (!MONGODB_URI) throw ...`. */
  function CheckUri(uri: string): (r: Result<string, ConfigError>)
    ensures r.Ok? <==> uri != []
    ensures r.Ok? ==> r.value == uri
    ensures r.Err? ==> ConfigMessage(r.error) == "Please define the MONGODB_URI environment variable inside .env.local"
  {
    if uri == [] then Err(MissingUri) else Ok(uri)
  }

  /** The configuration error can never be thrown: the fallback is never empty. */
  lemma ConfigErrorUnreachable(env: Option<string>)
    ensures CheckUri(EffectiveUri(env)) == Ok(EffectiveUri(env))
  {
  }

  // ---------------------------------------------------------------------------
  // The cache as a state machine
  // ---------------------------------------------------------------------------

  /** An established connection (`mongoose.connection`). */
  datatype Conn = Conn(id: nat)

  /** What `connectDB` hands its caller: the cached connection, or the promise of attempt number `attempt`. */
  datatype Reply = Connected(conn: Conn) | Awaiting(attempt: nat)

  /**
   * `global.mongooseCache`, plus the number of connection attempts started so
   * far.  The promise created by the n-th attempt is written as n.
   */
  datatype CacheState = CacheState(conn: Option<Conn>, promise: Option<nat>, attempts: nat)

  /** The cache as the module's initialisation creates it: `{ conn: null, promise: null }`. */
  const Empty: CacheState := CacheState(None, None, 0)

  /**
   * The invariant every reachable cache satisfies: a connection is only cached
   * once its promise is, and a cached promise is that of the latest attempt.
   */
  predicate ValidState(s: CacheState) {
    && (s.conn.Some? ==> s.promise.Some?)
    && (s.promise.Some? ==> s.promise.value == s.attempts && s.attempts > 0)
  }

  /** An attempt has been started and has not settled yet. */
  predicate InFlight(s: CacheState) {
    s.conn.None? && s.promise.Some?
  }

  /** `connectDB()`: the new cache and the reply. */
  function CallStep(s: CacheState): (CacheState, Reply) {
    if s.conn.Some? then (s, Connected(s.conn.value))
    else if s.promise.Some? then (s, Awaiting(s.promise.value))
    else
      var n := s.attempts + 1;
      (s.(promise := Some(n), attempts := n), Awaiting(n))
  }

  /** The `.then` callback: the attempt in flight succeeded with `c`. */
  function ResolveStep(s: CacheState, c: Conn): CacheState {
    if InFlight(s) then s.(conn := Some(c)) else s
  }

  /** The `.catch` callback: the attempt in flight failed, and its promise is dropped. */
  function RejectStep(s: CacheState): CacheState {
    if InFlight(s) then s.(promise := None) else s
  }

  /**
   * One event of an execution.  A settlement only arrives for an attempt in
   * flight, so `ResolveStep` and `RejectStep` ignore one that arrives with none.
   */
  datatype Event = Call | Resolve(c: Conn) | Reject

  function Step(s: CacheState, e: Event): CacheState {
    match e
    case Call => CallStep(s).0
    case Resolve(c) => ResolveStep(s, c)
    case Reject => RejectStep(s)
  }

  /** The cache after an execution. */
  function Run(s: CacheState, events: seq<Event>): CacheState
    decreases |events|
  {
    if events == [] then s else Run(Step(s, events[0]), events[1..])
  }

  /** The replies the calls of an execution receive, in order. */
  function Replies(s: CacheState, events: seq<Event>): seq<Reply>
    decreases |events|
  {
    if events == [] then []
    else (if events[0].Call? then [CallStep(s).1] else []) + Replies(Step(s, events[0]), events[1..])
  }

  function Failures(events: seq<Event>): nat {
    if events == [] then 0 else (if events[0].Reject? then 1 else 0) + Failures(events[1..])
  }

  lemma StepKeepsValid(s: CacheState, e: Event)
    requires ValidState(s)
    ensures ValidState(Step(s, e))
  {
  }

  /** Every cache reachable from the empty one satisfies the invariant. */
  lemma {:induction false} RunKeepsValid(s: CacheState, events: seq<Event>)
    requires ValidState(s)
    ensures ValidState(Run(s, events))
    decreases |events|
  {
    if events != [] {
      StepKeepsValid(s, events[0]);
      RunKeepsValid(Step(s, events[0]), events[1..]);
    }
  }

  /**
   * Once a connection is cached nothing changes any more: no later call,
   * success or failure clears it or the promise, no attempt is started, and
   * every later call gets that connection.
   */
  lemma {:induction false} ConnectedIsFinal(s: CacheState, events: seq<Event>)
    requires ValidState(s) && s.conn.Some?
    ensures Run(s, events) == s
    ensures forall k :: 0 <= k < |Replies(s, events)| ==> Replies(s, events)[k] == Connected(s.conn.value)
    decreases |events|
  {
    if events != [] {
      ConnectedIsFinal(s, events[1..]);
    }
  }

  /** Connection attempts are started only again after a failure: at most one more than there were failures. */
  lemma {:induction false} AttemptsBound(s: CacheState, events: seq<Event>)
    requires ValidState(s)
    ensures Run(s, events).attempts <= s.attempts + (if s.promise.None? then 1 else 0) + Failures(events)
    decreases |events|
  {
    if events != [] {
      var s' := Step(s, events[0]);
      StepKeepsValid(s, events[0]);
      AttemptsBound(s', events[1..]);
    }
  }

  /** Without a failure, any interleaving of calls and successes from the empty cache starts at most one attempt. */
  lemma NoFailureSingleAttempt(events: seq<Event>)
    requires Failures(events) == 0
    ensures Run(Empty, events).attempts <= 1
  {
    AttemptsBound(Empty, events);
  }

  /** The starting states of `SharedOutcome`: at most the first attempt, which has not failed. */
  predicate FirstAttemptOnly(s: CacheState) {
    ValidState(s) && s.attempts <= 1 && (s.promise.None? ==> s.attempts == 0)
  }

  lemma {:induction false} SharedOutcomeFrom(s: CacheState, events: seq<Event>)
    requires FirstAttemptOnly(s) && Failures(events) == 0
    ensures FirstAttemptOnly(Run(s, events))
    ensures forall k :: 0 <= k < |Replies(s, events)| ==>
              Replies(s, events)[k] == Awaiting(1)
              || (Run(s, events).conn.Some? && Replies(s, events)[k] == Connected(Run(s, events).conn.value))
    decreases |events|
  {
    if events != [] {
      var e := events[0];
      var s' := Step(s, e);
      assert Failures(events[1..]) == 0;
      SharedOutcomeFrom(s', events[1..]);
      if s.conn.Some? {
        ConnectedIsFinal(s, events);
      }
      assert Run(s, events) == Run(s', events[1..]);
      var first := if e.Call? then [CallStep(s).1] else [];
      assert Replies(s, events) == first + Replies(s', events[1..]);
    }
  }

  /**
   * Concurrent callers share one attempt: from the empty cache, without a
   * failure, every caller gets the promise of attempt 1 or the connection that
   * attempt produced, which is the one finally cached.
   */
  lemma SharedOutcome(events: seq<Event>)
    requires Failures(events) == 0
    ensures Run(Empty, events).attempts <= 1
    ensures forall k :: 0 <= k < |Replies(Empty, events)| ==>
              Replies(Empty, events)[k] == Awaiting(1)
              || (Run(Empty, events).conn.Some? && Replies(Empty, events)[k] == Connected(Run(Empty, events).conn.value))
  {
    SharedOutcomeFrom(Empty, events);
  }

  /** After a failure the next call does not reuse the failed promise but starts a fresh attempt. */
  lemma RetryAfterFailure(s: CacheState)
    requires ValidState(s) && InFlight(s)
    ensures CallStep(RejectStep(s)).1 == Awaiting(s.attempts + 1)
    ensures CallStep(RejectStep(s)).0 == CacheState(None, Some(s.attempts + 1), s.attempts + 1)
  {
  }

  // ---------------------------------------------------------------------------
  // The cache as the mutable global it is
  // ---------------------------------------------------------------------------

  /** `global.mongooseCache`, with the attempt counter beside it. */
  class ConnectionCache {
    var conn: Option<Conn>
    var promise: Option<nat>
    var attempts: nat

    function State(): CacheState
      reads this
    {
      CacheState(conn, promise, attempts)
    }

    /** `{ conn: null, promise: null }`. */
    constructor ()
      ensures State() == Empty
    {
      conn, promise, attempts := None, None, 0;
    }

    /** `connectDB()`. */
    method Call() returns (reply: Reply)
      requires ValidState(State())
      modifies this
      ensures ValidState(State())
      ensures (State(), reply) == CallStep(old(State()))
      ensures old(conn).Some? ==> reply == Connected(old(conn).value) && State() == old(State())
      ensures old(conn).None? && old(promise).Some? ==> reply == Awaiting(old(promise).value) && State() == old(State())
      ensures old(conn).None? && old(promise).None? ==>
                && attempts == old(attempts) + 1 && conn.None? && promise == Some(attempts)
                && reply == Awaiting(attempts)
    {
      if conn.Some? {
        return Connected(conn.value);
      }
      if promise.Some? {
        return Awaiting(promise.value);
      }
      attempts := attempts + 1;
      promise := Some(attempts);
      return Awaiting(attempts);
    }

    /** The `.then` callback of the attempt in flight: the connection is cached, the promise stays. */
    method Resolve(c: Conn)
      requires ValidState(State()) && InFlight(State())
      modifies this
      ensures ValidState(State())
      ensures State() == ResolveStep(old(State()), c)
      ensures conn == Some(c) && promise == old(promise) && attempts == old(attempts)
    {
      conn := Some(c);
    }

    /** The `.catch` callback of the attempt in flight: the promise is cleared so that the next call retries. */
    method Reject()
      requires ValidState(State()) && InFlight(State())
      modifies this
      ensures ValidState(State())
      ensures State() == RejectStep(old(State()))
      ensures conn.None? && promise.None? && attempts == old(attempts)
    {
      promise := None;
    }
  }

  /** The process's global object, which holds the cache once the module has been loaded. */
  class Globals {
    var mongooseCache: ConnectionCache?

    /** `if (!global.mongooseCache) global.mongooseCache = { conn: null, promise: null }`. */
    method InitCache()
      modifies this
      ensures old(mongooseCache) != null ==> mongooseCache == old(mongooseCache)
      ensures old(mongooseCache) != null ==> mongooseCache.State() == old(mongooseCache.State())
      ensures old(mongooseCache) == null ==>
                mongooseCache != null && fresh(mongooseCache) && mongooseCache.State() == Empty
    {
      if mongooseCache == null {
        mongooseCache := new ConnectionCache();
      }
    }
  }
}
