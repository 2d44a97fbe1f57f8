/**
 * The middleware pipeline every endpoint is served through: a handler
 * wrapped by `WrapWithMiddlewares` in a chain whose first element is the
 * outermost layer. The status-writer overloader gives the layers below it a
 * `StatusWriter` that remembers the last status written; the idempotency
 * middleware lets GET through, refuses other verbs than POST, demands an
 * `Idempotency-Key` header, answers a key already finished with 201 without
 * running the handler, and otherwise runs the handler and marks the key
 * finished when the status it wrote is below 400.
 *
 * `Run` is the meaning of a wrapped handler on the whole observable state
 * (ledger, key table, client response, tracked status); `ServeHTTP` is the
 * handler run in place on the store objects and the writers, proved to do
 * what `Run` says.
 */
module Pipeline {
  import opened Wrappers
  import opened Decimal
  import opened Calendar
  import opened Errors
  import opened Ledger
  import opened Params
  import opened Writers
  import opened Keys
  import opened Store
  import opened Handlers

  const StatusCreated: int := 201
  /** The body of the 400 written when a POST carries no key. */
  const KeyNotFound: string := "`Idempotency-Key` not found"

  datatype Middleware = StatusOverloader | Idempotency

  /** An `http.Handler`: an endpoint handler, or a middleware around another handler. */
  datatype Handler = Leaf(endpoint: Endpoint) | Wrap(middleware: Middleware, next: Handler)

  // ----- WrapWithMiddlewares -------------------------------------------------------

  /** The handler `chain` builds around `h`: `chain[0]` outermost, the last element next to `h`. */
  function Compose(chain: seq<Middleware>, h: Handler): Handler
    decreases |chain|
  {
    if chain == [] then h else Wrap(chain[0], Compose(chain[1..], h))
  }

  /** The middlewares a request passes through, outermost first, before it reaches the endpoint. */
  function Layers(h: Handler): seq<Middleware> {
    match h
    case Leaf(_) => []
    case Wrap(m, next) => [m] + Layers(next)
  }

  function Core(h: Handler): Endpoint {
    match h
    case Leaf(e) => e
    case Wrap(_, next) => Core(next)
  }

  /** Wrapping adds exactly the chain's middlewares, in the chain's order, in front of the existing ones. */
  lemma {:induction false} LayersOfCompose(chain: seq<Middleware>, h: Handler)
    ensures Layers(Compose(chain, h)) == chain + Layers(h)
    ensures Core(Compose(chain, h)) == Core(h)
    decreases |chain|
  {
    if chain != [] {
      LayersOfCompose(chain[1..], h);
      assert chain == [chain[0]] + chain[1..];
    }
  }

  /** Wrapping with `a + b` is wrapping with `b`, then with `a`. */
  lemma {:induction false} ComposeAppend(a: seq<Middleware>, b: seq<Middleware>, h: Handler)
    ensures Compose(a + b, h) == Compose(a, Compose(b, h))
    decreases |a|
  {
    if a != [] {
      assert (a + b)[0] == a[0] && (a + b)[1..] == a[1..] + b;
      ComposeAppend(a[1..], b, h);
      assert Compose(a + b, h) == Wrap(a[0], Compose(a[1..] + b, h));
    } else {
      assert a + b == b;
    }
  }

  /** `WrapWithMiddlewares`: apply the chain from its last element to its first. */
  method WrapWithMiddlewares(handler: Handler, chain: seq<Middleware>) returns (r: Handler)
    ensures r == Compose(chain, handler)
    ensures Layers(r) == chain + Layers(handler) && Core(r) == Core(handler)
  {
    r := handler;
    var i := |chain| - 1;
    while i >= 0
      invariant -1 <= i < |chain|
      invariant r == Compose(chain[i + 1..], handler)
      decreases i
    {
      assert chain[i..][1..] == chain[i + 1..];
      r := Wrap(chain[i], r);
      i := i - 1;
    }
    assert chain[0..] == chain;
    LayersOfCompose(chain, handler);
  }

  /**
   * The chain every endpoint is built with (the metrics middleware, which
   * sits between these two, only observes and is not modelled).
   */
  const Production: seq<Middleware> := [StatusOverloader, Idempotency]

  /** An endpoint as `main` serves it. */
  function Served(e: Endpoint): (h: Handler)
    ensures Servable(h, false)
  {
    Wrap(StatusOverloader, Wrap(Idempotency, Leaf(e)))
  }

  /**
   * Which handlers can serve a writer without panicking: the overloader
   * over the server's own writer, and the idempotency middleware only over
   * a `StatusWriter` (it asserts the writer's type after the handler ran).
   */
  predicate Servable(h: Handler, tracked: bool) {
    match h
    case Leaf(_) => true
    case Wrap(StatusOverloader, next) => !tracked && Servable(next, true)
    case Wrap(Idempotency, next) => tracked && Servable(next, true)
  }

  /** It is the endpoint wrapped with the production chain. */
  lemma ServedIsProduction(e: Endpoint)
    ensures Served(e) == Compose(Production, Leaf(e))
    ensures Layers(Served(e)) == Production && Core(Served(e)) == e
  {
    assert Production[1..] == [Idempotency] && Production[1..][1..] == [];
  }

  // ----- what a request does ------------------------------------------------------

  /**
   * Everything a request can change: the ledger, the key table, what the
   * client has received, and the status the `StatusWriter` handed to this
   * layer remembers (None when the layer writes to the server's writer).
   */
  datatype Env = Env(db: State, keys: map<string, Status>, response: Response, status: Option<int>)

  /** A reply sent through this layer's writer. */
  function Answer(env: Env, reply: Reply): Env {
    env.(response := Emit(env.response, reply),
         status := if env.status.Some? then Some(TrackedAfter(env.status.value, reply)) else None)
  }

  /**
   * The meaning of `h` on `env`; `keyErr` is the error every call to the key
   * store returns, None for a store that works.
   */
  function Run(h: Handler, keyErr: Option<Error>, env: Env, req: Request, now: Timestamp): (r: Env)
    requires Inv(env.db) && Servable(h, env.status.Some?)
    ensures r.status.Some? == env.status.Some?
    decreases h
  {
    match h
    case Leaf(e) =>
      var o := Flow(e, env.db, req, now);
      Answer(env.(db := o.state), o.reply)
    case Wrap(StatusOverloader, next) =>
      Run(next, keyErr, env.(status := Some(StatusOK)), req, now).(status := env.status)
    case Wrap(Idempotency, next) =>
      if req.verb == MethodGet then Run(next, keyErr, env, req, now)
      else if req.verb != MethodPost then Answer(env, NotAllowed)
      else if req.idempotencyKey == "" then Answer(env, Reply(Some(StatusBadRequest), KeyNotFound))
      else if keyErr.Some? then Answer(env, Reply(Some(StatusInternalServerError), ""))
      else if Lookup(env.keys, req.idempotencyKey) == Finished then Answer(env, Reply(Some(StatusCreated), ""))
      else
        var after := Run(next, keyErr, env, req, now);
        if after.status.value < 400 then after.(keys := after.keys[req.idempotencyKey := Finished])
        else after
  }

  // ----- in place -----------------------------------------------------------------

  /** The error every call to `keys` returns, if it is a store that cannot be reached. */
  function Backend(keys: KeyStore): Option<Error> {
    if keys.unreachable then Some(keys.failure) else None
  }

  function Tracking(w: Writer): Option<int>
    reads Objects(w)
  {
    if w.Tracked? then Some(w.sw.status) else None
  }

  function Observed(store: WalletStore, keys: KeyStore, w: Writer): Env
    reads store, keys, Objects(w)
  {
    Env(store.Contents(), keys.entries, Base(w).View(), Tracking(w))
  }

  /** `ServeHTTP` of the wrapped handler `h`, on the store, the key store and the writer in place. */
  method ServeHTTP(h: Handler, store: WalletStore, keys: KeyStore, w: Writer, req: Request, now: Timestamp)
    requires store.Valid() && Servable(h, w.Tracked?)
    modifies store, keys, Objects(w)
    ensures Observed(store, keys, w) == Run(h, Backend(keys), old(Observed(store, keys, w)), req, now)
    ensures ValidTimestamp(now) ==> store.Valid()
    decreases h
  {
    assert store !in Objects(w) && keys !in Objects(w);
    match h
    case Leaf(e) =>
      Serve(e, store, w, req, now);
      if ValidTimestamp(now) {
        FlowKeepsInv(e, old(store.Contents()), req, now);
      }
    case Wrap(StatusOverloader, next) =>
      var sw := new StatusWriter(w.rec);
      ServeHTTP(next, store, keys, Tracked(sw), req, now);
    case Wrap(Idempotency, next) =>
      if req.verb == MethodGet {
        ServeHTTP(next, store, keys, w, req, now);
        return;
      }
      if req.verb != MethodPost {
        Send(w, NotAllowed);
        return;
      }
      var key := req.idempotencyKey;
      if key == "" {
        Send(w, Reply(Some(StatusBadRequest), KeyNotFound));
        return;
      }
      var status, err := keys.Status(key);
      if err.Some? {
        // the 500 is written, then `log.Fatalf` ends the process
        Send(w, Reply(Some(StatusInternalServerError), ""));
        return;
      }
      if status == Finished {
        Send(w, Reply(Some(StatusCreated), ""));
        return;
      }
      ServeHTTP(next, store, keys, w, req, now);
      if w.sw.status < 400 {
        var saveErr := keys.SetStatus(key, Finished);
      }
  }

  // ----- properties -----------------------------------------------------------------

  /** With valid timestamps, no request breaks the ledger's invariant. */
  lemma {:induction false} RunKeepsInv(h: Handler, keyErr: Option<Error>, env: Env, req: Request, now: Timestamp)
    requires Inv(env.db) && Servable(h, env.status.Some?) && ValidTimestamp(now)
    ensures Inv(Run(h, keyErr, env, req, now).db)
    decreases h
  {
    match h
    case Leaf(e) =>
      FlowKeepsInv(e, env.db, req, now);
    case Wrap(StatusOverloader, next) =>
      RunKeepsInv(next, keyErr, env.(status := Some(StatusOK)), req, now);
    case Wrap(Idempotency, next) =>
      RunKeepsInv(next, keyErr, env, req, now);
  }

  /** A request changes at most its own key, and only to Finished: a finished key stays finished. */
  lemma {:induction false} KeysOnlyFinish(h: Handler, keyErr: Option<Error>, env: Env, req: Request, now: Timestamp, k: string)
    requires Inv(env.db) && Servable(h, env.status.Some?)
    ensures var r := Run(h, keyErr, env, req, now);
      Lookup(r.keys, k) == Lookup(env.keys, k) || (k == req.idempotencyKey && Lookup(r.keys, k) == Finished)
    decreases h
  {
    match h
    case Leaf(e) =>
    case Wrap(StatusOverloader, next) =>
      KeysOnlyFinish(next, keyErr, env.(status := Some(StatusOK)), req, now, k);
    case Wrap(Idempotency, next) =>
      KeysOnlyFinish(next, keyErr, env, req, now, k);
  }

  /** Every endpoint answers a GET without changing the ledger, and no layer records a key for it. */
  lemma {:induction false} GetChangesNothing(h: Handler, keyErr: Option<Error>, env: Env, req: Request, now: Timestamp)
    requires Inv(env.db) && Servable(h, env.status.Some?) && req.verb == MethodGet
    ensures Run(h, keyErr, env, req, now).db == env.db
    ensures Run(h, keyErr, env, req, now).keys == env.keys
    decreases h
  {
    match h
    case Leaf(e) =>
    case Wrap(StatusOverloader, next) =>
      GetChangesNothing(next, keyErr, env.(status := Some(StatusOK)), req, now);
    case Wrap(Idempotency, next) =>
      GetChangesNothing(next, keyErr, env, req, now);
  }

  /**
   * The requests the idempotency layer answers itself: a verb other than GET
   * and POST (405), a POST without a key (400 and a message), a key store
   * that fails (500), a key already finished (201). None of them reaches the
   * handler, so the ledger and the key table stay as they were.
   */
  lemma Rejections(next: Handler, keyErr: Option<Error>, env: Env, req: Request, now: Timestamp)
    requires Inv(env.db) && env.status.Some? && Servable(next, true)
    requires req.verb != MethodGet
    ensures var r := Run(Wrap(Idempotency, next), keyErr, env, req, now);
      req.verb != MethodPost ==>
        r.db == env.db && r.keys == env.keys && r.response == AfterHeader(env.response, StatusMethodNotAllowed)
    ensures var r := Run(Wrap(Idempotency, next), keyErr, env, req, now);
      req.verb == MethodPost && req.idempotencyKey == "" ==>
        r.db == env.db && r.keys == env.keys &&
        r.response == AfterWrite(AfterHeader(env.response, StatusBadRequest), KeyNotFound)
    ensures var r := Run(Wrap(Idempotency, next), keyErr, env, req, now);
      req.verb == MethodPost && req.idempotencyKey != "" && keyErr.Some? ==>
        r.db == env.db && r.keys == env.keys && r.response == AfterHeader(env.response, StatusInternalServerError)
    ensures var r := Run(Wrap(Idempotency, next), keyErr, env, req, now);
      req.verb == MethodPost && req.idempotencyKey != "" && keyErr == None &&
      Lookup(env.keys, req.idempotencyKey) == Finished ==>
        r.db == env.db && r.keys == env.keys && r.response == AfterHeader(env.response, StatusCreated)
  {
  }

  /**
   * A POST with a key not yet finished runs the handler once; the key is
   * recorded as finished iff the status the handler left is below 400, so
   * a failed attempt can be retried with the same key.
   */
  lemma FirstAttempt(next: Handler, env: Env, req: Request, now: Timestamp)
    requires Inv(env.db) && env.status.Some? && Servable(next, true)
    requires req.verb == MethodPost && req.idempotencyKey != "" && Lookup(env.keys, req.idempotencyKey) == Unknown
    ensures var r := Run(Wrap(Idempotency, next), None, env, req, now);
      var inner := Run(next, None, env, req, now);
      r.db == inner.db && r.response == inner.response &&
      (Lookup(r.keys, req.idempotencyKey) == Finished <==> inner.status.value < 400) &&
      (forall k :: k != req.idempotencyKey ==> Lookup(r.keys, k) == Lookup(inner.keys, k))
  {
  }

  /**
   * Through the production chain, a POST with a key: a finished key is
   * answered 201 with nothing changed; otherwise the endpoint runs once and
   * the key is finished iff the endpoint wrote no status of 400 or more.
   */
  lemma ProductionRun(e: Endpoint, s: State, keys: map<string, Status>, response: Response, req: Request, now: Timestamp)
    requires Inv(s) && req.verb == MethodPost && req.idempotencyKey != ""
    ensures Lookup(keys, req.idempotencyKey) == Finished ==>
      Run(Served(e), None, Env(s, keys, response, None), req, now) ==
        Env(s, keys, AfterHeader(response, StatusCreated), None)
    ensures Lookup(keys, req.idempotencyKey) == Unknown ==>
      var o := Flow(e, s, req, now);
      var ok := o.reply.header == None || o.reply.header.value < 400;
      Run(Served(e), None, Env(s, keys, response, None), req, now) ==
        Env(o.state, if ok then keys[req.idempotencyKey := Finished] else keys, Emit(response, o.reply), None)
  {
  }

  // ----- the transfer endpoint behind the production chain ----------------------------

  /** No endpoint reads the `Idempotency-Key` header; only the middleware does. */
  lemma KeyIgnored(e: Endpoint, s: State, req: Request, key: string, now: Timestamp)
    requires Inv(s)
    ensures Flow(e, s, req.(idempotencyKey := key), now) == Flow(e, s, req, now)
  {
  }

  function TransferRequest(key: string, from: string, to: string, amount: int): Request {
    PostRequest(TransferBody(from, to, amount)).(idempotencyKey := key)
  }

  /** Behind the chain, a transfer with an unfinished key is the endpoint's own outcome, keyed by its status. */
  lemma TransferBehindChain(s: State, keys: map<string, Status>, key: string, from: string, to: string, amount: int, now: Timestamp)
    requires Inv(s) && key != "" && Lookup(keys, key) == Unknown
    ensures var o := TransferFlow(s, PostRequest(TransferBody(from, to, amount)), now);
      var ok := o.reply.header == None || o.reply.header.value < 400;
      Run(Served(TransferEndpoint), None, Env(s, keys, Fresh, None), TransferRequest(key, from, to, amount), now) ==
        Env(o.state, if ok then keys[key := Finished] else keys, Emit(Fresh, o.reply), None)
  {
    ProductionRun(TransferEndpoint, s, keys, Fresh, TransferRequest(key, from, to, amount), now);
    KeyIgnored(TransferEndpoint, s, PostRequest(TransferBody(from, to, amount)), key, now);
  }

  /**
   * A transfer from a missing wallet is answered 404 and its key stays
   * unfinished, so it can be retried with the same key.
   */
  lemma TransferMissingRetryable(s: State, keys: map<string, Status>, key: string, from: string, to: string, amount: int, now: Timestamp)
    requires Inv(s) && ValidTimestamp(now)
    requires key != "" && Lookup(keys, key) == Unknown
    requires from != "" && to != "" && from != to && 0 < amount <= MaxInt64
    requires from !in s.wallets || to !in s.wallets
    ensures var r := Run(Served(TransferEndpoint), None, Env(s, keys, Fresh, None), TransferRequest(key, from, to, amount), now);
      r.response.code == StatusNotFound && r.db == s && r.keys == keys
  {
    TransferBehindChain(s, keys, key, from, to, amount, now);
    TransferScenarios(s, from, to, amount, now);
    SentinelReplies();
  }

  /**
   * Between existing wallets with headroom at the destination and enough
   * money at the source, a transfer with an unfinished key moves the amount,
   * is answered 200 and finishes its key; `ProductionRun` then answers the
   * same key with 201.
   */
  lemma TransferSucceeds(s: State, keys: map<string, Status>, key: string, from: string, to: string, amount: int, now: Timestamp)
    requires Inv(s) && ValidTimestamp(now)
    requires key != "" && Lookup(keys, key) == Unknown
    requires from != "" && to != "" && from != to && 0 < amount <= MaxInt64
    requires from in s.wallets && to in s.wallets && s.wallets[to] + amount <= MaxInt64
    requires s.wallets[from] >= amount
    ensures var r := Run(Served(TransferEndpoint), None, Env(s, keys, Fresh, None), TransferRequest(key, from, to, amount), now);
      r.response.code == StatusOK && r.db.wallets == Moved(s.wallets, from, to, amount) &&
      r.keys == keys[key := Finished]
  {
    var o := TransferFlow(s, PostRequest(TransferBody(from, to, amount)), now);
    assert o.reply == Done && o.state.wallets == Moved(s.wallets, from, to, amount) by {
      TransferScenarios(s, from, to, amount, now);
    }
    var r := Run(Served(TransferEndpoint), None, Env(s, keys, Fresh, None), TransferRequest(key, from, to, amount), now);
    TransferBehindChain(s, keys, key, from, to, amount, now);
    Finishing(r, o, keys, key);
  }

  /** The environment a reply with no status leaves behind the chain: 200, and the key finished. */
  lemma Finishing(r: Env, o: Outcome, keys: map<string, Status>, key: string)
    requires r == Env(o.state, if o.reply.header == None || o.reply.header.value < 400 then keys[key := Finished] else keys,
                      Emit(Fresh, o.reply), None)
    requires o.reply == Done
    ensures r.response.code == StatusOK && r.db == o.state && r.keys == keys[key := Finished]
  {
    EmitFresh(Done);
  }

  /**
   * A transfer from a source holding less than the amount is answered 402
   * and changes nothing: neither the ledger nor the key, which stays open
   * for a retry.
   */
  lemma TransferShort(s: State, keys: map<string, Status>, key: string, from: string, to: string, amount: int, now: Timestamp)
    requires Inv(s) && ValidTimestamp(now)
    requires key != "" && Lookup(keys, key) == Unknown
    requires from != "" && to != "" && from != to && 0 < amount <= MaxInt64
    requires from in s.wallets && to in s.wallets && s.wallets[from] < amount
    ensures var r := Run(Served(TransferEndpoint), None, Env(s, keys, Fresh, None), TransferRequest(key, from, to, amount), now);
      r.response.code == StatusPaymentRequired && r.db == s && r.keys == keys
  {
    var o := TransferFlow(s, PostRequest(TransferBody(from, to, amount)), now);
    assert o == Outcome(s, ErrorReply(InsufficientBalance)) by {
      TransferScenarios(s, from, to, amount, now);
    }
    assert o.reply.header == Some(StatusPaymentRequired) by {
      SentinelReplies();
    }
    TransferBehindChain(s, keys, key, from, to, amount, now);
    EmitFresh(o.reply);
  }

  /** How many of `codes` are `c`. */
  function Count(codes: seq<int>, c: int): (n: nat)
    ensures n <= |codes|
  {
    if codes == [] then 0 else (if codes[0] == c then 1 else 0) + Count(codes[1..], c)
  }

  /** When every code is 200 or 402, the two counts add up to all of them. */
  lemma {:induction false} CountSplit(codes: seq<int>)
    requires PaidOrShort(codes)
    ensures Count(codes, StatusOK) + Count(codes, StatusPaymentRequired) == |codes|
  {
    if codes != [] {
      CountSplit(codes[1..]);
    }
  }

  /** The codes all say 200 or 402. */
  predicate PaidOrShort(codes: seq<int>) {
    forall i :: 0 <= i < |codes| ==> codes[i] == StatusOK || codes[i] == StatusPaymentRequired
  }

  lemma PaidOrShortCons(c: int, tail: seq<int>)
    requires (c == StatusOK || c == StatusPaymentRequired) && PaidOrShort(tail)
    ensures PaidOrShort([c] + tail)
  {
    assert forall i :: 1 <= i < |[c] + tail| ==> ([c] + tail)[i] == tail[i - 1];
  }

  lemma CountCons(c: int, tail: seq<int>, x: int)
    ensures Count([c] + tail, x) == (if c == x then 1 else 0) + Count(tail, x)
  {
    assert ([c] + tail)[1..] == tail;
  }

  /**
   * Transfers of `amount` from `from` to each of `dests` in turn through the
   * production chain, the i-th with key `ids[i]` and its own response: the
   * state after them and the status each client received.
   */
  function Burst(env: Env, from: string, dests: seq<string>, ids: seq<string>, amount: int, now: Timestamp): (r: (Env, seq<int>))
    requires Inv(env.db) && env.status == None && ValidTimestamp(now) && |ids| == |dests|
    ensures Inv(r.0.db) && r.0.status == None && |r.1| == |dests|
    decreases |dests|
  {
    if dests == [] then (env, [])
    else
      var req := TransferRequest(ids[0], from, dests[0], amount);
      var after := Run(Served(TransferEndpoint), None, env.(response := Fresh), req, now);
      RunKeepsInv(Served(TransferEndpoint), None, env.(response := Fresh), req, now);
      var rest := Burst(after, from, dests[1..], ids[1..], amount, now);
      (rest.0, [after.response.code] + rest.1)
  }

  /**
   * What a burst needs: a sound ledger, a source and destinations with
   * headroom for every transfer, non-empty names, and a distinct key per
   * request that the key table has not finished.
   */
  predicate BurstReady(env: Env, from: string, dests: seq<string>, ids: seq<string>, amount: int, now: Timestamp) {
    Inv(env.db) && env.status == None && ValidTimestamp(now) &&
    Headroom(env.db.wallets, from, dests, amount) && amount <= MaxInt64 &&
    from != "" && (forall i :: 0 <= i < |dests| ==> dests[i] != "") &&
    |ids| == |dests| && Distinct(ids) &&
    forall i :: 0 <= i < |ids| ==> ids[i] != "" && Lookup(env.keys, ids[i]) == Unknown
  }

  /**
   * The first request of a burst: one transfer attempt, answered 200 when it
   * moves the money and 402 when it does not, after which the rest of the
   * burst still meets the burst's conditions.
   */
  lemma BurstStep(env: Env, from: string, dests: seq<string>, ids: seq<string>, amount: int, now: Timestamp)
    requires dests != [] && BurstReady(env, from, dests, ids, amount, now)
    ensures var after := Run(Served(TransferEndpoint), None, env.(response := Fresh),
                             TransferRequest(ids[0], from, dests[0], amount), now);
      var step := TransferAttempt(env.db.wallets, from, dests[0], amount);
      after.db.wallets == step.0 &&
      after.response.code == (if step.1 == 1 then StatusOK else StatusPaymentRequired) &&
      BurstReady(after, from, dests[1..], ids[1..], amount, now)
  {
    var m := env.db.wallets;
    var req := TransferRequest(ids[0], from, dests[0], amount);
    var start := env.(response := Fresh);
    assert start == Env(env.db, env.keys, Fresh, None);
    var after := Run(Served(TransferEndpoint), None, start, req, now);
    AttemptEffect(m, from, dests[0], amount);
    if m[from] >= amount {
      TransferSucceeds(env.db, env.keys, ids[0], from, dests[0], amount, now);
      HeadroomAfterMove(m, from, dests, amount);
    } else {
      TransferShort(env.db, env.keys, ids[0], from, dests[0], amount, now);
      HeadroomTail(m, from, dests, amount);
    }
    RunKeepsInv(Served(TransferEndpoint), None, start, req, now);
    var restIds := ids[1..];
    forall i | 0 <= i < |restIds|
      ensures restIds[i] != "" && Lookup(after.keys, restIds[i]) == Unknown
    {
      assert restIds[i] == ids[i + 1] && ids[i + 1] != ids[0];
    }
    forall i, j | 0 <= i < j < |restIds| ensures restIds[i] != restIds[j] {
      assert restIds[i] == ids[i + 1] && restIds[j] == ids[j + 1];
    }
    var rest := dests[1..];
    assert forall i :: 0 <= i < |rest| ==> rest[i] == dests[i + 1];
  }

  /**
   * With a distinct fresh key per request, the burst moves the balances
   * exactly as the transfers would one after another, and the clients that
   * see 200 are as many as the transfers that succeeded.
   */
  lemma {:induction false} BurstIsTransferEach(env: Env, from: string, dests: seq<string>, ids: seq<string>, amount: int, now: Timestamp)
    requires BurstReady(env, from, dests, ids, amount, now)
    ensures var r := Burst(env, from, dests, ids, amount, now);
      var t := TransferEach(env.db.wallets, from, dests, amount);
      r.0.db.wallets == t.0 && Count(r.1, StatusOK) == t.1
    decreases |dests|
  {
    if dests != [] {
      var req := TransferRequest(ids[0], from, dests[0], amount);
      var after := Run(Served(TransferEndpoint), None, env.(response := Fresh), req, now);
      BurstStep(env, from, dests, ids, amount, now);
      var rest := dests[1..];
      BurstIsTransferEach(after, from, rest, ids[1..], amount, now);
      var tail := Burst(after, from, rest, ids[1..], amount, now);
      var codes := [after.response.code] + tail.1;
      assert Burst(env, from, dests, ids, amount, now) == (tail.0, codes);
      var step := TransferAttempt(env.db.wallets, from, dests[0], amount);
      var u := TransferEach(step.0, from, rest, amount);
      assert tail.0.db.wallets == u.0 && Count(tail.1, StatusOK) == u.1;
      TransferEachCons(env.db.wallets, from, dests, amount);
      CountStep(after.response.code, tail.1, step.1);
    }
  }

  /** One more client after `tail`: it adds one to the 200s iff its attempt succeeded. */
  lemma CountStep(code: int, tail: seq<int>, succeeded: nat)
    requires succeeded <= 1 && code == (if succeeded == 1 then StatusOK else StatusPaymentRequired)
    ensures Count([code] + tail, StatusOK) == Count(tail, StatusOK) + succeeded
  {
    CountCons(code, tail, StatusOK);
  }

  /** Every client of the burst sees 200 or 402. */
  lemma {:induction false} BurstCodes(env: Env, from: string, dests: seq<string>, ids: seq<string>, amount: int, now: Timestamp)
    requires BurstReady(env, from, dests, ids, amount, now)
    ensures PaidOrShort(Burst(env, from, dests, ids, amount, now).1)
    decreases |dests|
  {
    if dests != [] {
      var req := TransferRequest(ids[0], from, dests[0], amount);
      var after := Run(Served(TransferEndpoint), None, env.(response := Fresh), req, now);
      BurstStep(env, from, dests, ids, amount, now);
      var rest := dests[1..];
      BurstCodes(after, from, rest, ids[1..], amount, now);
      var tail := Burst(after, from, rest, ids[1..], amount, now).1;
      assert Burst(env, from, dests, ids, amount, now).1 == [after.response.code] + tail;
      PaidOrShortCons(after.response.code, tail);
    }
  }

  /**
   * The concurrent burst of the transfer endpoint's tests, run one request
   * after another: ten transfers of 15 from a wallet holding 108, each to a
   * different wallet holding at most 15 and each with its own key: seven
   * clients see 200 and three see 402, the source keeps 3, and the total
   * over the wallets involved does not change.
   */
  lemma TenTransfersThroughTheChain(env: Env, from: string, dests: seq<string>, ids: seq<string>, now: Timestamp)
    requires Inv(env.db) && env.status == None && ValidTimestamp(now)
    requires from != "" && from in env.db.wallets && env.db.wallets[from] == 108
    requires |dests| == 10 && Distinct(dests)
    requires forall i :: 0 <= i < |dests| ==>
      dests[i] != "" && dests[i] in env.db.wallets && dests[i] != from && env.db.wallets[dests[i]] <= 15
    requires |ids| == 10 && Distinct(ids)
    requires forall i :: 0 <= i < |ids| ==> ids[i] != "" && Lookup(env.keys, ids[i]) == Unknown
    ensures var r := Burst(env, from, dests, ids, 15, now);
      var m := r.0.db.wallets;
      Count(r.1, StatusOK) == 7 && Count(r.1, StatusPaymentRequired) == 3 &&
      from in m && m[from] == 3 &&
      (forall i :: 0 <= i < |dests| ==> dests[i] in m) &&
      SumOf(m, [from] + dests) == SumOf(env.db.wallets, [from] + dests)
  {
    var m := env.db.wallets;
    assert Headroom(m, from, dests, 15);
    BurstIsTransferEach(env, from, dests, ids, 15, now);
    BurstCodes(env, from, dests, ids, 15, now);
    TenTransfersOfFifteen(m, from, dests);
    var r := Burst(env, from, dests, ids, 15, now);
    CountSplit(r.1);
  }
}
