/**
 * The HTTP handlers: each checks the method, parses and validates its
 * parameters, asks the repository, and answers through `HandlerError` on
 * the first error. Each handler is given twice: as a function from the
 * committed state and the request to the new state and the reply
 * (`TransferFlow`, ...), and as a method over a `WalletStore` and a response
 * writer that is proved to do exactly that.
 */
module Handlers {
  import opened Wrappers
  import opened Decimal
  import opened Calendar
  import opened Errors
  import opened Json
  import opened Ledger
  import opened Params
  import opened Csv
  import opened Writers
  import opened Store

  const StatusPaymentRequired: int := 402
  const StatusNotFound: int := 404
  const StatusMethodNotAllowed: int := 405
  const StatusConflict: int := 409
  const StatusInternalServerError: int := 500

  const MethodGet: string := "GET"
  const MethodPost: string := "POST"

  /**
   * What a handler reads from an `*http.Request`: the method, the
   * `Idempotency-Key` header ("" when absent), the JSON body decoded as an
   * object of strings (`None` when absent or undecodable), the query
   * (`None` when `ParseForm` fails) and the route variables.
   */
  datatype Request = Request(verb: string, idempotencyKey: string, body: Option<map<string, string>>,
                             form: Option<map<string, string>>, vars: map<string, string>)

  // ----- HandlerError --------------------------------------------------------------

  /** The status `HandlerError` answers with: a params error's own code, then the sentinels, else 500. */
  function ErrorStatus(e: Error): int {
    match AsParams(e)
    case Some(p) => p.code
    case None =>
      if Is(e, WalletNotFound) then StatusNotFound
      else if Is(e, InsufficientBalance) then StatusPaymentRequired
      else if Is(e, WalletAlreadyExists) then StatusConflict
      else StatusInternalServerError
  }

  /** The message `HandlerError` puts in the body: a params error's message, else the error's whole text. */
  function ErrorText(e: Error): string {
    match AsParams(e)
    case Some(p) => p.message
    case None => Message(e)
  }

  /** `HandlerError` for a non-nil error: the status, then `{"ok":0,"message":...}`. */
  function ErrorReply(e: Error): Reply {
    Reply(Some(ErrorStatus(e)), ErrorBody(ErrorText(e)))
  }

  /** The status depends only on the innermost error of the wrap chain; wrapping changes only the message. */
  lemma ErrorStatusByRoot(e: Error)
    ensures ErrorStatus(e) ==
      match Root(e)
      case ParamsError(code, _) => code
      case WalletNotFound => StatusNotFound
      case InsufficientBalance => StatusPaymentRequired
      case WalletAlreadyExists => StatusConflict
      case _ => StatusInternalServerError
    ensures ErrorText(e) == if Root(e).ParamsError? then Root(e).message else Message(e)
  {
    AsParamsMeansRoot(e);
    IsMeansRoot(e, WalletNotFound);
    IsMeansRoot(e, InsufficientBalance);
    IsMeansRoot(e, WalletAlreadyExists);
  }

  function ErrOf<T>(r: Result<T, Error>): Option<Error> {
    if r.Failure? then Some(r.error) else None
  }

  /**
   * `HandlerError(err, w)`: a nil error writes nothing and does not abort;
   * any other error is answered and aborts the handler.
   */
  method HandlerError(err: Option<Error>, w: Writer) returns (abort: bool)
    modifies Objects(w)
    ensures abort <==> err.Some?
    ensures err.Some? ==> Base(w).View() == Emit(old(Base(w).View()), ErrorReply(err.value))
    ensures err.None? ==> Base(w).View() == old(Base(w).View())
    ensures w.Tracked? ==> w.sw.status == if err.Some? then ErrorStatus(err.value) else old(w.sw.status)
  {
    if err.None? {
      return false;
    }
    var e := err.value;
    var code: int;
    var message: string;
    var p := AsParams(e);
    if p.Some? {
      code, message := p.value.code, p.value.message;
    } else if Is(e, WalletNotFound) {
      code, message := StatusNotFound, Message(e);
    } else if Is(e, InsufficientBalance) {
      code, message := StatusPaymentRequired, Message(e);
    } else if Is(e, WalletAlreadyExists) {
      code, message := StatusConflict, Message(e);
    } else {
      code, message := StatusInternalServerError, Message(e);
    }
    Send(w, Reply(Some(code), ErrorBody(message)));
    return true;
  }

  // ----- the handlers as functions -------------------------------------------------

  /** The state after a request and the reply written for it. */
  datatype Outcome = Outcome(state: State, reply: Reply)

  /** `w.WriteHeader(http.StatusMethodNotAllowed)`. */
  const NotAllowed: Reply := Reply(Some(StatusMethodNotAllowed), "")
  /** Nothing written: the client sees 200 and an empty body. */
  const Done: Reply := Reply(None, "")

  /** `TransferHandler.ServeHTTP`. */
  function TransferFlow(s: State, req: Request, now: Timestamp): Outcome {
    if req.verb != MethodPost then Outcome(s, NotAllowed)
    else match ParseTransfer(req.body)
      case Failure(e) => Outcome(s, ErrorReply(e))
      case Success(p) =>
        if ValidateTransfer(p).Some? then Outcome(s, ErrorReply(ValidateTransfer(p).value))
        else if GetOutcome(s, p.walletFromName).Failure? then Outcome(s, ErrorReply(GetOutcome(s, p.walletFromName).error))
        else if GetOutcome(s, p.walletToName).Failure? then Outcome(s, ErrorReply(GetOutcome(s, p.walletToName).error))
        else match TransferOutcome(s, p.walletFromName, p.walletToName, p.amount, now)
          case Failure(e) => Outcome(s, ErrorReply(e))
          case Success(t) => Outcome(t, Done)
  }

  /** `DepositHandler.ServeHTTP`. */
  function DepositFlow(s: State, req: Request, now: Timestamp): Outcome {
    if req.verb != MethodPost then Outcome(s, NotAllowed)
    else match ParseDeposit(req.body)
      case Failure(e) => Outcome(s, ErrorReply(e))
      case Success(p) =>
        if ValidateDeposit(p).Some? then Outcome(s, ErrorReply(ValidateDeposit(p).value))
        else if GetOutcome(s, p.walletName).Failure? then Outcome(s, ErrorReply(GetOutcome(s, p.walletName).error))
        else match DepositOutcome(s, p.walletName, p.amount, now)
          case Failure(e) => Outcome(s, ErrorReply(e))
          case Success((t, _)) => Outcome(t, Done)
  }

  /** `WalletsCreateHandler.ServeHTTP`: a wallet that `Get` finds is a conflict before any insert. */
  function CreateFlow(s: State, req: Request): Outcome {
    if req.verb != MethodPost then Outcome(s, NotAllowed)
    else match ParseWalletCreate(req.body)
      case Failure(e) => Outcome(s, ErrorReply(e))
      case Success(name) =>
        if ValidateWalletName(name).Some? then Outcome(s, ErrorReply(ValidateWalletName(name).value))
        else if GetOutcome(s, name).Success? then Outcome(s, ErrorReply(WalletAlreadyExists))
        else match CreateOutcome(s, name)
          case Failure(e) => Outcome(s, ErrorReply(e))
          case Success(t) => Outcome(t, Done)
  }

  /** `WalletsGetHandler.ServeHTTP`: the body `{"name":...,"balance":...}` with the implied 200. */
  function GetFlow(s: State, req: Request): Outcome {
    if req.verb != MethodGet then Outcome(s, NotAllowed)
    else match ParseWalletGet(req.form, req.vars)
      case Failure(e) => Outcome(s, ErrorReply(e))
      case Success(name) =>
        if ValidateWalletName(name).Some? then Outcome(s, ErrorReply(ValidateWalletName(name).value))
        else if GetOutcome(s, name).Failure? then Outcome(s, ErrorReply(GetOutcome(s, name).error))
        else match BalanceOutcome(s, name)
          case Failure(e) => Outcome(s, ErrorReply(e))
          case Success(balance) => Outcome(s, Reply(None, WalletBody(name, balance)))
  }

  /** Every record the history query returns comes from the table, so its time is a valid instant. */
  lemma FetchedValid(s: State, wallet: string, f: Filter)
    requires Inv(s)
    ensures AllValid(Fetched(s.history, wallet, f))
  {
    SelectedExactly(s.history, wallet, f);
    var xs := Selected(s.history, wallet, f);
    var r := Fetched(s.history, wallet, f);
    forall i | 0 <= i < |r|
      ensures ValidTimestamp(r[i].time)
    {
      assert r[i] == xs[i];
      assert r[i] in xs;
    }
  }

  /** The repository filter built from validated history parameters. */
  function FilterOf(p: HistoryParams): Filter {
    Filter(p.direction, p.startDate, p.endDate, p.limit, p.offsetById)
  }

  /** `HistoryHandler.ServeHTTP` with a `CSV` report writer: the report is the body. */
  function HistoryFlow(withHeader: bool, s: State, req: Request): Outcome
    requires Inv(s)
  {
    if req.verb != MethodGet then Outcome(s, NotAllowed)
    else match ParseHistory(req.form, req.vars)
      case Failure(e) => Outcome(s, ErrorReply(e))
      case Success(p) =>
        if ValidateHistory(p).Some? then Outcome(s, ErrorReply(ValidateHistory(p).value))
        else if GetOutcome(s, p.walletName).Failure? then Outcome(s, ErrorReply(GetOutcome(s, p.walletName).error))
        else
          FetchedValid(s, p.walletName, FilterOf(p));
          Outcome(s, Reply(None, Report(withHeader, Fetched(s.history, p.walletName, FilterOf(p)))))
  }

  /** The five endpoints; the history endpoint carries its report writer's `WithHeader`. */
  datatype Endpoint = TransferEndpoint | DepositEndpoint | CreateEndpoint | GetEndpoint | HistoryEndpoint(withHeader: bool)

  /** The method an endpoint serves; any other is answered 405. */
  function Verb(e: Endpoint): string {
    if e.GetEndpoint? || e.HistoryEndpoint? then MethodGet else MethodPost
  }

  function Flow(e: Endpoint, s: State, req: Request, now: Timestamp): Outcome
    requires Inv(s)
  {
    match e
    case TransferEndpoint => TransferFlow(s, req, now)
    case DepositEndpoint => DepositFlow(s, req, now)
    case CreateEndpoint => CreateFlow(s, req)
    case GetEndpoint => GetFlow(s, req)
    case HistoryEndpoint(withHeader) => HistoryFlow(withHeader, s, req)
  }

  // ----- properties of the handlers -----------------------------------------------

  /** The statuses and messages of the three repository sentinels. */
  lemma SentinelReplies()
    ensures ErrorStatus(WalletNotFound) == StatusNotFound && ErrorText(WalletNotFound) == "wallet not found"
    ensures ErrorStatus(InsufficientBalance) == StatusPaymentRequired && ErrorText(InsufficientBalance) == "insufficient balance"
    ensures ErrorStatus(WalletAlreadyExists) == StatusConflict && ErrorText(WalletAlreadyExists) == "wallet already exists"
  {
  }

  /** A params error is answered with its own code and message, however deeply it is wrapped. */
  lemma ParamsErrorReply(e: Error)
    requires Root(e).ParamsError?
    ensures ErrorReply(e) == Reply(Some(Root(e).code), ErrorBody(Root(e).message))
  {
    ErrorStatusByRoot(e);
  }

  /** Every endpoint answers a request with another method 405 and changes nothing. */
  lemma WrongMethod(e: Endpoint, s: State, req: Request, now: Timestamp)
    requires Inv(s) && req.verb != Verb(e)
    ensures Flow(e, s, req, now) == Outcome(s, NotAllowed)
  {
  }

  /** The parameter error of a request, found by parsing then validating, without the database. */
  function RequestError(e: Endpoint, req: Request): Option<Error> {
    match e
    case TransferEndpoint =>
      (match ParseTransfer(req.body) case Failure(x) => Some(x) case Success(p) => ValidateTransfer(p))
    case DepositEndpoint =>
      (match ParseDeposit(req.body) case Failure(x) => Some(x) case Success(p) => ValidateDeposit(p))
    case CreateEndpoint =>
      (match ParseWalletCreate(req.body) case Failure(x) => Some(x) case Success(n) => ValidateWalletName(n))
    case GetEndpoint =>
      (match ParseWalletGet(req.form, req.vars) case Failure(x) => Some(x) case Success(n) => ValidateWalletName(n))
    case HistoryEndpoint(_) =>
      (match ParseHistory(req.form, req.vars) case Failure(x) => Some(x) case Success(p) => ValidateHistory(p))
  }

  /** Every parameter error is a `*params.Error` with code 400. */
  lemma RequestErrorIsBadRequest(e: Endpoint, req: Request)
    requires RequestError(e, req).Some?
    ensures RequestError(e, req).value.ParamsError? && RequestError(e, req).value.code == StatusBadRequest
  {
    match e
    case TransferEndpoint =>
      ParseBodyFailures(req.body);
      if ParseTransfer(req.body).Success? {
        ValidateTransferMeaning(ParseTransfer(req.body).value);
      }
    case DepositEndpoint =>
      ParseBodyFailures(req.body);
    case CreateEndpoint =>
    case GetEndpoint =>
    case HistoryEndpoint(_) =>
      if ParseHistory(req.form, req.vars).Success? {
        ValidateHistoryMeaning(ParseHistory(req.form, req.vars).value);
      }
  }

  /**
   * Parameters are checked before the database is consulted: a request
   * with a parameter error is answered 400 with that error's message,
   * whatever the state, and changes nothing.
   */
  lemma ParametersFirst(e: Endpoint, s: State, req: Request, now: Timestamp)
    requires Inv(s) && req.verb == Verb(e) && RequestError(e, req).Some?
    ensures Flow(e, s, req, now) == Outcome(s, ErrorReply(RequestError(e, req).value))
    ensures ErrorReply(RequestError(e, req).value).header == Some(StatusBadRequest)
  {
    RequestErrorIsBadRequest(e, req);
    ErrorStatusByRoot(RequestError(e, req).value);
  }

  /** Only a successful POST changes the database; every reply carrying a status leaves it as it was. */
  lemma ErrorsChangeNothing(e: Endpoint, s: State, req: Request, now: Timestamp)
    requires Inv(s)
    ensures Flow(e, s, req, now).reply.header.Some? ==> Flow(e, s, req, now).state == s
    ensures Flow(e, s, req, now).state != s ==> Flow(e, s, req, now).reply == Done && Verb(e) == MethodPost
  {
  }

  /** The statuses a handler can write. */
  predicate HandlerStatus(code: int) {
    code == StatusBadRequest || code == StatusPaymentRequired || code == StatusNotFound ||
    code == StatusMethodNotAllowed || code == StatusConflict || code == StatusInternalServerError
  }

  lemma RepositoryErrorStatus(e: Error)
    requires e == WalletNotFound || e == InsufficientBalance || e == WalletAlreadyExists ||
      (e.Wrapped? && !Root(e).ParamsError?)
    ensures HandlerStatus(ErrorStatus(e))
  {
    ErrorStatusByRoot(e);
  }

  lemma TransferStatuses(s: State, req: Request, now: Timestamp)
    requires Inv(s) && req.verb == MethodPost && RequestError(TransferEndpoint, req).None?
    ensures TransferFlow(s, req, now).reply.header.Some? ==> HandlerStatus(TransferFlow(s, req, now).reply.header.value)
  {
    var p := ParseTransfer(req.body).value;
    if p.walletFromName in s.wallets && p.walletToName in s.wallets {
      var r := TransferOutcome(s, p.walletFromName, p.walletToName, p.amount, now);
      if r.Failure? {
        RepositoryErrorStatus(r.error);
      }
    } else {
      RepositoryErrorStatus(WalletNotFound);
    }
  }

  lemma DepositStatuses(s: State, req: Request, now: Timestamp)
    requires Inv(s) && req.verb == MethodPost && RequestError(DepositEndpoint, req).None?
    ensures DepositFlow(s, req, now).reply.header.Some? ==> HandlerStatus(DepositFlow(s, req, now).reply.header.value)
  {
    var p := ParseDeposit(req.body).value;
    if p.walletName in s.wallets {
      var r := DepositOutcome(s, p.walletName, p.amount, now);
      if r.Failure? {
        RepositoryErrorStatus(r.error);
      }
    } else {
      RepositoryErrorStatus(WalletNotFound);
    }
  }

  /** Every status a handler writes is 400, 402, 404, 405, 409 or 500. */
  lemma StatusesWritten(e: Endpoint, s: State, req: Request, now: Timestamp)
    requires Inv(s)
    ensures Flow(e, s, req, now).reply.header.Some? ==> HandlerStatus(Flow(e, s, req, now).reply.header.value)
  {
    if req.verb == Verb(e) && RequestError(e, req).Some? {
      ParametersFirst(e, s, req, now);
    } else if req.verb == Verb(e) {
      match e
      case TransferEndpoint =>
        TransferStatuses(s, req, now);
      case DepositEndpoint =>
        DepositStatuses(s, req, now);
      case CreateEndpoint =>
        RepositoryErrorStatus(WalletAlreadyExists);
        RepositoryErrorStatus(WalletNotFound);
      case GetEndpoint =>
        RepositoryErrorStatus(WalletNotFound);
      case HistoryEndpoint(_) =>
        RepositoryErrorStatus(WalletNotFound);
    }
  }

  /** The handlers keep the database invariant. */
  lemma FlowKeepsInv(e: Endpoint, s: State, req: Request, now: Timestamp)
    requires Inv(s) && ValidTimestamp(now)
    ensures Inv(Flow(e, s, req, now).state)
  {
    match e
    case TransferEndpoint =>
      if req.verb == MethodPost && ParseTransfer(req.body).Success? {
        var p := ParseTransfer(req.body).value;
        if p.walletFromName in s.wallets && p.walletToName in s.wallets {
          TransferPreservesInv(s, p.walletFromName, p.walletToName, p.amount, now);
        }
      }
    case DepositEndpoint =>
      if req.verb == MethodPost && ParseDeposit(req.body).Success? {
        var p := ParseDeposit(req.body).value;
        DepositPreservesInv(s, p.walletName, p.amount, now);
      }
    case CreateEndpoint =>
      if req.verb == MethodPost && ParseWalletCreate(req.body).Success? {
        CreateEffect(s, ParseWalletCreate(req.body).value);
      }
    case GetEndpoint =>
    case HistoryEndpoint(_) =>
  }

  /** A POST with a JSON body. */
  function PostRequest(body: map<string, string>): Request {
    Request(MethodPost, "", Some(body), None, map[])
  }

  function TransferBody(from: string, to: string, amount: int): map<string, string> {
    map["wallet_name_from" := from, "wallet_name_to" := to, "amount" := FormatInt(amount)]
  }

  /**
   * A well-formed transfer between two distinct names: 404 when either
   * wallet is missing, 402 when the source holds less than the amount, and
   * otherwise the amount moves and nothing is written (200); failures
   * change nothing.
   */
  lemma TransferScenarios(s: State, from: string, to: string, amount: int, now: Timestamp)
    requires Inv(s) && ValidTimestamp(now)
    requires from != "" && to != "" && from != to && 0 < amount <= MaxInt64
    ensures from !in s.wallets || to !in s.wallets ==>
      TransferFlow(s, PostRequest(TransferBody(from, to, amount)), now) == Outcome(s, ErrorReply(WalletNotFound))
    ensures from in s.wallets && to in s.wallets && s.wallets[from] < amount ==>
      TransferFlow(s, PostRequest(TransferBody(from, to, amount)), now) == Outcome(s, ErrorReply(InsufficientBalance))
    ensures from in s.wallets && to in s.wallets && s.wallets[from] >= amount && s.wallets[to] + amount <= MaxInt64 ==>
      var o := TransferFlow(s, PostRequest(TransferBody(from, to, amount)), now);
      o.reply == Done && o.state.wallets == s.wallets[from := s.wallets[from] - amount][to := s.wallets[to] + amount]
  {
    ParseTransferRoundTrip(from, to, amount);
    ValidateTransferMeaning(TransferParams(from, to, amount));
    if from in s.wallets && to in s.wallets {
      if s.wallets[from] < amount {
        var debit := AddToBalance(s.wallets, from, -amount);
        assert debit == Failure(PgError(CheckViolation, CheckViolationText));
      } else if s.wallets[to] + amount <= MaxInt64 {
        TransferEffect(s, from, to, amount, now);
      }
    }
  }

  /**
   * Between two distinct existing wallets, the handler's effect on the
   * balances is one transfer attempt: moved when it succeeds (nothing
   * written, so 200), unchanged otherwise.
   */
  lemma TransferFlowIsAttempt(s: State, from: string, to: string, amount: int, now: Timestamp)
    requires Inv(s)
    requires from != "" && to != "" && from != to && 0 < amount <= MaxInt64
    requires from in s.wallets && to in s.wallets
    ensures var o := TransferFlow(s, PostRequest(TransferBody(from, to, amount)), now);
      o.state.wallets == TransferAttempt(s.wallets, from, to, amount).0 &&
      (o.reply == Done <==> TransferAttempt(s.wallets, from, to, amount).1 == 1)
  {
    ParseTransferRoundTrip(from, to, amount);
    ValidateTransferMeaning(TransferParams(from, to, amount));
    var o := TransferFlow(s, PostRequest(TransferBody(from, to, amount)), now);
    if TransferOutcome(s, from, to, amount, now).Failure? {
      assert o.reply == ErrorReply(TransferOutcome(s, from, to, amount, now).error);
    }
  }

  function DepositBody(name: string, amount: int): map<string, string> {
    map["wallet_name" := name, "amount" := FormatInt(amount)]
  }

  /**
   * A well-formed deposit: 404 for a missing wallet; an overflowing balance
   * is a 500 whose message names the failed update; otherwise the balance
   * rises by the amount and nothing is written (200).
   */
  lemma DepositScenarios(s: State, name: string, amount: int, now: Timestamp)
    requires Inv(s) && ValidTimestamp(now)
    requires name != "" && 0 < amount <= MaxInt64
    ensures name !in s.wallets ==>
      DepositFlow(s, PostRequest(DepositBody(name, amount)), now) == Outcome(s, ErrorReply(WalletNotFound))
    ensures name in s.wallets && s.wallets[name] + amount > MaxInt64 ==>
      var o := DepositFlow(s, PostRequest(DepositBody(name, amount)), now);
      o.state == s && o.reply.header == Some(StatusInternalServerError) &&
      o.reply == ErrorReply(Wrapped("cannot fetch updated amount", PgError(NumericOutOfRange, OutOfRangeText)))
    ensures name in s.wallets && s.wallets[name] + amount <= MaxInt64 ==>
      var o := DepositFlow(s, PostRequest(DepositBody(name, amount)), now);
      o.reply == Done && o.state.wallets == s.wallets[name := s.wallets[name] + amount]
  {
    ParseDepositRoundTrip(name, amount);
    ValidateDepositMeaning(DepositParams(name, amount));
    if name in s.wallets {
      if s.wallets[name] + amount > MaxInt64 {
        var err := Wrapped("cannot fetch updated amount", PgError(NumericOutOfRange, OutOfRangeText));
        assert DepositOutcome(s, name, amount, now) == Failure(err);
        ErrorStatusByRoot(err);
      } else {
        DepositEffect(s, name, amount, now);
      }
    }
  }

  /** Creating an existing wallet is a 409 that changes nothing; a new non-empty name gets a zero balance. */
  lemma CreateScenarios(s: State, name: string)
    requires Inv(s) && name != ""
    ensures name in s.wallets ==>
      CreateFlow(s, PostRequest(map["wallet_name" := name])) == Outcome(s, ErrorReply(WalletAlreadyExists))
    ensures name !in s.wallets ==>
      CreateFlow(s, PostRequest(map["wallet_name" := name])) == Outcome(s.(wallets := s.wallets[name := 0]), Done)
  {
  }

  /** A GET for a wallet by its route name. */
  function GetRequest(name: string): Request {
    Request(MethodGet, "", None, Some(map[]), map["wallet_name" := name])
  }

  /** The balance endpoint answers a wallet's name and balance, or 404; it never changes anything. */
  lemma GetScenarios(s: State, name: string)
    requires Inv(s) && name != ""
    ensures name in s.wallets ==>
      GetFlow(s, GetRequest(name)) == Outcome(s, Reply(None, WalletBody(name, s.wallets[name])))
    ensures name !in s.wallets ==> GetFlow(s, GetRequest(name)) == Outcome(s, ErrorReply(WalletNotFound))
  {
  }

  /**
   * A successful history request answers with the report of the fetched
   * records: read back, it is the header row (when the writer has one) and
   * one row per fetched record, in order.
   */
  lemma HistoryReadsBack(withHeader: bool, s: State, req: Request, p: HistoryParams)
    requires Inv(s) && req.verb == MethodGet
    requires ParseHistory(req.form, req.vars) == Success(p) && ValidateHistory(p).None? && p.walletName in s.wallets
    ensures AllValid(Fetched(s.history, p.walletName, FilterOf(p)))
    ensures HistoryFlow(withHeader, s, req).reply.header == None
    ensures ReadAll(HistoryFlow(withHeader, s, req).reply.body) ==
      Some((if withHeader then [Header] else []) + RowsOf(Fetched(s.history, p.walletName, FilterOf(p))))
  {
    FetchedValid(s, p.walletName, FilterOf(p));
    ReportReadsBack(withHeader, Fetched(s.history, p.walletName, FilterOf(p)));
  }

  // ----- the handlers as methods ---------------------------------------------------

  method ServeTransfer(store: WalletStore, w: Writer, req: Request, now: Timestamp)
    modifies store, Objects(w)
    ensures store.Contents() == TransferFlow(old(store.Contents()), req, now).state
    ensures Base(w).View() == Emit(old(Base(w).View()), TransferFlow(old(store.Contents()), req, now).reply)
    ensures w.Tracked? ==> w.sw.status == TrackedAfter(old(w.sw.status), TransferFlow(old(store.Contents()), req, now).reply)
  {
    assert store !in Objects(w);
    if req.verb != MethodPost {
      Send(w, NotAllowed);
      return;
    }
    var p := ParseTransfer(req.body);
    var abort := HandlerError(ErrOf(p), w);
    if abort {
      return;
    }
    abort := HandlerError(ValidateTransfer(p.value), w);
    if abort {
      return;
    }
    var from := store.Get(p.value.walletFromName);
    abort := HandlerError(ErrOf(from), w);
    if abort {
      return;
    }
    var to := store.Get(p.value.walletToName);
    abort := HandlerError(ErrOf(to), w);
    if abort {
      return;
    }
    var err := store.Transfer(from.value, to.value, p.value.amount, now);
    abort := HandlerError(err, w);
  }

  method ServeDeposit(store: WalletStore, w: Writer, req: Request, now: Timestamp)
    modifies store, Objects(w)
    ensures store.Contents() == DepositFlow(old(store.Contents()), req, now).state
    ensures Base(w).View() == Emit(old(Base(w).View()), DepositFlow(old(store.Contents()), req, now).reply)
    ensures w.Tracked? ==> w.sw.status == TrackedAfter(old(w.sw.status), DepositFlow(old(store.Contents()), req, now).reply)
  {
    assert store !in Objects(w);
    if req.verb != MethodPost {
      Send(w, NotAllowed);
      return;
    }
    var p := ParseDeposit(req.body);
    var abort := HandlerError(ErrOf(p), w);
    if abort {
      return;
    }
    abort := HandlerError(ValidateDeposit(p.value), w);
    if abort {
      return;
    }
    var wallet := store.Get(p.value.walletName);
    abort := HandlerError(ErrOf(wallet), w);
    if abort {
      return;
    }
    var _, err := store.Deposit(wallet.value, p.value.amount, now);
    abort := HandlerError(err, w);
  }

  method ServeCreate(store: WalletStore, w: Writer, req: Request)
    modifies store, Objects(w)
    ensures store.Contents() == CreateFlow(old(store.Contents()), req).state
    ensures Base(w).View() == Emit(old(Base(w).View()), CreateFlow(old(store.Contents()), req).reply)
    ensures w.Tracked? ==> w.sw.status == TrackedAfter(old(w.sw.status), CreateFlow(old(store.Contents()), req).reply)
  {
    assert store !in Objects(w);
    if req.verb != MethodPost {
      Send(w, NotAllowed);
      return;
    }
    var p := ParseWalletCreate(req.body);
    var abort := HandlerError(ErrOf(p), w);
    if abort {
      return;
    }
    abort := HandlerError(ValidateWalletName(p.value), w);
    if abort {
      return;
    }
    // the error of this lookup is discarded: only a found wallet matters
    var existing := store.Get(p.value);
    if existing.Success? {
      abort := HandlerError(Some(WalletAlreadyExists), w);
      return;
    }
    var wallet := store.Create(p.value);
    abort := HandlerError(ErrOf(wallet), w);
  }

  method ServeGet(store: WalletStore, w: Writer, req: Request)
    modifies Objects(w)
    ensures GetFlow(store.Contents(), req).state == store.Contents()
    ensures Base(w).View() == Emit(old(Base(w).View()), GetFlow(store.Contents(), req).reply)
    ensures w.Tracked? ==> w.sw.status == TrackedAfter(old(w.sw.status), GetFlow(store.Contents(), req).reply)
  {
    assert store !in Objects(w);
    if req.verb != MethodGet {
      Send(w, NotAllowed);
      return;
    }
    var p := ParseWalletGet(req.form, req.vars);
    var abort := HandlerError(ErrOf(p), w);
    if abort {
      return;
    }
    abort := HandlerError(ValidateWalletName(p.value), w);
    if abort {
      return;
    }
    var wallet := store.Get(p.value);
    abort := HandlerError(ErrOf(wallet), w);
    if abort {
      return;
    }
    var balance, err := store.Balance(wallet.value);
    abort := HandlerError(err, w);
    if abort {
      return;
    }
    Send(w, Reply(None, WalletBody(wallet.value, balance)));
  }

  method ServeHistory(withHeader: bool, store: WalletStore, w: Writer, req: Request)
    requires store.Valid()
    modifies Objects(w)
    ensures HistoryFlow(withHeader, store.Contents(), req).state == store.Contents()
    ensures Base(w).View() == Emit(old(Base(w).View()), HistoryFlow(withHeader, store.Contents(), req).reply)
    ensures w.Tracked? ==>
      w.sw.status == TrackedAfter(old(w.sw.status), HistoryFlow(withHeader, store.Contents(), req).reply)
  {
    assert store !in Objects(w);
    if req.verb != MethodGet {
      Send(w, NotAllowed);
      return;
    }
    var p := ParseHistory(req.form, req.vars);
    var abort := HandlerError(ErrOf(p), w);
    if abort {
      return;
    }
    abort := HandlerError(ValidateHistory(p.value), w);
    if abort {
      return;
    }
    var wallet := store.Get(p.value.walletName);
    abort := HandlerError(ErrOf(wallet), w);
    if abort {
      return;
    }
    var filter := Filter(p.value.direction, p.value.startDate, p.value.endDate, p.value.limit, p.value.offsetById);
    var history := store.FetchHistoryForWallet(wallet.value, filter);
    FetchedValid(store.Contents(), wallet.value, filter);
    var report := WriteInto(withHeader, history);
    Send(w, Reply(None, report));
  }

  /** The mux: the endpoint's handler. */
  method Serve(e: Endpoint, store: WalletStore, w: Writer, req: Request, now: Timestamp)
    requires store.Valid()
    modifies store, Objects(w)
    ensures store.Contents() == Flow(e, old(store.Contents()), req, now).state
    ensures Base(w).View() == Emit(old(Base(w).View()), Flow(e, old(store.Contents()), req, now).reply)
    ensures w.Tracked? ==> w.sw.status == TrackedAfter(old(w.sw.status), Flow(e, old(store.Contents()), req, now).reply)
  {
    match e
    case TransferEndpoint => ServeTransfer(store, w, req, now);
    case DepositEndpoint => ServeDeposit(store, w, req, now);
    case CreateEndpoint => ServeCreate(store, w, req);
    case GetEndpoint => ServeGet(store, w, req);
    case HistoryEndpoint(withHeader) => ServeHistory(withHeader, store, w, req);
  }
}
