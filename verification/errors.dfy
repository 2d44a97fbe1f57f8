/**
 * The error values the service passes around: `*params.Error` (a status code
 * and a message), the repository's sentinel errors, PostgreSQL errors,
 * `pgx.ErrNoRows`, errors wrapped by `fmt.Errorf("...: %w", err)`, and
 * `errors.Is` / `errors.As` walking the wrap chain.
 */
module Errors {
  import opened Wrappers
  import opened Decimal

  datatype Error =
    | ParamsError(code: int, message: string)   // *params.Error
    | UnknownRepositoryType                     // repository.ErrUnknownRepositoryType
    | WalletNotFound                            // repository.ErrWalletNotFound
    | WalletAlreadyExists                       // repository.ErrWalletAlreadyExists
    | InsufficientBalance                       // repository.ErrInsufficientBalance
    | PgError(sqlState: string, text: string)   // *pgconn.PgError with severity ERROR
    | NoRows                                    // pgx.ErrNoRows
    | Wrapped(context: string, cause: Error)    // fmt.Errorf(context + ": %w", cause)
    | Plain(text: string)                       // any other error, by its text

  /** SQLSTATE codes raised by the schema: UNIQUE, CHECK (amount >= 0) and bigint overflow. */
  const UniqueViolation: string := "23505"
  const CheckViolation: string := "23514"
  const NumericOutOfRange: string := "22003"

  predicate IsSentinel(e: Error) {
    e.UnknownRepositoryType? || e.WalletNotFound? || e.WalletAlreadyExists? || e.InsufficientBalance?
  }

  /** The text `params.Error.Error()` formats: "code: `%v`, message: `%s`". */
  function ParamsErrorText(code: int, message: string): (s: string)
    ensures |s| == |FormatInt(code)| + |message| + 21
  {
    "code: `" + FormatInt(code) + "`, message: `" + message + "`"
  }

  /** `err.Error()`. */
  function Message(e: Error): (s: string)
  {
    match e
    case ParamsError(code, message) => ParamsErrorText(code, message)
    case UnknownRepositoryType => "unknown repository type"
    case WalletNotFound => "wallet not found"
    case WalletAlreadyExists => "wallet already exists"
    case InsufficientBalance => "insufficient balance"
    case PgError(state, text) => "ERROR: " + text + " (SQLSTATE " + state + ")"
    case NoRows => "no rows in result set"
    case Wrapped(context, cause) => context + ": " + Message(cause)
    case Plain(text) => text
  }

  /** The innermost error of a wrap chain. */
  function Root(e: Error): (r: Error)
    ensures !r.Wrapped?
  {
    if e.Wrapped? then Root(e.cause) else e
  }

  /** `errors.Is(e, target)` for a sentinel target: some error of the chain is the target. */
  predicate Is(e: Error, target: Error)
    requires IsSentinel(target)
  {
    e == target || (e.Wrapped? && Is(e.cause, target))
  }

  /** `errors.As(e, &p)` with `p *params.Error`: the first params error of the chain. */
  function AsParams(e: Error): (r: Option<Error>)
    ensures r.Some? ==> r.value.ParamsError?
  {
    match e
    case ParamsError(_, _) => Some(e)
    case Wrapped(_, cause) => AsParams(cause)
    case _ => None
  }

  /** Wrapping never changes which sentinel an error is. */
  lemma {:induction false} IsMeansRoot(e: Error, target: Error)
    requires IsSentinel(target)
    ensures Is(e, target) <==> Root(e) == target
  {
    if e.Wrapped? {
      IsMeansRoot(e.cause, target);
    }
  }

  lemma {:induction false} AsParamsMeansRoot(e: Error)
    ensures AsParams(e) == (if Root(e).ParamsError? then Some(Root(e)) else None)
  {
    if e.Wrapped? {
      AsParamsMeansRoot(e.cause);
    }
  }

  /** The message of a wrapped error still ends with the message of its root. */
  lemma {:induction false} MessageEndsWithRoot(e: Error)
    ensures |Message(Root(e))| <= |Message(e)|
    ensures Message(e)[|Message(e)| - |Message(Root(e))|..] == Message(Root(e))
  {
    if e.Wrapped? {
      MessageEndsWithRoot(e.cause);
      var m := Message(e.cause);
      assert Message(e) == e.context + ": " + m;
      assert Message(e)[|Message(e)| - |m|..] == m;
    }
  }

  /** Two params errors print the same text only when code and message both agree. */
  lemma ParamsErrorTextInjective(c1: int, m1: string, c2: int, m2: string)
    requires ParamsErrorText(c1, m1) == ParamsErrorText(c2, m2)
    ensures c1 == c2 && m1 == m2
  {
    var s := ParamsErrorText(c1, m1);
    var f1, f2 := FormatInt(c1), FormatInt(c2);
    FormatIntHasNoBackquote(c1);
    FormatIntHasNoBackquote(c2);
    assert s[7..7 + |f1|] == f1 && s[7 + |f1|] == '`';
    assert ParamsErrorText(c2, m2)[7..7 + |f2|] == f2 && ParamsErrorText(c2, m2)[7 + |f2|] == '`';
    assert f1 == f2;
    FormatIntInjective(c1, c2);
    assert m1 == s[7 + |f1| + 13..|s| - 1] == m2;
  }
}
