/**
 * The repository package's entry points: the registry of backend factories
 * by repository type, the validity check on a type, and the constructors
 * that look up the factory for the configured type and either refuse an
 * unknown type or hand back what the factory builds, seen through one of the
 * capability interfaces.
 */
module Repository {
  import opened Wrappers
  import opened Errors
  import opened RepositoryConfiguration

  const PostgreSQL: string := "psql"
  const MySQL: string := "mysql"

  /** The backend a registered factory builds. */
  datatype Backend = PostgreSQLBackend | MySQLBackend

  /** `repositoryFactories`. */
  const Factories: map<string, Backend> := map[PostgreSQL := PostgreSQLBackend, MySQL := MySQLBackend]

  /** `commonRepositoryFactory`: the registered factory, None for Go's nil. */
  function CommonRepositoryFactory(t: string): Option<Backend> {
    if t in Factories then Some(Factories[t]) else None
  }

  /** `ValidRepositoryType`: a factory is registered for the type. */
  predicate ValidRepositoryType(t: string) {
    CommonRepositoryFactory(t) != None
  }

  /** Exactly "psql" and "mysql" are valid, each with its own backend. */
  lemma ValidTypes(t: string)
    ensures ValidRepositoryType(t) <==> t == "psql" || t == "mysql"
    ensures CommonRepositoryFactory(t) ==
      if t == "psql" then Some(PostgreSQLBackend) else if t == "mysql" then Some(MySQLBackend) else None
  {
  }

  /** The four sentinel errors are distinct and print their own messages. */
  lemma Sentinels()
    ensures Message(UnknownRepositoryType) == "unknown repository type"
    ensures Message(WalletNotFound) == "wallet not found"
    ensures Message(WalletAlreadyExists) == "wallet already exists"
    ensures Message(InsufficientBalance) == "insufficient balance"
    ensures forall a, b :: IsSentinel(a) && IsSentinel(b) && a != b ==> Message(a) != Message(b)
  {
  }

  // ----- capabilities ---------------------------------------------------------------

  /** The methods of `commonRepository`. */
  datatype Operation = Create | Get | Deposit | Balance | Transfer | FetchHistoryForWallet

  /** The capability interfaces the constructors return. */
  datatype Capability = WalletsGetter | WalletsCreator | DepositCapability | TransferCapability | HistoryCapability

  /** The methods each interface declares, `Get` through the embedded `WalletsBasicGetterRepository`. */
  function Operations(c: Capability): set<Operation> {
    match c
    case WalletsGetter => {Get, Balance}
    case WalletsCreator => {Get, Create}
    case DepositCapability => {Get, Deposit}
    case TransferCapability => {Get, Transfer}
    case HistoryCapability => {Get, FetchHistoryForWallet}
  }

  /**
   * Every capability can check that a wallet exists, and what a factory
   * builds (a `commonRepository`) has every capability.
   */
  lemma EveryCapabilityGets(c: Capability)
    ensures Get in Operations(c)
    ensures Operations(c) <= {Create, Get, Deposit, Balance, Transfer, FetchHistoryForWallet}
    ensures |Operations(c)| == 2
  {
  }

  /** A repository a constructor hands back: the backend behind it and the interface it is seen through. */
  datatype Handle = Handle(backend: Backend, capability: Capability)

  /**
   * `NewWalletsGetterRepository`, `NewWalletsCreatorRepository`,
   * `NewDepositRepository`, `NewTransferRepository` and
   * `NewHistoryRepository`, which differ only in the interface returned.
   * `built` is the factory's own outcome (a connection error, or None when
   * it connects).
   */
  function NewRepository(c: Capability, config: Settings, built: Option<Error>): (r: Result<Handle, Error>)
    ensures r.Success? ==> r.value.capability == c
  {
    match CommonRepositoryFactory(config.repositoryType)
    case None => Failure(UnknownRepositoryType)
    case Some(backend) =>
      if built.Some? then Failure(built.value) else Success(Handle(backend, c))
  }

  /**
   * An unknown type is refused with `ErrUnknownRepositoryType` before any
   * factory runs; a valid type yields the factory's outcome, the backend
   * registered for the type.
   */
  lemma NewRepositoryOutcome(c: Capability, config: Settings, built: Option<Error>)
    ensures !ValidRepositoryType(config.repositoryType) ==>
      NewRepository(c, config, built) == Failure(UnknownRepositoryType)
    ensures ValidRepositoryType(config.repositoryType) && built == None ==>
      NewRepository(c, config, built).Success? &&
      NewRepository(c, config, built).value.backend == Factories[config.repositoryType]
    ensures ValidRepositoryType(config.repositoryType) && built.Some? ==>
      NewRepository(c, config, built) == Failure(built.value)
  {
  }
}
