/**
 * The wallet ledger kept by the PostgreSQL repository, as abstract database
 * state: the `wallets` table (name -> int8 balance, `CHECK (amount >= 0)`,
 * `name` primary key), the append-only `transfer_history` table and the
 * `transfer_history_id_seq` sequence. Each repository operation is specified
 * here by its committed effect: a `Failure` means the transaction was rolled
 * back and nothing changed.
 */
module Ledger {
  import opened Wrappers
  import opened Decimal
  import opened Calendar
  import opened Errors

  /** The `transfer_direction` enum and the repository's direction constants. */
  datatype Direction = Deposit | Withdrawal | Transfer

  function DirectionName(d: Direction): string {
    match d
    case Deposit => "deposit"
    case Withdrawal => "withdrawal"
    case Transfer => "transfer"
  }

  lemma DirectionNameInjective(a: Direction, b: Direction)
    requires DirectionName(a) == DirectionName(b)
    ensures a == b
  {
  }

  /** A `repository.Transfer`: one row of `transfer_history` as the service reads it back. */
  datatype Record = Record(id: int, direction: Direction, amount: int, meta: seq<(string, string)>, time: Timestamp)

  /** A row of `transfer_history`: the owning wallet and the record. */
  datatype Row = Row(wallet: string, record: Record)

  /** A `repository.Filter`; zero values switch a condition off. */
  datatype Filter = Filter(direction: string, startDate: Date, endDate: Date, limit: int, offsetById: int)

  /** The committed database contents. */
  datatype State = State(wallets: map<string, int>, history: seq<Row>, nextId: int)

  /** The empty database: no wallets, no history, the id sequence at 1. */
  const Empty: State := State(map[], [], 1)

  /** Record ids strictly increase along the table and stay below the next sequence value. */
  predicate IdsAscending(h: seq<Row>, nextId: int) {
    (forall i, j :: 0 <= i < j < |h| ==> h[i].record.id < h[j].record.id) &&
    (forall i :: 0 <= i < |h| ==> 1 <= h[i].record.id < nextId)
  }

  /** `CHECK (amount >= 0)` on an int8 column. */
  predicate BalancesOk(wallets: map<string, int>) {
    forall w :: w in wallets ==> 0 <= wallets[w] <= MaxInt64
  }

  /** What the schema and the service keep true of the committed state. */
  predicate Inv(s: State) {
    BalancesOk(s.wallets) &&
    s.nextId >= 1 &&
    IdsAscending(s.history, s.nextId) &&
    (forall i :: 0 <= i < |s.history| ==> ValidTimestamp(s.history[i].record.time))
  }

  lemma EmptyInv()
    ensures Inv(Empty)
  {
  }

  // ----- single-row statements -------------------------------------------------

  /** `INSERT INTO wallets (name, amount) VALUES ($1, 0)`; 23505 becomes `ErrWalletAlreadyExists`. */
  function CreateOutcome(s: State, name: string): Result<State, Error> {
    if name in s.wallets then Failure(WalletAlreadyExists)
    else Success(s.(wallets := s.wallets[name := 0]))
  }

  /** `SELECT EXISTS(...)`: the wallet (its name) or `ErrWalletNotFound`. */
  function GetOutcome(s: State, name: string): Result<string, Error> {
    if name in s.wallets then Success(name) else Failure(WalletNotFound)
  }

  /** `SELECT amount FROM wallets WHERE name = $1`; no row becomes `ErrWalletNotFound`. */
  function BalanceOutcome(s: State, name: string): Result<int, Error> {
    if name in s.wallets then Success(s.wallets[name]) else Failure(WalletNotFound)
  }

  /** The server's messages for the two constraint failures of a balance update. */
  const CheckViolationText: string := "new row for relation \"wallets\" violates check constraint \"wallets_amount_check\""
  const OutOfRangeText: string := "bigint out of range"

  /** `UPDATE wallets SET amount = amount + $1 ... RETURNING amount`: the new amount or the SQL error. */
  function AddToBalance(wallets: map<string, int>, name: string, delta: int): Result<int, Error> {
    if name !in wallets then Failure(NoRows)
    else if !IsInt64(wallets[name] + delta) then Failure(PgError(NumericOutOfRange, OutOfRangeText))
    else if wallets[name] + delta < 0 then
      Failure(PgError(CheckViolation, CheckViolationText))
    else Success(wallets[name] + delta)
  }

  /** The row `writeHistory` inserts, with the next sequence value and the transaction's `now()`. */
  function HistoryRow(s: State, wallet: string, direction: Direction, amount: int,
                      meta: seq<(string, string)>, now: Timestamp): Row {
    Row(wallet, Record(s.nextId, direction, amount, meta, now))
  }

  function Append(s: State, row: Row): State {
    s.(history := s.history + [row], nextId := s.nextId + 1)
  }

  lemma AppendKeepsInv(s: State, row: Row)
    requires Inv(s) && row.record.id == s.nextId && ValidTimestamp(row.record.time)
    ensures Inv(Append(s, row))
  {
    var h := s.history + [row];
    assert forall i :: 0 <= i < |s.history| ==> h[i] == s.history[i];
  }

  /** `Deposit`: credit the wallet, log (wallet, deposit, +amount, source=unknown), commit. */
  function DepositOutcome(s: State, wallet: string, amount: int, now: Timestamp): Result<(State, int), Error> {
    match AddToBalance(s.wallets, wallet, amount)
    case Failure(e) => Failure(Wrapped("cannot fetch updated amount", e))
    case Success(balance) =>
      var credited := s.(wallets := s.wallets[wallet := balance]);
      Success((Append(credited, HistoryRow(credited, wallet, Deposit, amount, [("source", "unknown")], now)), balance))
  }

  /**
   * The two UPDATE statements of `Transfer`: debit the source (a CHECK
   * violation is `ErrInsufficientBalance`), then credit the destination.
   */
  function TransferBalances(m: map<string, int>, from: string, to: string, amount: int): Result<map<string, int>, Error>
    requires from in m && to in m
  {
    match AddToBalance(m, from, -amount)
    case Failure(e) =>
      if e.PgError? && e.sqlState == CheckViolation then Failure(InsufficientBalance)
      else Failure(Wrapped("cannot withdraw", e))
    case Success(debited) =>
      var m1 := m[from := debited];
      match AddToBalance(m1, to, amount)
      case Failure(e) => Failure(Wrapped("cannot deposit", e))
      case Success(credited) => Success(m1[to := credited])
  }

  /** `Transfer`: the balance updates, then the source's history row, then the destination's, then commit. */
  function TransferOutcome(s: State, from: string, to: string, amount: int, now: Timestamp): Result<State, Error>
    requires from in s.wallets && to in s.wallets
  {
    match TransferBalances(s.wallets, from, to, amount)
    case Failure(e) => Failure(e)
    case Success(m) =>
      var s1 := s.(wallets := m);
      var s2 := Append(s1, HistoryRow(s1, from, Transfer, -amount, [("destination", to)], now));
      Success(Append(s2, HistoryRow(s2, to, Transfer, amount, [("source", from)], now)))
  }

  /** Between distinct wallets with headroom at the destination, the UPDATEs succeed iff the source covers the amount. */
  lemma TransferBalancesEffect(m: map<string, int>, from: string, to: string, amount: int)
    requires BalancesOk(m) && from in m && to in m && from != to
    requires 0 < amount && m[to] + amount <= MaxInt64
    ensures m[from] >= amount ==>
      TransferBalances(m, from, to, amount) == Success(m[from := m[from] - amount][to := m[to] + amount]) &&
      BalancesOk(m[from := m[from] - amount][to := m[to] + amount])
    ensures m[from] < amount ==> TransferBalances(m, from, to, amount) == Failure(InsufficientBalance)
  {
    if m[from] >= amount {
      assert AddToBalance(m, from, -amount) == Success(m[from] - amount);
      var m1 := m[from := m[from] - amount];
      assert AddToBalance(m1, to, amount) == Success(m[to] + amount);
    } else {
      assert AddToBalance(m, from, -amount).Failure?;
    }
  }

  // ----- properties of the single operations -----------------------------------

  /** `Create` adds a zero-balance wallet and no history, or fails on an existing name and changes nothing. */
  lemma CreateEffect(s: State, name: string)
    requires Inv(s)
    ensures name in s.wallets <==> CreateOutcome(s, name) == Failure(WalletAlreadyExists)
    ensures name !in s.wallets ==>
      var s' := CreateOutcome(s, name).value;
      Inv(s') && BalanceOutcome(s', name) == Success(0) && s'.history == s.history &&
      s'.nextId == s.nextId &&
      forall w :: w != name ==> BalanceOutcome(s', w) == BalanceOutcome(s, w)
  {
  }

  /** `Get` and `Balance` agree on which wallets exist. */
  lemma GetBalanceAgree(s: State, name: string)
    ensures GetOutcome(s, name).Success? <==> BalanceOutcome(s, name).Success?
    ensures GetOutcome(s, name).Failure? ==> GetOutcome(s, name).error == WalletNotFound == BalanceOutcome(s, name).error
  {
  }

  /**
   * A deposit into an existing wallet that does not overflow raises the
   * balance by exactly the amount, returns the new balance and appends one
   * deposit record; other wallets are untouched.
   */
  lemma DepositEffect(s: State, wallet: string, amount: int, now: Timestamp)
    requires Inv(s) && ValidTimestamp(now)
    requires wallet in s.wallets && 0 < amount && s.wallets[wallet] + amount <= MaxInt64
    ensures DepositOutcome(s, wallet, amount, now).Success?
    ensures var (s', balance) := DepositOutcome(s, wallet, amount, now).value;
      Inv(s') &&
      balance == s.wallets[wallet] + amount &&
      BalanceOutcome(s', wallet) == Success(balance) &&
      (forall w :: w != wallet ==> BalanceOutcome(s', w) == BalanceOutcome(s, w)) &&
      s'.history == s.history + [Row(wallet, Record(s.nextId, Deposit, amount, [("source", "unknown")], now))]
  {
    DepositPreservesInv(s, wallet, amount, now);
  }

  /** A deposit into a missing wallet is a generic error, not `ErrWalletNotFound`. */
  lemma DepositMissingWallet(s: State, wallet: string, amount: int, now: Timestamp)
    requires wallet !in s.wallets
    ensures DepositOutcome(s, wallet, amount, now) == Failure(Wrapped("cannot fetch updated amount", NoRows))
    ensures !Is(DepositOutcome(s, wallet, amount, now).error, WalletNotFound)
  {
  }

  /** A committed deposit keeps the invariant, whatever the amount. */
  lemma DepositPreservesInv(s: State, wallet: string, amount: int, now: Timestamp)
    requires Inv(s) && ValidTimestamp(now)
    ensures DepositOutcome(s, wallet, amount, now).Success? ==> Inv(DepositOutcome(s, wallet, amount, now).value.0)
  {
    if AddToBalance(s.wallets, wallet, amount).Success? {
      var credited := s.(wallets := s.wallets[wallet := s.wallets[wallet] + amount]);
      AppendKeepsInv(credited, HistoryRow(credited, wallet, Deposit, amount, [("source", "unknown")], now));
    }
  }

  /**
   * Between two distinct existing wallets, a positive transfer succeeds
   * exactly when the source holds at least the amount (and the destination
   * does not overflow). Success moves the amount from source to destination,
   * keeps their sum and every other balance, and logs the source's record
   * then the destination's; otherwise the error is `ErrInsufficientBalance`.
   */
  lemma TransferEffect(s: State, from: string, to: string, amount: int, now: Timestamp)
    requires Inv(s) && ValidTimestamp(now)
    requires from in s.wallets && to in s.wallets && from != to
    requires 0 < amount && s.wallets[to] + amount <= MaxInt64
    ensures TransferOutcome(s, from, to, amount, now).Success? <==> s.wallets[from] >= amount
    ensures s.wallets[from] < amount ==> TransferOutcome(s, from, to, amount, now) == Failure(InsufficientBalance)
    ensures s.wallets[from] >= amount ==>
      var s' := TransferOutcome(s, from, to, amount, now).value;
      Inv(s') &&
      s'.wallets == s.wallets[from := s.wallets[from] - amount][to := s.wallets[to] + amount] &&
      s'.wallets[from] + s'.wallets[to] == s.wallets[from] + s.wallets[to] &&
      s'.history == s.history + [Row(from, Record(s.nextId, Transfer, -amount, [("destination", to)], now)),
                                 Row(to, Record(s.nextId + 1, Transfer, amount, [("source", from)], now))] &&
      s'.nextId == s.nextId + 2
  {
    TransferBalancesEffect(s.wallets, from, to, amount);
    TransferPreservesInv(s, from, to, amount, now);
  }

  /** A committed transfer keeps the invariant: in particular no balance ever goes negative. */
  lemma TransferPreservesInv(s: State, from: string, to: string, amount: int, now: Timestamp)
    requires Inv(s) && ValidTimestamp(now) && from in s.wallets && to in s.wallets
    ensures TransferOutcome(s, from, to, amount, now).Success? ==> Inv(TransferOutcome(s, from, to, amount, now).value)
  {
    var m := s.wallets;
    if TransferBalances(m, from, to, amount).Success? {
      assert AddToBalance(m, from, -amount).Success?;
      var w1 := m[from := m[from] - amount];
      assert AddToBalance(w1, to, amount).Success?;
      var s1 := s.(wallets := w1[to := w1[to] + amount]);
      assert BalancesOk(s1.wallets);
      var s2 := Append(s1, HistoryRow(s1, from, Transfer, -amount, [("destination", to)], now));
      AppendKeepsInv(s1, HistoryRow(s1, from, Transfer, -amount, [("destination", to)], now));
      AppendKeepsInv(s2, HistoryRow(s2, to, Transfer, amount, [("source", from)], now));
    }
  }

  // ----- repeated transfers from one source --------------------------------------

  /** Balance total over a list of wallet names. */
  function SumOf(m: map<string, int>, names: seq<string>): int
    requires forall i :: 0 <= i < |names| ==> names[i] in m
  {
    if names == [] then 0 else m[names[0]] + SumOf(m, names[1..])
  }

  predicate Distinct(names: seq<string>) {
    forall i, j :: 0 <= i < j < |names| ==> names[i] != names[j]
  }

  lemma {:induction false} SumOfUpdate(m: map<string, int>, names: seq<string>, k: string, v: int)
    requires forall i :: 0 <= i < |names| ==> names[i] in m
    requires k in m && Distinct(names)
    ensures SumOf(m[k := v], names) == SumOf(m, names) + (if k in names then v - m[k] else 0)
  {
    if names != [] {
      SumOfUpdate(m, names[1..], k, v);
      assert k in names[1..] <==> k in names && k != names[0];
    }
  }

  /** One transfer attempt on the balances: the new balances and 1, or the old balances and 0 on failure. */
  function TransferAttempt(m: map<string, int>, from: string, to: string, amount: int): (r: (map<string, int>, nat))
    requires from in m && to in m
    ensures r.0.Keys == m.Keys && r.1 <= 1
  {
    match TransferBalances(m, from, to, amount)
    case Failure(_) => (m, 0)
    case Success(m1) => (m1, 1)
  }

  /** The balances after transfers of `amount` from `from` to each destination in turn, and how many succeeded. */
  function TransferEach(m: map<string, int>, from: string, dests: seq<string>, amount: int): (r: (map<string, int>, nat))
    requires from in m && forall i :: 0 <= i < |dests| ==> dests[i] in m
    ensures r.0.Keys == m.Keys && r.1 <= |dests|
    decreases |dests|
  {
    if dests == [] then (m, 0)
    else
      var step := TransferAttempt(m, from, dests[0], amount);
      var r := TransferEach(step.0, from, dests[1..], amount);
      (r.0, r.1 + step.1)
  }

  /** The first attempt, then the rest: how `TransferEach` unfolds once. */
  lemma TransferEachCons(m: map<string, int>, from: string, dests: seq<string>, amount: int)
    requires from in m && dests != [] && forall i :: 0 <= i < |dests| ==> dests[i] in m
    ensures var step := TransferAttempt(m, from, dests[0], amount);
      var rest := TransferEach(step.0, from, dests[1..], amount);
      TransferEach(m, from, dests, amount) == (rest.0, rest.1 + step.1)
  {
    var step := TransferAttempt(m, from, dests[0], amount);
    var tail := dests[1..];
    assert forall i :: 0 <= i < |tail| ==> tail[i] == dests[i + 1] && tail[i] in step.0;
  }

  /**
   * What the burst lemmas assume: a positive amount, a source within int64,
   * distinct destinations other than the source, each with a balance that
   * stays within int64 after one credit.
   */
  predicate Headroom(m: map<string, int>, from: string, dests: seq<string>, amount: int) {
    from in m && 0 < amount && 0 <= m[from] <= MaxInt64 && Distinct(dests) &&
    forall i :: 0 <= i < |dests| ==>
      dests[i] in m && dests[i] != from && 0 <= m[dests[i]] && m[dests[i]] + amount <= MaxInt64
  }

  /** The balances after one successful transfer of `amount` from `from` to `to`. */
  function Moved(m: map<string, int>, from: string, to: string, amount: int): map<string, int>
    requires from in m && to in m
  {
    m[from := m[from] - amount][to := m[to] + amount]
  }

  /** One attempt between distinct wallets with headroom at the destination: it succeeds iff the source covers `amount`. */
  lemma AttemptEffect(m: map<string, int>, from: string, to: string, amount: int)
    requires from in m && to in m && from != to && 0 < amount
    requires 0 <= m[from] <= MaxInt64 && 0 <= m[to] && m[to] + amount <= MaxInt64
    ensures TransferAttempt(m, from, to, amount) ==
      if m[from] >= amount then (Moved(m, from, to, amount), 1) else (m, 0)
  {
    if m[from] >= amount {
      assert AddToBalance(m, from, -amount) == Success(m[from] - amount);
      var m1 := m[from := m[from] - amount];
      assert AddToBalance(m1, to, amount) == Success(m[to] + amount);
    } else {
      assert AddToBalance(m, from, -amount).Failure?;
    }
  }

  /** A failed attempt leaves the remaining destinations with their headroom. */
  lemma HeadroomTail(m: map<string, int>, from: string, dests: seq<string>, amount: int)
    requires dests != [] && Headroom(m, from, dests, amount)
    ensures Headroom(m, from, dests[1..], amount)
  {
    var rest := dests[1..];
    assert forall i :: 0 <= i < |rest| ==> rest[i] == dests[i + 1];
  }

  /** So does a successful one, which leaves the source at least 0. */
  lemma HeadroomAfterMove(m: map<string, int>, from: string, dests: seq<string>, amount: int)
    requires dests != [] && Headroom(m, from, dests, amount) && m[from] >= amount
    ensures Headroom(Moved(m, from, dests[0], amount), from, dests[1..], amount)
  {
    var rest := dests[1..];
    assert forall i :: 0 <= i < |rest| ==> rest[i] == dests[i + 1] && rest[i] != dests[0];
  }

  /** n * a, unfolded one addition at a time. */
  function Times(n: nat, a: int): int {
    if n == 0 then 0 else Times(n - 1, a) + a
  }

  lemma {:induction false} TimesIsProduct(n: nat, a: int)
    ensures Times(n, a) == n * a
  {
    if n > 0 {
      TimesIsProduct(n - 1, a);
    }
  }

  /**
   * Repeated transfers of `amount` from a source to distinct other wallets
   * never overdraw it: the successes times `amount` is at most its balance.
   * With `TransferEachStopsShort` this makes the number of successes
   * min(n, balance / amount).
   */
  lemma {:induction false} TransferEachSucceedsFloor(m: map<string, int>, from: string, dests: seq<string>, amount: int)
    requires Headroom(m, from, dests, amount)
    ensures Times(TransferEach(m, from, dests, amount).1, amount) <= m[from]
    decreases |dests|
  {
    if dests != [] {
      var rest := dests[1..];
      AttemptEffect(m, from, dests[0], amount);
      if m[from] >= amount {
        HeadroomAfterMove(m, from, dests, amount);
        var m1 := Moved(m, from, dests[0], amount);
        TransferEachSucceedsFloor(m1, from, rest, amount);
        var r := TransferEach(m1, from, rest, amount);
        assert Times(r.1 + 1, amount) == Times(r.1, amount) + amount;
      } else {
        HeadroomTail(m, from, dests, amount);
        TransferEachSucceedsFloor(m, from, rest, amount);
      }
    }
  }

  /** The source keeps its balance less the successful transfers. */
  lemma {:induction false} TransferEachDebitsSource(m: map<string, int>, from: string, dests: seq<string>, amount: int)
    requires Headroom(m, from, dests, amount)
    ensures var r := TransferEach(m, from, dests, amount);
      r.0[from] == m[from] - Times(r.1, amount)
    decreases |dests|
  {
    if dests != [] {
      var rest := dests[1..];
      AttemptEffect(m, from, dests[0], amount);
      if m[from] >= amount {
        HeadroomAfterMove(m, from, dests, amount);
        var m1 := Moved(m, from, dests[0], amount);
        TransferEachDebitsSource(m1, from, rest, amount);
        var r := TransferEach(m1, from, rest, amount);
        assert Times(r.1 + 1, amount) == Times(r.1, amount) + amount;
      } else {
        HeadroomTail(m, from, dests, amount);
        TransferEachDebitsSource(m, from, rest, amount);
      }
    }
  }

  /** The successes stop short of every destination only once the source holds less than `amount`. */
  lemma {:induction false} TransferEachStopsShort(m: map<string, int>, from: string, dests: seq<string>, amount: int)
    requires Headroom(m, from, dests, amount)
    ensures var r := TransferEach(m, from, dests, amount);
      r.1 == |dests| || m[from] - Times(r.1, amount) < amount
    decreases |dests|
  {
    if dests != [] {
      var rest := dests[1..];
      AttemptEffect(m, from, dests[0], amount);
      if m[from] >= amount {
        HeadroomAfterMove(m, from, dests, amount);
        var m1 := Moved(m, from, dests[0], amount);
        TransferEachStopsShort(m1, from, rest, amount);
        var r := TransferEach(m1, from, rest, amount);
        assert Times(r.1 + 1, amount) == Times(r.1, amount) + amount;
      } else {
        HeadroomTail(m, from, dests, amount);
        TransferEachStopsShort(m, from, rest, amount);
        var r := TransferEach(m, from, rest, amount);
        if r.1 > 0 {
          TimesNonNegative(r.1 - 1, amount);
        }
      }
    }
  }

  lemma {:induction false} TimesNonNegative(n: nat, a: int)
    requires a >= 0
    ensures Times(n, a) >= 0
  {
    if n > 0 {
      TimesNonNegative(n - 1, a);
    }
  }

  /** A wallet that is neither the source nor a destination keeps its balance. */
  lemma {:induction false} TransferEachUntouched(m: map<string, int>, from: string, dests: seq<string>, amount: int, w: string)
    requires Headroom(m, from, dests, amount)
    requires w in m && w != from && w !in dests
    ensures TransferEach(m, from, dests, amount).0[w] == m[w]
    decreases |dests|
  {
    if dests != [] {
      AttemptEffect(m, from, dests[0], amount);
      if m[from] >= amount {
        HeadroomAfterMove(m, from, dests, amount);
        TransferEachUntouched(Moved(m, from, dests[0], amount), from, dests[1..], amount, w);
      } else {
        HeadroomTail(m, from, dests, amount);
        TransferEachUntouched(m, from, dests[1..], amount, w);
      }
    }
  }

  /** The first transfer keeps the total over the source and all destinations. */
  lemma FirstTransferConserves(m: map<string, int>, from: string, dests: seq<string>, amount: int)
    requires Headroom(m, from, dests, amount) && dests != []
    ensures SumOf(Moved(m, from, dests[0], amount), [from] + dests) == SumOf(m, [from] + dests)
  {
    var names := [from] + dests;
    assert Distinct(names);
    var m0 := m[from := m[from] - amount];
    SumOfUpdate(m, names, from, m[from] - amount);
    SumOfUpdate(m0, names, dests[0], m[dests[0]] + amount);
  }

  /** The same transfers conserve the total over the source and the destinations. */
  lemma {:induction false} TransferEachConserves(m: map<string, int>, from: string, dests: seq<string>, amount: int)
    requires Headroom(m, from, dests, amount)
    ensures SumOf(TransferEach(m, from, dests, amount).0, [from] + dests) == SumOf(m, [from] + dests)
    decreases |dests|
  {
    if dests != [] {
      var d := dests[0];
      var rest := dests[1..];
      var names := [from] + dests;
      assert names[1] == d && [names[0]] + names[2..] == [from] + rest;
      AttemptEffect(m, from, dests[0], amount);
      var m1 := if m[from] >= amount then Moved(m, from, d, amount) else m;
      var r := TransferEach(m1, from, rest, amount).0;
      assert TransferEach(m, from, dests, amount).0 == r;
      if m[from] >= amount {
        HeadroomAfterMove(m, from, dests, amount);
        FirstTransferConserves(m, from, dests, amount);
      } else {
        HeadroomTail(m, from, dests, amount);
      }
      TransferEachConserves(m1, from, rest, amount);
      TransferEachUntouched(m1, from, rest, amount, d);
      SumOfDrop(m1, names);
      SumOfDrop(r, names);
    }
  }

  /** The sum over [a, b] + rest is b's balance plus the sum over [a] + rest. */
  lemma SumOfDrop(m: map<string, int>, names: seq<string>)
    requires |names| >= 2 && forall i :: 0 <= i < |names| ==> names[i] in m
    ensures SumOf(m, names) == m[names[1]] + SumOf(m, [names[0]] + names[2..])
  {
    assert ([names[0]] + names[2..])[1..] == names[2..];
    assert names[1..][1..] == names[2..];
  }

  /** Ten transfers of 15 from a wallet holding 108 to ten fresh wallets: 7 succeed, 3 do not. */
  lemma TenTransfersOfFifteen(m: map<string, int>, from: string, dests: seq<string>)
    requires BalancesOk(m) && from in m && m[from] == 108
    requires |dests| == 10 && Distinct(dests)
    requires forall i :: 0 <= i < |dests| ==> dests[i] in m && dests[i] != from && m[dests[i]] <= 15
    ensures var (m', n) := TransferEach(m, from, dests, 15);
      n == 7 && m'[from] == 3 && SumOf(m', [from] + dests) == SumOf(m, [from] + dests)
  {
    TransferEachSucceedsFloor(m, from, dests, 15);
    TransferEachStopsShort(m, from, dests, 15);
    TransferEachDebitsSource(m, from, dests, 15);
    TransferEachConserves(m, from, dests, 15);
    TimesIsProduct(TransferEach(m, from, dests, 15).1, 15);
  }

  // ----- reading the history -----------------------------------------------------

  /** The WHERE clause of the history query, applied to one row. */
  predicate Matches(row: Row, wallet: string, f: Filter) {
    row.wallet == wallet &&
    (f.direction == "" || DirectionName(row.record.direction) == f.direction) &&
    (IsZero(f.startDate) || !Before(row.record.time.date, f.startDate)) &&
    (IsZero(f.endDate) || !After(row.record.time.date, f.endDate)) &&
    (f.offsetById <= 0 || row.record.id > f.offsetById)
  }

  /** The records of the matching rows, in table (append) order. */
  function Selected(h: seq<Row>, wallet: string, f: Filter): (r: seq<Record>)
    ensures |r| <= |h|
  {
    if h == [] then []
    else
      var last := h[|h| - 1];
      Selected(h[..|h| - 1], wallet, f) + (if Matches(last, wallet, f) then [last.record] else [])
  }

  /** `LIMIT n` for n > 0; no limit otherwise. */
  function Take(xs: seq<Record>, limit: int): (r: seq<Record>)
    ensures r <= xs
    ensures |r| == if 0 < limit < |xs| then limit else |xs|
    ensures limit <= 0 ==> r == xs
  {
    if limit > 0 && |xs| > limit then xs[..limit] else xs
  }

  /** What `FetchHistoryForWallet` returns. */
  function Fetched(h: seq<Row>, wallet: string, f: Filter): seq<Record> {
    Take(Selected(h, wallet, f), f.limit)
  }

  /** Every selected record comes from a matching row, and every matching row's record is selected. */
  lemma {:induction false} SelectedExactly(h: seq<Row>, wallet: string, f: Filter)
    ensures forall r :: r in Selected(h, wallet, f) <==> exists i :: 0 <= i < |h| && Matches(h[i], wallet, f) && h[i].record == r
  {
    if h != [] {
      var p := h[..|h| - 1];
      SelectedExactly(p, wallet, f);
      forall r | r in Selected(h, wallet, f)
        ensures exists i :: 0 <= i < |h| && Matches(h[i], wallet, f) && h[i].record == r
      {
        if r in Selected(p, wallet, f) {
          var i :| 0 <= i < |p| && Matches(p[i], wallet, f) && p[i].record == r;
          assert h[i] == p[i];
        } else {
          assert h[|h| - 1].record == r;
        }
      }
      forall r | exists i :: 0 <= i < |h| && Matches(h[i], wallet, f) && h[i].record == r
        ensures r in Selected(h, wallet, f)
      {
        var i :| 0 <= i < |h| && Matches(h[i], wallet, f) && h[i].record == r;
        if i < |h| - 1 {
          assert p[i] == h[i];
        }
      }
    }
  }

  /** Record ids strictly increase along `xs`. */
  predicate IdsIncreasing(xs: seq<Record>) {
    forall i, j :: 0 <= i < j < |xs| ==> xs[i].id < xs[j].id
  }

  /** Selected records keep the table's strictly ascending id order. */
  lemma {:induction false} SelectedAscending(h: seq<Row>, wallet: string, f: Filter, nextId: int)
    requires IdsAscending(h, nextId)
    ensures IdsIncreasing(Selected(h, wallet, f))
    ensures forall r :: r in Selected(h, wallet, f) ==> 1 <= r.id < nextId
  {
    if h != [] {
      var p := h[..|h| - 1];
      var last := h[|h| - 1];
      assert IdsAscending(p, last.record.id);
      SelectedAscending(p, wallet, f, last.record.id);
      var rp := Selected(p, wallet, f);
      if Matches(last, wallet, f) {
        var r := rp + [last.record];
        assert Selected(h, wallet, f) == r;
        forall i, j | 0 <= i < j < |r|
          ensures r[i].id < r[j].id
        {
          assert r[i] == rp[i];
          if j < |rp| {
            assert r[j] == rp[j];
          } else {
            assert r[j] == last.record;
            assert rp[i] in Selected(p, wallet, f);
          }
        }
      } else {
        assert Selected(h, wallet, f) == rp;
      }
    }
  }

  /** What the history fetch returns is in strictly ascending id order too. */
  lemma FetchedAscending(h: seq<Row>, wallet: string, f: Filter, nextId: int)
    requires IdsAscending(h, nextId)
    ensures IdsIncreasing(Fetched(h, wallet, f))
  {
    SelectedAscending(h, wallet, f, nextId);
    var xs := Selected(h, wallet, f);
    var r := Fetched(h, wallet, f);
    assert r <= xs;
    forall i, j | 0 <= i < j < |r|
      ensures r[i].id < r[j].id
    {
      assert r[i] == xs[i] && r[j] == xs[j];
    }
  }

  /** With a positive offset, selection keeps exactly the records whose id is above it. */
  function Above(xs: seq<Record>, offset: int): (r: seq<Record>) {
    if xs == [] then []
    else Above(xs[..|xs| - 1], offset) + (if xs[|xs| - 1].id > offset then [xs[|xs| - 1]] else [])
  }

  lemma {:induction false} SelectedWithOffset(h: seq<Row>, wallet: string, f: Filter, offset: int)
    requires offset > 0 && f.offsetById <= offset
    ensures Selected(h, wallet, f.(offsetById := offset)) == Above(Selected(h, wallet, f), offset)
  {
    if h != [] {
      SelectedWithOffset(h[..|h| - 1], wallet, f, offset);
      var xs := Selected(h[..|h| - 1], wallet, f);
      var last := h[|h| - 1];
      var g := f.(offsetById := offset);
      assert Matches(last, wallet, g) <==> Matches(last, wallet, f) && last.record.id > offset;
      if Matches(last, wallet, f) {
        assert Selected(h, wallet, f) == xs + [last.record];
        assert (xs + [last.record])[..|xs|] == xs;
      } else {
        assert Selected(h, wallet, f) == xs;
        assert Selected(h, wallet, g) == Selected(h[..|h| - 1], wallet, g);
      }
    }
  }

  /** In an id-ascending list, the records above the k-th record's id are the ones after it. */
  lemma {:induction false} AboveAscending(xs: seq<Record>, k: int)
    requires 0 <= k < |xs|
    requires IdsIncreasing(xs)
    ensures Above(xs, xs[k].id) == xs[k + 1..]
  {
    var p := xs[..|xs| - 1];
    if k < |xs| - 1 {
      AboveAscending(p, k);
      assert p[k + 1..] + [xs[|xs| - 1]] == xs[k + 1..];
    } else {
      AboveNone(p, xs[k].id);
    }
  }

  lemma {:induction false} AboveNone(xs: seq<Record>, offset: int)
    requires forall i :: 0 <= i < |xs| ==> xs[i].id < offset
    ensures Above(xs, offset) == []
  {
    if xs != [] {
      AboveNone(xs[..|xs| - 1], offset);
    }
  }

  /**
   * Paging: when a page of `limit` records is full, asking again with
   * `offset_by_id` set to the page's last id returns the next records of the
   * same selection, all with larger ids.
   */
  lemma NextPage(s: State, wallet: string, f: Filter)
    requires Inv(s) && f.limit > 0 && f.offsetById <= 0
    requires |Fetched(s.history, wallet, f)| == f.limit
    ensures var page := Fetched(s.history, wallet, f);
      var next := Fetched(s.history, wallet, f.(offsetById := page[f.limit - 1].id));
      next == Take(Selected(s.history, wallet, f)[f.limit..], f.limit) &&
      forall i, j :: 0 <= i < |page| && 0 <= j < |next| ==> page[i].id < next[j].id
  {
    var xs := Selected(s.history, wallet, f);
    SelectedAscending(s.history, wallet, f, s.nextId);
    var last := xs[f.limit - 1];
    assert last in xs;
    SelectedWithOffset(s.history, wallet, f, last.id);
    AboveAscending(xs, f.limit - 1);
  }
}
