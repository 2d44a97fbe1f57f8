/**
 * `PSQLWalletsRepository`: the PostgreSQL-backed ledger as an object whose
 * fields are the committed contents of the database. Every method reads the
 * committed state, works on local copies inside its transaction and assigns
 * the fields only at the point where the source commits, so a failing
 * statement leaves the fields untouched.
 */
module Store {
  import opened Wrappers
  import opened Decimal
  import opened Calendar
  import opened Errors
  import opened Ledger
  import opened Query

  /** `LIMIT` applied to a growing result: a record is kept while fewer than `limit` are kept. */
  lemma TakeSnoc(xs: seq<Record>, x: Record, limit: int)
    ensures Take(xs + [x], limit) ==
      if limit <= 0 || |Take(xs, limit)| < limit then Take(xs, limit) + [x] else Take(xs, limit)
  {
    if limit > 0 && |xs| >= limit {
      assert (xs + [x])[..limit] == xs[..limit];
    }
  }

  /** The records of the first `i + 1` rows are those of the first `i`, plus row `i` when it matches. */
  lemma SelectedStep(h: seq<Row>, i: nat, wallet: string, f: Filter)
    requires i < |h|
    ensures Selected(h[..i + 1], wallet, f) ==
      Selected(h[..i], wallet, f) + (if Matches(h[i], wallet, f) then [h[i].record] else [])
  {
    var p := h[..i + 1];
    assert p[..|p| - 1] == h[..i];
    assert p[|p| - 1] == h[i];
  }

  /** One row of the scan: the query keeps it when the filter matches it and the limit is not reached. */
  lemma FetchStep(h: seq<Row>, i: nat, wallet: string, f: Filter, txs: seq<Record>)
    requires i < |h| && txs == Take(Selected(h[..i], wallet, f), f.limit)
    ensures Take(Selected(h[..i + 1], wallet, f), f.limit) ==
      if QuerySelects(Clauses(f), QueryArgs(wallet, f), h[i]) && (f.limit <= 0 || |txs| < f.limit)
      then txs + [h[i].record] else txs
  {
    QueryMeansFilter(wallet, f, h[i]);
    SelectedStep(h, i, wallet, f);
    TakeSnoc(Selected(h[..i], wallet, f), h[i].record, f.limit);
  }

  class WalletStore {
    /** The `wallets` table: name -> balance. */
    var wallets: map<string, int>
    /** The `transfer_history` table, in insertion order. */
    var history: seq<Row>
    /** The next value of `transfer_history_id_seq`. */
    var nextId: int

    /** The committed database contents. */
    function Contents(): State
      reads this
    {
      State(wallets, history, nextId)
    }

    ghost predicate Valid()
      reads this
    {
      Inv(Contents())
    }

    /** A freshly created schema: no wallets, no history, the sequence at 1. */
    constructor ()
      ensures Contents() == Empty && Valid()
    {
      wallets := map[];
      history := [];
      nextId := 1;
      new;
      EmptyInv();
    }

    /** `Create`: the INSERT either adds the wallet with balance 0 or fails on the primary key. */
    method Create(name: string) returns (r: Result<string, Error>)
      modifies this
      ensures CreateOutcome(old(Contents()), name).Success? ==>
        r == Success(name) && Contents() == CreateOutcome(old(Contents()), name).value
      ensures CreateOutcome(old(Contents()), name).Failure? ==>
        r == Failure(CreateOutcome(old(Contents()), name).error) && Contents() == old(Contents())
      ensures old(Valid()) ==> Valid()
    {
      if name in wallets {
        // SQLSTATE 23505 on the primary key
        return Failure(WalletAlreadyExists);
      }
      wallets := wallets[name := 0];
      return Success(name);
    }

    /** `Get`: the wallet exists or `ErrWalletNotFound`; nothing changes. */
    method Get(name: string) returns (r: Result<string, Error>)
      ensures r == GetOutcome(Contents(), name)
      ensures r.Success? <==> name in wallets
    {
      var found := name in wallets;
      if !found {
        return Failure(WalletNotFound);
      }
      return Success(name);
    }

    /** `Balance`: the stored balance, or -1 and `ErrWalletNotFound`; nothing changes. */
    method Balance(name: string) returns (a: int, err: Option<Error>)
      ensures BalanceOutcome(Contents(), name).Success? ==>
        err == None && a == BalanceOutcome(Contents(), name).value
      ensures BalanceOutcome(Contents(), name).Failure? ==> err == Some(WalletNotFound) && a == -1
      ensures err == None <==> name in wallets
    {
      if name !in wallets {
        // pgx.ErrNoRows
        return -1, Some(WalletNotFound);
      }
      return wallets[name], None;
    }

    /**
     * `Deposit`: the UPDATE ... RETURNING, then the history row
     * (wallet, deposit, +amount, source=unknown), then the commit. The
     * transaction's `now()` is a parameter.
     */
    method Deposit(wallet: string, amount: int, now: Timestamp) returns (a: int, err: Option<Error>)
      modifies this
      ensures DepositOutcome(old(Contents()), wallet, amount, now).Success? ==>
        err == None && (Contents(), a) == DepositOutcome(old(Contents()), wallet, amount, now).value
      ensures DepositOutcome(old(Contents()), wallet, amount, now).Failure? ==>
        err == Some(DepositOutcome(old(Contents()), wallet, amount, now).error) && a == -1 &&
        Contents() == old(Contents())
      ensures old(Valid()) && ValidTimestamp(now) ==> Valid()
    {
      ghost var s := Contents();
      var updated := AddToBalance(wallets, wallet, amount);
      if updated.Failure? {
        return -1, Some(Wrapped("cannot fetch updated amount", updated.error));
      }
      a := updated.value;
      // inside the transaction
      var staged := wallets[wallet := a];
      var row := Row(wallet, Record(nextId, Ledger.Deposit, amount, [("source", "unknown")], now));
      // commit
      wallets, history, nextId := staged, history + [row], nextId + 1;
      err := None;
      if Inv(s) && ValidTimestamp(now) {
        DepositPreservesInv(s, wallet, amount, now);
      }
    }

    /**
     * `Transfer`: debit the source (a CHECK violation is
     * `ErrInsufficientBalance`), credit the destination, write the source's
     * and then the destination's history row, commit. Both wallets exist:
     * the callers look them up first.
     */
    method Transfer(from: string, to: string, amount: int, now: Timestamp) returns (err: Option<Error>)
      requires from in wallets && to in wallets
      modifies this
      ensures TransferOutcome(old(Contents()), from, to, amount, now).Success? ==>
        err == None && Contents() == TransferOutcome(old(Contents()), from, to, amount, now).value
      ensures TransferOutcome(old(Contents()), from, to, amount, now).Failure? ==>
        err == Some(TransferOutcome(old(Contents()), from, to, amount, now).error) &&
        Contents() == old(Contents())
      ensures old(Valid()) && ValidTimestamp(now) ==> Valid()
    {
      ghost var s := Contents();
      if Inv(s) && ValidTimestamp(now) {
        TransferPreservesInv(s, from, to, amount, now);
      }
      var debited := AddToBalance(wallets, from, -amount);
      if debited.Failure? {
        if debited.error.PgError? && debited.error.sqlState == CheckViolation {
          return Some(InsufficientBalance);
        }
        return Some(Wrapped("cannot withdraw", debited.error));
      }
      var staged := wallets[from := debited.value];
      var credited := AddToBalance(staged, to, amount);
      if credited.Failure? {
        return Some(Wrapped("cannot deposit", credited.error));
      }
      staged := staged[to := credited.value];
      var out := Row(from, Record(nextId, Ledger.Transfer, -amount, [("destination", to)], now));
      var inc := Row(to, Record(nextId + 1, Ledger.Transfer, amount, [("source", from)], now));
      // commit
      wallets, history, nextId := staged, history + [out] + [inc], nextId + 2;
      return None;
    }

    /**
     * `FetchHistoryForWallet`: build the query, let the database scan
     * `transfer_history` in table order keeping the rows the query selects
     * until `LIMIT` is reached, and collect them one by one.
     */
    method FetchHistoryForWallet(wallet: string, f: Filter) returns (txs: seq<Record>)
      ensures txs == Fetched(history, wallet, f)
      ensures Valid() ==> IdsIncreasing(txs)
    {
      var query, args := MakeQuery(wallet, f);
      var cs := Clauses(f);
      txs := [];
      var i := 0;
      while i < |history|
        invariant 0 <= i <= |history|
        invariant txs == Take(Selected(history[..i], wallet, f), f.limit)
      {
        var row := history[i];
        FetchStep(history, i, wallet, f, txs);
        if QuerySelects(cs, args, row) && (f.limit <= 0 || |txs| < f.limit) {
          txs := txs + [row.record];
        }
        i := i + 1;
      }
      assert history[..|history|] == history;
      if Valid() {
        FetchedAscending(history, wallet, f, nextId);
      }
    }
  }
}
