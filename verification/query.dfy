/**
 * `makeQuery`: the SQL text and the positional arguments of the history
 * query. The text is the fixed prefix (`wallet = $1`) followed by one clause
 * per filter condition that is switched on, in the fixed order direction,
 * start date, end date, offset, limit; each clause carries the next
 * placeholder number and adds one argument.
 */
module Query {
  import opened Decimal
  import opened Calendar
  import opened Ledger

  /** A positional argument sent next to the query text. */
  datatype Arg = Text(s: string) | Day(d: Date) | Number(n: int)

  /** The optional parts of the query. */
  datatype Clause = DirectionIs | StartsOnOrAfter | EndsOnOrBefore | IdAbove | LimitTo

  /** Every clause, in the order `makeQuery` tries them. */
  const AllClauses: seq<Clause> := [DirectionIs, StartsOnOrAfter, EndsOnOrBefore, IdAbove, LimitTo]

  /** Position of a clause in that order. */
  function Rank(c: Clause): nat {
    match c
    case DirectionIs => 0
    case StartsOnOrAfter => 1
    case EndsOnOrBefore => 2
    case IdAbove => 3
    case LimitTo => 4
  }

  /** Whether the filter switches a clause on: a non-empty direction, a non-zero date, a positive offset or limit. */
  predicate On(c: Clause, f: Filter) {
    match c
    case DirectionIs => f.direction != ""
    case StartsOnOrAfter => !IsZero(f.startDate)
    case EndsOnOrBefore => !IsZero(f.endDate)
    case IdAbove => f.offsetById > 0
    case LimitTo => f.limit > 0
  }

  /** The clauses of `cs` that `f` switches on, in the same order. */
  function Keep(cs: seq<Clause>, f: Filter): seq<Clause> {
    if cs == [] then []
    else Keep(cs[..|cs| - 1], f) + (if On(cs[|cs| - 1], f) then [cs[|cs| - 1]] else [])
  }

  /** The clauses a filter switches on, in query order. */
  function Clauses(f: Filter): seq<Clause> {
    Keep(AllClauses, f)
  }

  lemma {:induction false} KeepMembers(cs: seq<Clause>, f: Filter)
    ensures forall c :: c in Keep(cs, f) <==> c in cs && On(c, f)
    decreases |cs|
  {
    if cs != [] {
      var p := cs[..|cs| - 1];
      KeepMembers(p, f);
      assert cs == p + [cs[|cs| - 1]];
    }
  }

  /** The clauses come in strictly increasing rank. */
  predicate Ranked(cs: seq<Clause>) {
    forall i, j :: 0 <= i < j < |cs| ==> Rank(cs[i]) < Rank(cs[j])
  }

  lemma {:induction false} KeepRanked(cs: seq<Clause>, f: Filter)
    requires Ranked(cs)
    ensures Ranked(Keep(cs, f))
    decreases |cs|
  {
    if cs != [] {
      var p := cs[..|cs| - 1];
      var last := cs[|cs| - 1];
      KeepMembers(p, f);
      var kp := Keep(p, f);
      forall i, j | 0 <= i < j < |p|
        ensures Rank(p[i]) < Rank(p[j])
      {
        assert p[i] == cs[i] && p[j] == cs[j];
      }
      KeepRanked(p, f);
      assert Keep(cs, f) == kp + (if On(last, f) then [last] else []);
      if On(last, f) {
        var ks := kp + [last];
        forall i, j | 0 <= i < j < |ks|
          ensures Rank(ks[i]) < Rank(ks[j])
        {
          assert ks[i] == kp[i] && kp[i] in kp;
          if j == |kp| {
            assert kp[i] in p;
            var m :| 0 <= m < |p| && p[m] == kp[i];
            assert ks[j] == cs[|cs| - 1] && p[m] == cs[m];
            assert Rank(cs[m]) < Rank(cs[|cs| - 1]);
          } else {
            assert ks[j] == kp[j];
            assert Rank(kp[i]) < Rank(kp[j]);
          }
        }
        assert Ranked(ks);
      } else {
        assert Keep(cs, f) == kp;
      }
    }
  }

  /** Each clause's rank is its position in `AllClauses`. */
  lemma RankIsPosition()
    ensures forall i :: 0 <= i < |AllClauses| ==> Rank(AllClauses[i]) == i
  {
    forall i | 0 <= i < |AllClauses|
      ensures Rank(AllClauses[i]) == i
    {
      if i == 0 {} else if i == 1 {} else if i == 2 {} else if i == 3 {} else {}
    }
  }

  /**
   * Each clause is present iff the filter switches it on, and the clauses
   * come in the fixed order direction, start, end, offset, limit.
   */
  lemma ClausesShape(f: Filter)
    ensures forall c :: c in Clauses(f) <==> On(c, f)
    ensures Ranked(Clauses(f))
  {
    KeepMembers(AllClauses, f);
    RankIsPosition();
    assert Ranked(AllClauses);
    KeepRanked(AllClauses, f);
    forall c
      ensures c in AllClauses
    {
      match c
      case DirectionIs => assert AllClauses[0] == c;
      case StartsOnOrAfter => assert AllClauses[1] == c;
      case EndsOnOrBefore => assert AllClauses[2] == c;
      case IdAbove => assert AllClauses[3] == c;
      case LimitTo => assert AllClauses[4] == c;
    }
  }

  /** The text a clause puts before and after its placeholder. */
  const DirectionLead: string := " AND direction = "
  const StartLead: string := " AND DATE(time) >= DATE("
  const EndLead: string := " AND DATE(time) <= DATE("
  const OffsetLead: string := " AND id > "
  const LimitLead: string := " LIMIT "
  const DateTrail: string := ")"

  function Lead(c: Clause): string {
    match c
    case DirectionIs => DirectionLead
    case StartsOnOrAfter => StartLead
    case EndsOnOrBefore => EndLead
    case IdAbove => OffsetLead
    case LimitTo => LimitLead
  }

  function Trail(c: Clause): string {
    if c == StartsOnOrAfter || c == EndsOnOrBefore then DateTrail else ""
  }

  /** The text of clause `c` carrying placeholder `$k`. */
  function ClauseText(c: Clause, k: nat): string {
    Lead(c) + "$" + FormatInt(k) + Trail(c)
  }

  /** The argument that clause `c` adds. */
  function ClauseArg(c: Clause, f: Filter): Arg {
    match c
    case DirectionIs => Text(f.direction)
    case StartsOnOrAfter => Day(f.startDate)
    case EndsOnOrBefore => Day(f.endDate)
    case IdAbove => Number(f.offsetById)
    case LimitTo => Number(f.limit)
  }

  /**
   * The start of the query up to its first placeholder `$1`:
   * "SELECT id, direction, amount, meta, time FROM transfer_history WHERE wallet = ".
   */
  const WalletLead: string :=
    "SELECT id, direction" + ", amount, meta, time" + " FROM transfer_" + "history WHERE wallet = "
  const Prefix: string := WalletLead + "$1"

  /** The strings of `xs` written one after the other. */
  function Concat(xs: seq<string>): string {
    if xs == [] then "" else xs[0] + Concat(xs[1..])
  }

  lemma {:induction false} ConcatSnoc(xs: seq<string>, x: string)
    ensures Concat(xs + [x]) == Concat(xs) + x
    decreases |xs|
  {
    if xs != [] {
      assert (xs + [x])[1..] == xs[1..] + [x];
      ConcatSnoc(xs[1..], x);
    } else {
      assert Concat([x]) == x + Concat([]);
    }
  }

  lemma ConcatAssoc(a: string, b: string, c: string)
    ensures (a + b) + c == a + (b + c)
  {
  }

  /** The texts of the clauses `cs`, numbered from `$k`. */
  function Pieces(cs: seq<Clause>, k: nat): (ps: seq<string>)
    ensures |ps| == |cs|
  {
    seq(|cs|, i requires 0 <= i < |cs| => ClauseText(cs[i], k + i))
  }

  function ArgsOf(cs: seq<Clause>, f: Filter): (args: seq<Arg>)
    ensures |args| == |cs|
  {
    seq(|cs|, i requires 0 <= i < |cs| => ClauseArg(cs[i], f))
  }

  /** The query text for a filter; the wallet name is not part of it. */
  function QueryText(f: Filter): string {
    Prefix + Concat(Pieces(Clauses(f), 2))
  }

  /** The arguments: the wallet name, then one per clause. */
  function QueryArgs(wallet: string, f: Filter): seq<Arg> {
    [Text(wallet)] + ArgsOf(Clauses(f), f)
  }

  lemma PiecesSnoc(cs: seq<Clause>, c: Clause, k: nat)
    ensures Pieces(cs + [c], k) == Pieces(cs, k) + [ClauseText(c, k + |cs|)]
  {
    var l := Pieces(cs + [c], k);
    var r := Pieces(cs, k) + [ClauseText(c, k + |cs|)];
    forall i | 0 <= i < |l|
      ensures l[i] == r[i]
    {
      if i < |cs| {
        assert (cs + [c])[i] == cs[i];
      }
    }
  }

  lemma ArgsOfSnoc(cs: seq<Clause>, c: Clause, f: Filter)
    ensures ArgsOf(cs + [c], f) == ArgsOf(cs, f) + [ClauseArg(c, f)]
  {
    var l := ArgsOf(cs + [c], f);
    var r := ArgsOf(cs, f) + [ClauseArg(c, f)];
    forall i | 0 <= i < |l|
      ensures l[i] == r[i]
    {
      if i < |cs| {
        assert (cs + [c])[i] == cs[i];
      }
    }
  }

  /** Taking one more clause of `cs` into account. */
  lemma KeepStep(cs: seq<Clause>, i: nat, f: Filter)
    requires i < |cs|
    ensures Keep(cs[..i + 1], f) == Keep(cs[..i], f) + (if On(cs[i], f) then [cs[i]] else [])
  {
    var p := cs[..i + 1];
    assert p[..|p| - 1] == cs[..i];
    assert p[|p| - 1] == cs[i];
  }

  /** The query text and arguments once the first `i` clauses have been considered. */
  ghost predicate BuiltUpTo(i: nat, wallet: string, f: Filter, query: string, args: seq<Arg>, nextArgIdx: nat)
    requires i <= |AllClauses|
  {
    var done := Keep(AllClauses[..i], f);
    query == Prefix + Concat(Pieces(done, 2)) && args == [Text(wallet)] + ArgsOf(done, f) &&
    nextArgIdx == 2 + |done|
  }

  /**
   * One `if` of `makeQuery`, the one for clause number `i`: when its
   * condition is on, append the clause with placeholder `$nextArgIdx`, append
   * its argument and move to the next placeholder.
   */
  method AppendIf(on: bool, i: nat, wallet: string, f: Filter,
                  query: string, args: seq<Arg>, nextArgIdx: nat)
    returns (query': string, args': seq<Arg>, nextArgIdx': nat)
    requires i < |AllClauses| && on == On(AllClauses[i], f)
    requires BuiltUpTo(i, wallet, f, query, args, nextArgIdx)
    ensures BuiltUpTo(i + 1, wallet, f, query', args', nextArgIdx')
  {
    ghost var done := Keep(AllClauses[..i], f);
    KeepStep(AllClauses, i, f);
    var c := AllClauses[i];
    if on {
      var text := Lead(c) + "$" + FormatInt(nextArgIdx) + Trail(c);
      assert text == ClauseText(c, 2 + |done|);
      PiecesSnoc(done, c, 2);
      ArgsOfSnoc(done, c, f);
      ConcatSnoc(Pieces(done, 2), text);
      assert Keep(AllClauses[..i + 1], f) == done + [c];
      query' := query + text;
      nextArgIdx' := nextArgIdx + 1;
      args' := args + [ClauseArg(c, f)];
      ConcatAssoc(Prefix, Concat(Pieces(done, 2)), text);
      assert args' == [Text(wallet)] + (ArgsOf(done, f) + [ClauseArg(c, f)]);
    } else {
      assert Keep(AllClauses[..i + 1], f) == done;
      query', args', nextArgIdx' := query, args, nextArgIdx;
    }
  }

  /**
   * `makeQuery`: `nextArgIdx` starts at 2 and each switched-on condition, in
   * order, appends its clause and its argument.
   */
  method MakeQuery(wallet: string, f: Filter) returns (query: string, args: seq<Arg>)
    ensures query == QueryText(f)
    ensures args == QueryArgs(wallet, f)
  {
    var nextArgIdx := 2;
    query := Prefix;
    args := [Text(wallet)];
    BuiltFromPrefix(wallet, f);
    query, args, nextArgIdx := AppendIf(f.direction != "", 0, wallet, f, query, args, nextArgIdx);
    query, args, nextArgIdx := AppendIf(!IsZero(f.startDate), 1, wallet, f, query, args, nextArgIdx);
    query, args, nextArgIdx := AppendIf(!IsZero(f.endDate), 2, wallet, f, query, args, nextArgIdx);
    query, args, nextArgIdx := AppendIf(f.offsetById > 0, 3, wallet, f, query, args, nextArgIdx);
    query, args, nextArgIdx := AppendIf(f.limit > 0, 4, wallet, f, query, args, nextArgIdx);
    BuiltAll(wallet, f, query, args, nextArgIdx);
  }

  lemma BuiltFromPrefix(wallet: string, f: Filter)
    ensures BuiltUpTo(0, wallet, f, Prefix, [Text(wallet)], 2)
  {
    assert Pieces([], 2) == [] && ArgsOf([], f) == [];
    assert AllClauses[..0] == [];
  }

  lemma BuiltAll(wallet: string, f: Filter, query: string, args: seq<Arg>, nextArgIdx: nat)
    requires BuiltUpTo(|AllClauses|, wallet, f, query, args, nextArgIdx)
    ensures query == QueryText(f) && args == QueryArgs(wallet, f)
  {
    assert AllClauses[..|AllClauses|] == AllClauses;
  }

  // ----- placeholder numbering ---------------------------------------------------

  /** Length of the run of decimal digits at the start of `s`. */
  function DigitRun(s: string): (n: nat)
    ensures n <= |s| && (n == |s| || !IsDigit(s[n]))
    ensures forall i :: 0 <= i < n ==> IsDigit(s[i])
  {
    if s != [] && IsDigit(s[0]) then 1 + DigitRun(s[1..]) else 0
  }

  /** The numbers of the `$n` placeholders of `s`, left to right. */
  function Placeholders(s: string): seq<int>
    decreases |s|
  {
    if s == [] then []
    else if s[0] == '$' then
      var t := s[1..];
      var n := DigitRun(t);
      (if n == 0 then [] else [DigitsValue(t[..n]) as int]) + Placeholders(t[n..])
    else Placeholders(s[1..])
  }

  /** The integers a, a + 1, ..., b - 1. */
  function Range(a: int, b: int): (r: seq<int>)
    ensures |r| == if a <= b then b - a else 0
    decreases b - a
  {
    if a >= b then [] else [a] + Range(a + 1, b)
  }

  lemma {:induction false} PlaceholdersSkip(a: string, b: string)
    requires '$' !in a
    ensures Placeholders(a + b) == Placeholders(b)
    decreases |a|
  {
    if a != [] {
      assert a[0] in a;
      assert (a + b)[0] == a[0] != '$';
      assert (a + b)[1..] == a[1..] + b;
      assert forall c :: c in a[1..] ==> c in a;
      PlaceholdersSkip(a[1..], b);
    } else {
      assert a + b == b;
    }
  }

  lemma {:induction false} DigitRunOf(d: string, t: string)
    requires AllDigits(d) && (t == [] || !IsDigit(t[0]))
    ensures DigitRun(d + t) == |d|
    decreases |d|
  {
    if d != [] {
      assert (d + t)[0] == d[0];
      assert (d + t)[1..] == d[1..] + t;
      DigitRunOf(d[1..], t);
    } else {
      assert d + t == t;
    }
  }

  /** A `$` followed by a run of digits that ends where `u` begins reads as one placeholder. */
  lemma PlaceholdersDollar(d: string, u: string)
    requires |d| >= 1 && AllDigits(d) && (u == [] || !IsDigit(u[0]))
    ensures Placeholders("$" + (d + u)) == [DigitsValue(d) as int] + Placeholders(u)
  {
    var s := "$" + (d + u);
    assert s[0] == '$';
    assert s[1..] == d + u;
    DigitRunOf(d, u);
    assert (d + u)[..|d|] == d;
    assert (d + u)[|d|..] == u;
  }

  lemma SkipThenDollar(pre: string, d: string, u: string)
    requires '$' !in pre && |d| >= 1 && AllDigits(d) && (u == [] || !IsDigit(u[0]))
    ensures Placeholders(pre + ("$" + (d + u))) == [DigitsValue(d) as int] + Placeholders(u)
  {
    PlaceholdersSkip(pre, "$" + (d + u));
    PlaceholdersDollar(d, u);
  }

  lemma RegroupPiece(pre: string, d: string, post: string, rest: string)
    ensures pre + ("$" + d + post) + rest == pre + ("$" + (d + (post + rest)))
  {
  }

  /** One placeholder `$` + digits between text without `$`, followed by something that is not a digit. */
  lemma PlaceholderDigits(pre: string, d: string, post: string, rest: string)
    requires '$' !in pre && '$' !in post && |d| >= 1 && AllDigits(d)
    requires if post == [] then rest == [] || !IsDigit(rest[0]) else !IsDigit(post[0])
    ensures Placeholders(pre + ("$" + d + post) + rest) == [DigitsValue(d) as int] + Placeholders(rest)
  {
    RegroupPiece(pre, d, post, rest);
    var u := post + rest;
    if post == [] {
      assert u == rest;
    } else {
      assert u[0] == post[0];
    }
    SkipThenDollar(pre, d, u);
    PlaceholdersSkip(post, rest);
  }

  /** The same for the placeholder `$k`. */
  lemma PlaceholderAt(pre: string, k: nat, post: string, rest: string)
    requires '$' !in pre && '$' !in post
    requires if post == [] then rest == [] || !IsDigit(rest[0]) else !IsDigit(post[0])
    ensures Placeholders(pre + ("$" + NatDigits(k) + post) + rest) == [k] + Placeholders(rest)
  {
    PlaceholderDigits(pre, NatDigits(k), post, rest);
    DigitsValueOfNatDigits(k);
  }

  /** No clause text has a `$` besides its placeholder, and none puts a digit right after it. */
  lemma ClauseTextShape(c: Clause)
    ensures '$' !in Lead(c) && '$' !in Trail(c)
    ensures Trail(c) == [] || !IsDigit(Trail(c)[0])
    ensures |Lead(c)| > 0 && Lead(c)[0] == ' '
  {
  }

  lemma PiecesCons(cs: seq<Clause>, k: nat)
    requires cs != []
    ensures Concat(Pieces(cs, k)) == ClauseText(cs[0], k) + Concat(Pieces(cs[1..], k + 1))
  {
    assert Pieces(cs, k)[1..] == Pieces(cs[1..], k + 1);
  }

  /** A clause's text followed by text that starts with a space (or nothing) carries one placeholder, `$k`. */
  lemma ClausePlaceholder(c: Clause, k: nat, rest: string)
    requires rest == [] || rest[0] == ' '
    ensures Placeholders(ClauseText(c, k) + rest) == [k] + Placeholders(rest)
    ensures (ClauseText(c, k) + rest)[0] == ' '
  {
    ClauseTextShape(c);
    assert ClauseText(c, k) == Lead(c) + ("$" + NatDigits(k) + Trail(c));
    PlaceholderAt(Lead(c), k, Trail(c), rest);
  }

  /** The clauses carry the placeholders k, k + 1, ... in order, and their text starts with a space. */
  lemma {:induction false} RenderPlaceholders(cs: seq<Clause>, k: nat)
    ensures var text := Concat(Pieces(cs, k));
      Placeholders(text) == Range(k, k + |cs|) && (text == [] || text[0] == ' ')
    decreases |cs|
  {
    if cs != [] {
      var rest := Concat(Pieces(cs[1..], k + 1));
      RenderPlaceholders(cs[1..], k + 1);
      PiecesCons(cs, k);
      ClausePlaceholder(cs[0], k, rest);
      assert Range(k, k + |cs|) == [k] + Range(k + 1, k + |cs|);
    } else {
      assert Pieces(cs, k) == [];
    }
  }

  /**
   * The placeholders of the query text are exactly $1, $2, ..., $n in that
   * order, where n is the number of arguments.
   */
  lemma QueryPlaceholders(wallet: string, f: Filter)
    ensures Placeholders(QueryText(f)) == Range(1, |QueryArgs(wallet, f)| + 1)
  {
    var rest := Concat(Pieces(Clauses(f), 2));
    RenderPlaceholders(Clauses(f), 2);
    WalletLeadShape();
    assert QueryText(f) == WalletLead + ("$" + NatDigits(1) + "") + rest;
    PlaceholderAt(WalletLead, 1, "", rest);
    assert Range(1, |QueryArgs(wallet, f)| + 1) == [1] + Range(2, 2 + |Clauses(f)|);
  }

  lemma WalletLeadShape()
    ensures '$' !in WalletLead
  {
    assert '$' !in "SELECT id, direction";
    assert '$' !in ", amount, meta, time";
    assert '$' !in " FROM transfer_";
    assert '$' !in "history WHERE wallet = ";
  }

  // ----- what the query selects ---------------------------------------------------

  /** What a clause's SQL condition says of a record, given the argument bound to its placeholder. */
  predicate Holds(c: Clause, arg: Arg, r: Record) {
    match c
    case DirectionIs => arg.Text? && DirectionName(r.direction) == arg.s
    case StartsOnOrAfter => arg.Day? && !Before(r.time.date, arg.d)
    case EndsOnOrBefore => arg.Day? && !After(r.time.date, arg.d)
    case IdAbove => arg.Number? && r.id > arg.n
    case LimitTo => true
  }

  /** The row passes `wallet = $1` and every clause, clause i being bound to argument i + 1 (placeholder i + 2). */
  predicate QuerySelects(cs: seq<Clause>, args: seq<Arg>, row: Row) {
    |args| == |cs| + 1 && args[0].Text? && row.wallet == args[0].s &&
    forall i :: 0 <= i < |cs| ==> Holds(cs[i], args[i + 1], row.record)
  }

  /** The history filter is the conjunction of the clauses it switches on. */
  lemma MatchesByClause(row: Row, wallet: string, f: Filter)
    ensures Matches(row, wallet, f) <==>
      row.wallet == wallet && forall c :: On(c, f) ==> Holds(c, ClauseArg(c, f), row.record)
  {
    if row.wallet == wallet && forall c :: On(c, f) ==> Holds(c, ClauseArg(c, f), row.record) {
      assert On(DirectionIs, f) ==> Holds(DirectionIs, ClauseArg(DirectionIs, f), row.record);
      assert On(StartsOnOrAfter, f) ==> Holds(StartsOnOrAfter, ClauseArg(StartsOnOrAfter, f), row.record);
      assert On(EndsOnOrBefore, f) ==> Holds(EndsOnOrBefore, ClauseArg(EndsOnOrBefore, f), row.record);
      assert On(IdAbove, f) ==> Holds(IdAbove, ClauseArg(IdAbove, f), row.record);
    }
  }

  /** The query `makeQuery` builds selects exactly the rows the history filter describes. */
  lemma QueryMeansFilter(wallet: string, f: Filter, row: Row)
    ensures QuerySelects(Clauses(f), QueryArgs(wallet, f), row) <==> Matches(row, wallet, f)
  {
    var cs := Clauses(f);
    var args := QueryArgs(wallet, f);
    ClausesShape(f);
    MatchesByClause(row, wallet, f);
    assert forall i :: 0 <= i < |cs| ==> args[i + 1] == ClauseArg(cs[i], f);
    if QuerySelects(cs, args, row) {
      forall c | On(c, f)
        ensures Holds(c, ClauseArg(c, f), row.record)
      {
        var i :| 0 <= i < |cs| && cs[i] == c;
      }
    }
  }
}
