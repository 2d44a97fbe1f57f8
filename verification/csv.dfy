/**
 * The CSV history report: `encoding/csv`'s writer with its default settings
 * (comma separator, "\n" line ends) applied to one row per history record,
 * optionally preceded by a header row, and a reader for the same format
 * (section 2 of RFC 4180) that reads the report back.
 */
module Csv {
  import opened Wrappers
  import opened Decimal
  import opened Calendar
  import opened Json
  import opened Ledger

  // ----- writing -------------------------------------------------------------------

  /** `unicode.IsSpace`. */
  predicate IsSpace(c: char) {
    var n := c as int;
    (9 <= n <= 13) || n == 32 || n == 0x85 || n == 0xA0 || n == 0x1680 ||
    (0x2000 <= n <= 0x200A) || n == 0x2028 || n == 0x2029 || n == 0x202F || n == 0x205F || n == 0x3000
  }

  /** `fieldNeedsQuotes`: a separator, quote or line break inside, a leading space, or the field `\.`. */
  predicate NeedsQuotes(f: string) {
    f != "" && (f == "\\." || ',' in f || '"' in f || '\n' in f || '\r' in f || IsSpace(f[0]))
  }

  /** The inside of a quoted field: every '"' doubled, everything else as is. */
  function Doubled(f: string): string {
    if f == [] then []
    else (if f[0] == '"' then "\"\"" else [f[0]]) + Doubled(f[1..])
  }

  /** One field as the writer emits it. */
  function Field(f: string): string {
    if NeedsQuotes(f) then "\"" + Doubled(f) + "\"" else f
  }

  /** The fields of one record, separated by commas. */
  function Joined(fields: seq<string>): string {
    if fields == [] then ""
    else if |fields| == 1 then Field(fields[0])
    else Field(fields[0]) + "," + Joined(fields[1..])
  }

  /** `csvw.Write(fields)`: the joined fields and a line end. */
  function Line(fields: seq<string>): string {
    Joined(fields) + "\n"
  }

  const Header: seq<string> := ["id", "amount", "direction", "meta", "time"]

  /** `transferTostring`: id and amount in base 10, the direction, the meta object as JSON, the time as `Time.String()`. */
  function TransferFields(t: Record): (fields: seq<string>)
    requires ValidTimestamp(t.time)
    ensures |fields| == 5
  {
    [FormatInt(t.id), FormatInt(t.amount), DirectionName(t.direction), ObjectText(t.meta), FormatTimestamp(t.time)]
  }

  predicate AllValid(history: seq<Record>) {
    forall i :: 0 <= i < |history| ==> ValidTimestamp(history[i].time)
  }

  /** The rows the records become, in order. */
  function RowsOf(history: seq<Record>): (rows: seq<seq<string>>)
    requires AllValid(history)
    ensures |rows| == |history|
  {
    seq(|history|, i requires 0 <= i < |history| => TransferFields(history[i]))
  }

  /** Rows written one after the other. */
  function Text(rows: seq<seq<string>>): string {
    if rows == [] then "" else Line(rows[0]) + Text(rows[1..])
  }

  /** What `WriteInto` writes: the optional header row, then one row per record. */
  function Report(withHeader: bool, history: seq<Record>): string
    requires AllValid(history)
  {
    Text((if withHeader then [Header] else []) + RowsOf(history))
  }

  lemma {:induction false} TextSnoc(rows: seq<seq<string>>, row: seq<string>)
    ensures Text(rows + [row]) == Text(rows) + Line(row)
    decreases |rows|
  {
    if rows == [] {
      assert rows + [row] == [row];
      assert [row][1..] == [];
    } else {
      assert (rows + [row])[1..] == rows[1..] + [row];
      TextSnoc(rows[1..], row);
    }
  }

  lemma RowsOfSnoc(history: seq<Record>, i: nat)
    requires AllValid(history) && i < |history|
    ensures AllValid(history[..i]) && AllValid(history[..i + 1])
    ensures RowsOf(history[..i + 1]) == RowsOf(history[..i]) + [TransferFields(history[i])]
  {
    var a := RowsOf(history[..i + 1]);
    var b := RowsOf(history[..i]) + [TransferFields(history[i])];
    assert forall j :: 0 <= j < |a| ==> a[j] == b[j];
  }

  /** Writing record `i` after the text of the rows before it gives the text of the rows up to it. */
  lemma WriteStep(start: seq<seq<string>>, history: seq<Record>, i: nat)
    requires AllValid(history) && i < |history|
    ensures AllValid(history[..i]) && AllValid(history[..i + 1])
    ensures Text(start + RowsOf(history[..i])) + Line(TransferFields(history[i])) ==
      Text(start + RowsOf(history[..i + 1]))
  {
    RowsOfSnoc(history, i);
    TextSnoc(start + RowsOf(history[..i]), TransferFields(history[i]));
    assert start + RowsOf(history[..i + 1]) == start + RowsOf(history[..i]) + [TransferFields(history[i])];
  }

  /**
   * `CSV.WriteInto`: the header row when asked for, then a row per record;
   * the writer's buffer is flushed once at the end, so the output is the
   * whole text.
   */
  method WriteInto(withHeader: bool, history: seq<Record>) returns (out: string)
    requires AllValid(history)
    ensures out == Report(withHeader, history)
  {
    ghost var start: seq<seq<string>> := if withHeader then [Header] else [];
    var buffer := "";
    if withHeader {
      buffer := buffer + Line(Header);
      TextOne(Header);
    }
    assert start + RowsOf(history[..0]) == start;
    var i := 0;
    while i < |history|
      invariant 0 <= i <= |history|
      invariant AllValid(history[..i])
      invariant buffer == Text(start + RowsOf(history[..i]))
    {
      WriteStep(start, history, i);
      buffer := buffer + Line(TransferFields(history[i]));
      i := i + 1;
    }
    assert history[..i] == history;
    out := buffer;
  }

  lemma TextOne(row: seq<string>)
    ensures Text([row]) == Line(row)
  {
    assert [row][1..] == [];
  }

  // ----- reading back --------------------------------------------------------------

  function Prepend(c: char, r: Option<(string, string)>): Option<(string, string)> {
    if r.Some? then Some(([c] + r.value.0, r.value.1)) else None
  }

  /** The rest of a quoted field after its opening quote: `""` is a quote, a lone `"` ends the field. */
  function ReadQuoted(s: string): (r: Option<(string, string)>)
    ensures r.Some? ==> |r.value.1| < |s|
    decreases |s|
  {
    if s == [] then None
    else if s[0] == '"' then
      if |s| >= 2 && s[1] == '"' then Prepend('"', ReadQuoted(s[2..])) else Some(("", s[1..]))
    else Prepend(s[0], ReadQuoted(s[1..]))
  }

  /** An unquoted field: everything up to the next comma or line end. */
  function ReadBare(s: string): (r: (string, string))
    ensures |r.1| <= |s|
    ensures r.0 + r.1 == s
    ensures r.1 == [] || r.1[0] == ',' || r.1[0] == '\n'
  {
    if s == [] || s[0] == ',' || s[0] == '\n' then ("", s)
    else
      var (f, rest) := ReadBare(s[1..]);
      ([s[0]] + f, rest)
  }

  function ReadField(s: string): (r: Option<(string, string)>)
    ensures r.Some? ==> |r.value.1| <= |s|
  {
    if s != [] && s[0] == '"' then ReadQuoted(s[1..]) else Some(ReadBare(s))
  }

  /** The fields of one record up to and including its line end. */
  function ReadFields(s: string): (r: Option<(seq<string>, string)>)
    ensures r.Some? ==> |r.value.1| < |s|
    decreases |s|
  {
    match ReadField(s)
    case None => None
    case Some((f, rest)) =>
      if rest == [] then None
      else if rest[0] == '\n' then Some(([f], rest[1..]))
      else if rest[0] == ',' then
        match ReadFields(rest[1..])
        case None => None
        case Some((fs, after)) => Some(([f] + fs, after))
      else None
  }

  /** All records of a text made of complete lines. */
  function ReadAll(s: string): Option<seq<seq<string>>>
    decreases |s|
  {
    if s == [] then Some([])
    else match ReadFields(s)
      case None => None
      case Some((fs, rest)) =>
        match ReadAll(rest)
        case None => None
        case Some(rows) => Some([fs] + rows)
  }

  lemma {:induction false} ReadQuotedDoubled(f: string, rest: string)
    requires rest == [] || rest[0] != '"'
    ensures ReadQuoted(Doubled(f) + "\"" + rest) == Some((f, rest))
    decreases |f|
  {
    if f == [] {
      assert Doubled(f) + "\"" + rest == "\"" + rest;
      assert ("\"" + rest)[1..] == rest;
    } else {
      ReadQuotedDoubled(f[1..], rest);
      var tail := Doubled(f[1..]) + "\"" + rest;
      if f[0] == '"' {
        assert Doubled(f) + "\"" + rest == "\"\"" + tail;
        assert ("\"\"" + tail)[2..] == tail;
      } else {
        assert Doubled(f) + "\"" + rest == [f[0]] + tail;
        assert ([f[0]] + tail)[1..] == tail;
      }
      assert [f[0]] + f[1..] == f;
    }
  }

  lemma {:induction false} ReadBarePlain(f: string, rest: string)
    requires ',' !in f && '\n' !in f
    requires rest == [] || rest[0] == ',' || rest[0] == '\n'
    ensures ReadBare(f + rest) == (f, rest)
    decreases |f|
  {
    if f == [] {
      assert f + rest == rest;
    } else {
      assert f[0] in f;
      assert (f + rest)[1..] == f[1..] + rest;
      assert forall c :: c in f[1..] ==> c in f;
      ReadBarePlain(f[1..], rest);
      assert [f[0]] + f[1..] == f;
    }
  }

  /** A field as written, followed by a comma or a line end, reads back as the same field. */
  lemma ReadFieldOf(f: string, rest: string)
    requires rest != [] && (rest[0] == ',' || rest[0] == '\n')
    ensures ReadField(Field(f) + rest) == Some((f, rest))
  {
    if NeedsQuotes(f) {
      ReadQuotedDoubled(f, rest);
      assert Field(f) + rest == "\"" + (Doubled(f) + "\"" + rest);
    } else {
      ReadBarePlain(f, rest);
      if f != [] {
        assert f[0] in f;
        assert (f + rest)[0] == f[0];
      }
    }
  }

  /** A written line reads back as its fields. */
  lemma {:induction false} ReadFieldsOf(fields: seq<string>, rest: string)
    requires |fields| >= 1
    ensures ReadFields(Line(fields) + rest) == Some((fields, rest))
    decreases |fields|
  {
    if |fields| == 1 {
      assert Line(fields) + rest == Field(fields[0]) + ("\n" + rest);
      ReadFieldOf(fields[0], "\n" + rest);
      assert ("\n" + rest)[1..] == rest;
      assert [fields[0]] == fields;
    } else {
      var tail := Line(fields[1..]) + rest;
      assert Line(fields) + rest == Field(fields[0]) + ("," + tail);
      ReadFieldOf(fields[0], "," + tail);
      ReadFieldsOf(fields[1..], rest);
      assert ("," + tail)[1..] == tail;
      assert [fields[0]] + fields[1..] == fields;
    }
  }

  /** Rows of at least one field each, written one after the other, read back as the same rows. */
  lemma {:induction false} ReadText(rows: seq<seq<string>>)
    requires forall i :: 0 <= i < |rows| ==> |rows[i]| >= 1
    ensures ReadAll(Text(rows)) == Some(rows)
    decreases |rows|
  {
    if rows != [] {
      var tail := rows[1..];
      assert forall i :: 0 <= i < |tail| ==> tail[i] == rows[i + 1];
      ReadText(tail);
      ReadFieldsOf(rows[0], Text(tail));
      var s := Text(rows);
      assert s == Line(rows[0]) + Text(tail);
      assert s != [] by { assert |Line(rows[0])| >= 1; }
      assert ReadAll(s) == Some([rows[0]] + tail);
      assert [rows[0]] + tail == rows;
    }
  }

  /**
   * Reading the report back gives the header row when asked for, then
   * exactly one row per record, in order, each with the record's five fields.
   */
  lemma ReportReadsBack(withHeader: bool, history: seq<Record>)
    requires AllValid(history)
    ensures ReadAll(Report(withHeader, history)) ==
      Some((if withHeader then [Header] else []) + RowsOf(history))
  {
    ReadText((if withHeader then [Header] else []) + RowsOf(history));
  }

  /** No header field needs quoting, so the header row is written as the bare names. */
  lemma HeaderUnquoted()
    ensures forall i :: 0 <= i < |Header| ==> Field(Header[i]) == Header[i]
  {
    forall i | 0 <= i < |Header|
      ensures Field(Header[i]) == Header[i]
    {
      LowercaseUnquoted(Header[i]);
    }
  }

  /** A word of lower-case letters needs no quoting. */
  lemma LowercaseUnquoted(f: string)
    requires forall i :: 0 <= i < |f| ==> 'a' <= f[i] <= 'z'
    ensures Field(f) == f
  {
    if f != [] {
      assert f[0] != ' ';
    }
  }

  /** With no records the report is the header row alone, read back as the header, or nothing. */
  lemma EmptyReport(withHeader: bool)
    ensures Report(withHeader, []) == if withHeader then Line(Header) else ""
    ensures ReadAll(Report(withHeader, [])) == Some(if withHeader then [Header] else [])
  {
    var start: seq<seq<string>> := if withHeader then [Header] else [];
    assert start + RowsOf([]) == start;
    TextOne(Header);
    ReportReadsBack(withHeader, []);
  }

  /** A field holding a quote is quoted and its quote doubled: `a"b` is written `"a""b"`. */
  lemma QuotedFieldExample()
    ensures Field("a\"b") == "\"a\"\"b\""
  {
    var f := "a\"b";
    assert f[1] == '"';
    assert NeedsQuotes(f);
    assert Doubled(f[2..]) == "b";
    assert Doubled(f[1..]) == "\"\"b";
  }
}
