/**
 * Reading the rows that the hdbsql command prints
 * (internal/databaseconnector/databaseconnector.go).
 */
module HdbSql {
  import opened Common
  import opened Text

  // ----- the row pattern ----------------------------------------------------

  /** A field of a row: a quoted string, or text without quotes. NULL is a plain question mark. */
  datatype Field = Quoted(content: string) | Plain(text: string)
  {
    /** The field as hdbsql prints it, which is also the whole match of the pattern. */
    function Text(): string {
      if Quoted? then "\"" + content + "\"" else text
    }

    /** The part of the match inside quotes, empty if there are none. */
    function Inner(): string {
      if Quoted? then content else ""
    }

    predicate IsNull() {
      this == Plain("?")
    }

    /** The fields a row can hold. */
    ghost predicate WellFormed() {
      match this
      case Quoted(c) => '\"' !in c
      case Plain(t) => t == "?" || (t != [] && IsWord(t[0]) && forall c :: c in t ==> !EndsWord(c))
    }
  }

  predicate IsWord(c: char) {
    IsDigit(c) || 'a' <= c <= 'z' || 'A' <= c <= 'Z' || c == '_'
  }

  predicate EndsWord(c: char) {
    c == '\"' || c == ','
  }

  /** The number of characters before the first one that satisfies `stop`, or the length of the string. */
  function Span(s: string, stop: char -> bool): (n: nat)
    ensures n <= |s| && (forall c :: c in s[..n] ==> !stop(c)) && (n < |s| ==> stop(s[n]))
  {
    if s == [] || stop(s[0]) then 0
    else
      var n := Span(s[1..], stop);
      assert s[..n + 1] == [s[0]] + s[1..][..n];
      n + 1
  }

  /** The match of the pattern at the start of a string. Alternatives are tried in order, repetitions are greedy. */
  function MatchAt(s: string): (m: Option<Field>)
    ensures m.Some? ==> m.value.WellFormed() && m.value.Text() <= s && m.value.Text() != []
  {
    if s == [] then None
    else if s[0] == '\"' then
      var n := Span(s[1..], c => c == '\"');
      if n == |s[1..]| then None else
        assert s == "\"" + s[1..][..n] + "\"" + s[1..][n + 1..];
        Some(Quoted(s[1..][..n]))
    else if IsWord(s[0]) then
      assert s[..Span(s, EndsWord)][0] == s[0];
      Some(Plain(s[..Span(s, EndsWord)]))
    else if s[0] == '?' then Some(Plain("?"))
    else None
  }

  /** All matches from left to right, each search starting where the last match ended. */
  function Tokens(s: string): seq<Field> {
    if s == [] then []
    else
      var m := MatchAt(s);
      if m.None? then Tokens(s[1..]) else [m.value] + Tokens(s[|m.value.Text()|..])
  }

  /** The fields separated by commas. */
  function Row(fs: seq<Field>): string {
    if fs == [] then ""
    else if |fs| == 1 then fs[0].Text()
    else fs[0].Text() + "," + Row(fs[1..])
  }

  lemma {:induction false} TokensWellFormed(s: string)
    ensures forall f :: f in Tokens(s) ==> f.WellFormed()
    decreases |s|
  {
    if s != [] {
      var m := MatchAt(s);
      TokensWellFormed(if m.None? then s[1..] else s[|m.value.Text()|..]);
    }
  }

  lemma SpanIs(s: string, stop: char -> bool, n: nat)
    requires n <= |s| && (forall c :: c in s[..n] ==> !stop(c)) && (n < |s| ==> stop(s[n]))
    ensures Span(s, stop) == n
  {
    var k := Span(s, stop);
    assert forall i :: 0 <= i < n ==> s[i] in s[..n];
    assert forall i :: 0 <= i < k ==> s[i] in s[..k];
  }

  /** A well-formed field before a comma or at the end of a row is matched whole. */
  lemma FieldMatches(f: Field, rest: string)
    requires f.WellFormed() && (rest == [] || rest[0] == ',')
    ensures MatchAt(f.Text() + rest) == Some(f)
  {
    var s := f.Text() + rest;
    match f {
      case Quoted(c) =>
        assert s[1..] == c + "\"" + rest;
        assert s[1..][..|c|] == c;
        SpanIs(s[1..], x => x == '\"', |c|);
      case Plain(t) =>
        if t != "?" {
          assert s[..|t|] == t;
          SpanIs(s, EndsWord, |t|);
        }
    }
  }

  lemma FirstToken(f: Field, rest: string)
    requires f.WellFormed() && (rest == [] || rest[0] == ',')
    ensures Tokens(f.Text() + rest) == [f] + Tokens(rest)
  {
    FieldMatches(f, rest);
    assert (f.Text() + rest)[|f.Text()|..] == rest;
  }

  lemma AfterComma(rest: string)
    ensures Tokens("," + rest) == Tokens(rest)
  {
    assert ("," + rest)[1..] == rest;
  }

  lemma FieldAndComma(f: Field, rest: string)
    requires f.WellFormed()
    ensures Tokens(f.Text() + "," + rest) == [f] + Tokens(rest)
  {
    FirstToken(f, "," + rest);
    AfterComma(rest);
    Regroup(f.Text(), ",", rest);
  }

  lemma LastToken(f: Field)
    requires f.WellFormed()
    ensures Tokens(f.Text()) == [f]
  {
    FirstToken(f, "");
    assert f.Text() + "" == f.Text();
  }

  lemma {:induction false} RowTokens(fs: seq<Field>)
    requires forall f :: f in fs ==> f.WellFormed()
    ensures Tokens(Row(fs)) == fs
  {
    if fs == [] {
    } else if |fs| == 1 {
      LastToken(fs[0]);
    } else {
      RowTokens(fs[1..]);
      FieldAndComma(fs[0], Row(fs[1..]));
    }
  }

  /** A row is split back into the fields it was made of exactly when all of them are well formed. */
  lemma RoundTrip(fs: seq<Field>)
    ensures Tokens(Row(fs)) == fs <==> forall f :: f in fs ==> f.WellFormed()
  {
    if forall f :: f in fs ==> f.WellFormed() {
      RowTokens(fs);
    }
    TokensWellFormed(Row(fs));
  }

  /** A minus sign in front of a field is lost, wherever the field stands in the row. */
  lemma {:induction false} MinusIsDropped(a: seq<Field>, t: string, b: seq<Field>)
    requires forall f :: f in a + [Plain(t)] + b ==> f.WellFormed()
    ensures Tokens(Row(a + [Plain("-" + t)] + b)) == a + [Plain(t)] + b
  {
    var fs, gs := a + [Plain("-" + t)] + b, a + [Plain(t)] + b;
    if a == [] {
      RowTokens(gs);
      assert gs[0] == Plain(t) && fs[0] == Plain("-" + t);
      assert gs[1..] == fs[1..] == b;
      MinusInFront(t, b);
      assert fs == [Plain("-" + t)] + b && gs == [Plain(t)] + b;
    } else {
      assert fs[1..] == a[1..] + [Plain("-" + t)] + b;
      assert gs == [a[0]] + (a[1..] + [Plain(t)] + b);
      MinusIsDropped(a[1..], t, b);
      assert fs[0] == a[0] && a[0] in gs;
      FieldAndComma(a[0], Row(fs[1..]));
    }
  }

  lemma MinusInFront(t: string, b: seq<Field>)
    ensures Tokens(Row([Plain("-" + t)] + b)) == Tokens(Row([Plain(t)] + b))
  {
    var fs, gs := [Plain("-" + t)] + b, [Plain(t)] + b;
    assert fs[1..] == b && gs[1..] == b;
    assert Row(fs) == "-" + Row(gs) by {
      if b != [] {
        assert "-" + t + "," + Row(b) == "-" + (t + "," + Row(b));
      }
    }
    assert ("-" + Row(gs))[1..] == Row(gs);
    assert MatchAt(Row(fs)) == None;
  }

  // ----- reading a row into values ------------------------------------------

  datatype Value = StringValue(s: string) | IntValue(n: int) | FloatValue(x: real) | BoolValue(b: bool)

  datatype Kind = StringKind | IntKind | FloatKind | BoolKind | AnyKind | Unsupported

  /** A variable that a column is read into. */
  class Destination {
    const kind: Kind
    var value: Value

    constructor (kind: Kind, value: Value)
      ensures this.kind == kind && this.value == value
    {
      this.kind, this.value := kind, value;
    }
  }

  datatype Outcome = Done | WrongColumns(columns: nat, arguments: nat) | NotAnInt | NotAFloat | NotABool | UnsupportedArgument

  function TrimQuotes(s: string): string {
    if s != [] && s[0] == '\"' then TrimQuotes(s[1..])
    else if s != [] && s[|s| - 1] == '\"' then TrimQuotes(s[..|s| - 1])
    else s
  }

  /** What is parsed as a number or a truth value. */
  function PrimitiveValue(f: Field): string {
    TrimSpace(TrimQuotes(f.Text()))
  }

  /** What a field gives a destination of some kind. How floating-point numbers are parsed is a parameter. */
  function Reading(f: Field, kind: Kind, parseFloat: string -> Option<real>): (Option<Value>, Outcome) {
    match kind
    case StringKind => (Some(StringValue(if f.IsNull() || f.Quoted? then f.Inner() else f.Text())), Done)
    case AnyKind => (Some(StringValue(if f.IsNull() || f.Quoted? then f.Inner() else f.Text())), Done)
    case IntKind =>
      if f.IsNull() then (Some(IntValue(0)), Done) else
        var v := ParseInt(PrimitiveValue(f));
        if v.Some? then (Some(IntValue(v.value)), Done) else (None, NotAnInt)
    case FloatKind =>
      if f.IsNull() then (Some(FloatValue(0.0)), Done) else
        var v := parseFloat(PrimitiveValue(f));
        if v.Some? then (Some(FloatValue(v.value)), Done) else (None, NotAFloat)
    case BoolKind =>
      if f.IsNull() then (Some(BoolValue(false)), Done) else
        var v := ParseBool(PrimitiveValue(f));
        if v.Some? then (Some(BoolValue(v.value)), Done) else (None, NotABool)
    case Unsupported => (None, UnsupportedArgument)
  }

  /** The number of leading fields that their destinations can take. */
  ghost function Readable(ts: seq<Field>, dest: seq<Destination>, parseFloat: string -> Option<real>): (k: nat)
    requires |ts| == |dest|
    ensures k <= |ts| && (k < |ts| ==> Reading(ts[k], dest[k].kind, parseFloat).0.None?)
    ensures forall i :: 0 <= i < k ==> Reading(ts[i], dest[i].kind, parseFloat).0.Some?
  {
    if ts == [] || Reading(ts[0], dest[0].kind, parseFloat).0.None? then 0
    else Readable(ts[1..], dest[1..], parseFloat) + 1
  }

  /** The value of `d` after the first `k` fields were read: that of the last field read into `d`. */
  ghost function After(ts: seq<Field>, dest: seq<Destination>, parseFloat: string -> Option<real>,
                       k: nat, d: Destination, was: Value): Value
    requires |ts| == |dest| && k <= Readable(ts, dest, parseFloat)
  {
    if k == 0 then was
    else if dest[k - 1] == d then Reading(ts[k - 1], d.kind, parseFloat).0.value
    else After(ts, dest, parseFloat, k - 1, d, was)
  }

  lemma ReadableIs(ts: seq<Field>, dest: seq<Destination>, parseFloat: string -> Option<real>, k: nat)
    requires |ts| == |dest| && k < |ts| && k <= Readable(ts, dest, parseFloat)
    ensures Reading(ts[k], dest[k].kind, parseFloat).0.None? <==> k == Readable(ts, dest, parseFloat)
  {
  }

  /**
   * Reads a row into variables, column by column, up to the first column its
   * variable cannot take. The columns before that one have been read then. Two
   * columns may be read into the same variable.
   */
  method ParseIntoValues(row: string, dest: seq<Destination>, parseFloat: string -> Option<real>) returns (o: Outcome)
    modifies dest
    ensures |Tokens(row)| != |dest| ==> o == WrongColumns(|Tokens(row)|, |dest|) && forall d :: d in dest ==> d.value == old(d.value)
    ensures |Tokens(row)| == |dest| ==>
      var k := Readable(Tokens(row), dest, parseFloat);
      && o == (if k == |dest| then Done else Reading(Tokens(row)[k], dest[k].kind, parseFloat).1)
      && forall d :: d in dest ==> d.value == After(Tokens(row), dest, parseFloat, k, d, old(d.value))
  {
    var matches := Tokens(row);
    if |matches| != |dest| {
      return WrongColumns(|matches|, |dest|);
    }
    for i := 0 to |matches|
      invariant i <= Readable(matches, dest, parseFloat)
      invariant forall d :: d in dest ==> d.value == After(matches, dest, parseFloat, i, d, old(d.value))
    {
      ReadableIs(matches, dest, parseFloat, i);
      var (v, outcome) := Reading(matches[i], dest[i].kind, parseFloat);
      if v.None? {
        return outcome;
      }
      dest[i].value := v.value;
    }
    o := Done;
  }

  /** What a field is read as by a string: its text, or what is inside its quotes, and nothing for NULL. */
  function Printed(f: Field): string {
    if f.IsNull() then "" else if f.Quoted? then f.content else f.text
  }

  /** Strings come back as they were printed, NULL as the empty string. */
  lemma StringsComeBack(fs: seq<Field>, dest: seq<Destination>, parseFloat: string -> Option<real>)
    requires (forall f :: f in fs ==> f.WellFormed()) && |dest| == |fs|
    requires forall d :: d in dest ==> d.kind == StringKind
    ensures Tokens(Row(fs)) == fs && Readable(fs, dest, parseFloat) == |fs|
    ensures forall i :: 0 <= i < |fs| ==> Reading(fs[i], dest[i].kind, parseFloat).0 == Some(StringValue(Printed(fs[i])))
  {
    RoundTrip(fs);
    assert forall i :: 0 <= i < |fs| ==> dest[i] in dest;
  }

  /** A variable that only column `i` is read into ends up with that column. */
  lemma {:induction false} AfterOwnColumn(ts: seq<Field>, dest: seq<Destination>, parseFloat: string -> Option<real>,
        k: nat, i: nat, was: Value)
    requires |ts| == |dest| && i < k <= Readable(ts, dest, parseFloat)
    requires forall j :: 0 <= j < |dest| && j != i ==> dest[j] != dest[i]
    ensures Reading(ts[i], dest[i].kind, parseFloat).0 == Some(After(ts, dest, parseFloat, k, dest[i], was))
  {
    if i < k - 1 {
      AfterOwnColumn(ts, dest, parseFloat, k - 1, i, was);
    }
  }

  /** Reading a printed row into distinct strings gives every column as it was printed. */
  method ReadPrinted(fs: seq<Field>, dest: seq<Destination>, parseFloat: string -> Option<real>) returns (o: Outcome)
    requires (forall f :: f in fs ==> f.WellFormed()) && |dest| == |fs|
    requires forall d :: d in dest ==> d.kind == StringKind
    requires forall i, j :: 0 <= i < j < |dest| ==> dest[i] != dest[j]
    modifies dest
    ensures o == Done && forall i :: 0 <= i < |fs| ==> dest[i].value == StringValue(Printed(fs[i]))
  {
    StringsComeBack(fs, dest, parseFloat);
    o := ParseIntoValues(Row(fs), dest, parseFloat);
    forall i | 0 <= i < |fs| ensures dest[i].value == StringValue(Printed(fs[i])) {
      AfterOwnColumn(fs, dest, parseFloat, |fs|, i, old(dest[i].value));
      assert dest[i] in dest;
    }
  }

  function Abs(n: int): nat {
    if n < 0 then -n else n
  }

  lemma {:induction false} NoQuotes(t: string)
    requires '\"' !in t
    ensures TrimQuotes(t) == t && TrimQuotes("\"" + t + "\"") == t
  {
    assert ("\"" + t + "\"")[1..] == t + "\"";
    assert (t + "\"")[..|t|] == t;
    assert TrimQuotes("\"" + t + "\"") == TrimQuotes(t + "\"");
    if t != [] {
      assert t[0] in t && t[|t| - 1] in t;
      assert (t + "\"")[0] == t[0];
    }
  }

  lemma DecimalIsPlain(n: int)
    ensures Trimmed(Decimal(n)) && '\"' !in Decimal(n)
    ensures n >= 0 ==> Plain(Decimal(n)).WellFormed() && Decimal(n) != "?"
  {
    var s := Decimal(Abs(n));
    DecimalDigits(Abs(n));
    assert s[0] in s && s[|s| - 1] in s;
  }

  /** An integer in quotes is read back. */
  lemma QuotedInteger(n: int, parseFloat: string -> Option<real>)
    requires IsInt64(n)
    ensures Quoted(Decimal(n)).WellFormed() && Reading(Quoted(Decimal(n)), IntKind, parseFloat) == (Some(IntValue(n)), Done)
  {
    DecimalIsPlain(n);
    NoQuotes(Decimal(n));
    TrimmedStays(Decimal(n));
    ParseIntOfDecimal(n);
  }

  lemma PlainInteger(n: nat, parseFloat: string -> Option<real>)
    ensures Reading(Plain(Decimal(n)), IntKind, parseFloat) == if IsInt64(n) then (Some(IntValue(n)), Done) else (None, NotAnInt)
  {
    var t := Decimal(n);
    DecimalIsPlain(n);
    NoQuotes(t);
    TrimmedStays(t);
    DecimalDigits(n);
    assert t[0] in t;
    assert ParseInt(t) == if IsInt64(n) then Some(n) else None;
  }

  lemma UnquotedTokens(a: seq<Field>, n: int, b: seq<Field>)
    requires forall f :: f in a + b ==> f.WellFormed()
    ensures Tokens(Row(a + [Plain(Decimal(n))] + b)) == a + [Plain(Decimal(Abs(n)))] + b
  {
    var t := Decimal(Abs(n));
    assert Plain(t).WellFormed() by {
      DecimalIsPlain(Abs(n));
    }
    assert forall f :: f in a + [Plain(t)] + b ==> f in a + b || f == Plain(t);
    if n < 0 {
      assert Decimal(n) == "-" + t;
      MinusIsDropped(a, t, b);
    } else {
      RowTokens(a + [Plain(t)] + b);
    }
  }

  /**
   * An integer without quotes, in any column, is read as its absolute value. So
   * it is read back exactly when it is not negative.
   */
  lemma UnquotedInteger(a: seq<Field>, n: int, b: seq<Field>, parseFloat: string -> Option<real>)
    requires IsInt64(n) && forall f :: f in a + b ==> f.WellFormed()
    ensures var ts := Tokens(Row(a + [Plain(Decimal(n))] + b));
      && ts == a + [Plain(Decimal(Abs(n)))] + b
      && Reading(ts[|a|], IntKind, parseFloat) == (if IsInt64(Abs(n)) then (Some(IntValue(Abs(n))), Done) else (None, NotAnInt))
      && (Reading(ts[|a|], IntKind, parseFloat).0 == Some(IntValue(n)) <==> n >= 0)
  {
    UnquotedTokens(a, n, b);
    PlainInteger(Abs(n), parseFloat);
  }

  // ----- what the other kinds of variables take -----------------------------

  /** The fields that a row is split into: NULL, quoted strings, and text that begins with a letter, a digit or an underscore. */
  lemma FieldsExactly(f: Field)
    ensures f.WellFormed() <==>
      match f
      case Quoted(c) => '\"' !in c
      case Plain(t) => t == "?" || (t != "" && '\"' !in t && ',' !in t
                                    && ('0' <= t[0] <= '9' || 'a' <= t[0] <= 'z' || 'A' <= t[0] <= 'Z' || t[0] == '_'))
  {
    if f.Plain? && f.text != "" && f.text != "?" {
      assert forall c :: c in f.text ==> (EndsWord(c) <==> c == '\"' || c == ',');
    }
  }

  /** NULL gives every kind of variable its zero value. */
  lemma NullReads(parseFloat: string -> Option<real>)
    ensures Reading(Plain("?"), StringKind, parseFloat) == (Some(StringValue("")), Done)
    ensures Reading(Plain("?"), AnyKind, parseFloat) == (Some(StringValue("")), Done)
    ensures Reading(Plain("?"), IntKind, parseFloat) == (Some(IntValue(0)), Done)
    ensures Reading(Plain("?"), FloatKind, parseFloat) == (Some(FloatValue(0.0)), Done)
    ensures Reading(Plain("?"), BoolKind, parseFloat) == (Some(BoolValue(false)), Done)
  {
  }

  /** Variables of any type take text like strings do, others fail. */
  lemma TextReads(t: string, parseFloat: string -> Option<real>)
    requires t != "?"
    ensures forall k :: k in {StringKind, AnyKind} ==>
      Reading(Plain(t), k, parseFloat) == Reading(Quoted(t), k, parseFloat) == (Some(StringValue(t)), Done)
    ensures Reading(Plain(t), Unsupported, parseFloat) == Reading(Quoted(t), Unsupported, parseFloat) == (None, UnsupportedArgument)
  {
  }

  lemma PrimitiveIs(t: string)
    requires '\"' !in t && Trimmed(t)
    ensures PrimitiveValue(Plain(t)) == t == PrimitiveValue(Quoted(t))
  {
    NoQuotes(t);
    TrimmedStays(t);
  }

  /** Truth values are read back, in quotes or without, and other words are an error. */
  lemma TruthReads(t: string, parseFloat: string -> Option<real>)
    requires '\"' !in t && Trimmed(t) && t != "?"
    ensures Reading(Plain(t), BoolKind, parseFloat) == Reading(Quoted(t), BoolKind, parseFloat)
    ensures Reading(Plain(t), BoolKind, parseFloat)
         == if t in ["1", "t", "T", "true", "TRUE", "True"] then (Some(BoolValue(true)), Done)
            else if t in ["0", "f", "F", "false", "FALSE", "False"] then (Some(BoolValue(false)), Done)
            else (None, NotABool)
  {
    PrimitiveIs(t);
  }

  /** Floating-point numbers are read as they are parsed, in quotes or without. */
  lemma FloatReads(t: string, parseFloat: string -> Option<real>)
    requires '\"' !in t && Trimmed(t) && t != "?"
    ensures Reading(Plain(t), FloatKind, parseFloat) == Reading(Quoted(t), FloatKind, parseFloat)
    ensures Reading(Plain(t), FloatKind, parseFloat)
         == if parseFloat(t).Some? then (Some(FloatValue(parseFloat(t).value)), Done) else (None, NotAFloat)
  {
    PrimitiveIs(t);
  }

  // ----- the rows of a result -----------------------------------------------

  /** The rows that a query printed, and how far they were read. */
  class QueryResults {
    const rows: seq<string>
    var index: int

    ghost predicate Valid()
      reads this
    {
      -1 <= index && (index < |rows| || rows == [])  && (rows == [] ==> index == -1)
    }

    /** The rows still to come. */
    ghost function Remaining(): seq<string>
      reads this
      requires Valid()
    {
      rows[index + 1..]
    }

    constructor (rows: seq<string>)
      ensures Valid() && Remaining() == rows
    {
      this.rows, index := rows, -1;
    }

    /** Goes to the next row, if there is one. */
    method Next() returns (more: bool)
      requires Valid()
      modifies this
      ensures Valid() && more == (old(Remaining()) != [])
      ensures more ==> index >= 0 && rows[index] == old(Remaining())[0] && Remaining() == old(Remaining())[1..]
      ensures !more ==> index == old(index)
    {
      if index == |rows| - 1 {
        return false;
      }
      index := index + 1;
      more := true;
    }

    /** Reads the current row; an error before the first call of Next. */
    method ReadRow(dest: seq<Destination>, parseFloat: string -> Option<real>) returns (o: Option<Outcome>)
      requires Valid()
      modifies dest
      ensures o.None? <==> index == -1
      ensures o.None? ==> forall d :: d in dest ==> d.value == old(d.value)
      ensures o.Some? && |Tokens(rows[index])| != |dest| ==> o.value.WrongColumns?
      ensures o.Some? && |Tokens(rows[index])| == |dest| ==>
        var ts := Tokens(rows[index]);
        var k := Readable(ts, dest, parseFloat);
        && o.value == (if k == |dest| then Done else Reading(ts[k], dest[k].kind, parseFloat).1)
        && forall d :: d in dest ==> d.value == After(ts, dest, parseFloat, k, d, old(d.value))
    {
      if index <= -1 {
        return None;
      }
      if index >= |rows| {
        return None;
      }
      var outcome := ParseIntoValues(rows[index], dest, parseFloat);
      o := Some(outcome);
    }
  }
}
