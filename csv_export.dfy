/**
 * The text of the CSV export: a header line, then one line per expense with
 * its date, category, quoted description and amount, joined by newlines.
 */
module CsvExport {
  import opened Wrappers
  import opened Text
  import opened Calendar
  import opened Records
  import VoiceInput

  const Header: string := "Date,Category,Description,Amount"

  /** `format(date, 'yyyy-MM-dd')`. */
  function FormatDate(d: CivilDate): string {
    PadNat(d.year, 4) + "-" + PadNat(d.month, 2) + "-" + PadNat(d.day, 2)
  }

  /** A date of a four-digit year is written in ten characters, and its three fields read back. */
  lemma DateReadBack(d: CivilDate)
    requires ValidDate(d) && d.year < 10000
    ensures var s := FormatDate(d);
      |s| == 10 && s[4] == '-' && s[7] == '-'
      && AllDigits(s[..4]) && AllDigits(s[5..7]) && AllDigits(s[8..])
      && ParseNat(s[..4]) == d.year && ParseNat(s[5..7]) == d.month && ParseNat(s[8..]) == d.day
  {
    NatToStringLength(d.year, 4);
    NatToStringLength(d.month, 2);
    NatToStringLength(d.day, 2);
    var y := PadNat(d.year, 4);
    var m := PadNat(d.month, 2);
    var dd := PadNat(d.day, 2);
    var s := FormatDate(d);
    assert s == y + "-" + m + "-" + dd;
    assert s[..4] == y && s[5..7] == m && s[8..] == dd;
    ParseNatPad(d.year, 4);
    ParseNatPad(d.month, 2);
    ParseNatPad(d.day, 2);
  }

  /** `amount.toFixed(2)` with the amount in cents: sign, whole units, '.', two digits. */
  function FormatAmount(cents: int): (s: string)
    ensures |s| >= 4 && s[|s| - 3] == '.' && IsDigit(s[|s| - 2]) && IsDigit(s[|s| - 1])
    ensures (s[0] == '-') <==> cents < 0
  {
    var m := if cents < 0 then -cents else cents;
    var body := NatToString(m / 100) + "." + PadNat(m % 100, 2);
    NatToStringLength(m % 100, 2);
    if cents < 0 then "-" + body else body
  }

  /** `replace(/"/g, '""')`. */
  function EscapeQuotes(s: string): string {
    if s == [] then []
    else (if s[0] == '"' then "\"\"" else [s[0]]) + EscapeQuotes(s[1..])
  }

  /** Escaping doubles every quote and keeps every other character: one extra character per quote. */
  lemma {:induction false} EscapeCounts(s: string)
    ensures |EscapeQuotes(s)| == |s| + CountChar(s, '"')
    ensures CountChar(EscapeQuotes(s), '"') == 2 * CountChar(s, '"')
  {
    if s != [] {
      EscapeCounts(s[1..]);
      assert s == [s[0]] + s[1..];
      CountCharAppend([s[0]], s[1..], '"');
      var head := if s[0] == '"' then "\"\"" else [s[0]];
      CountCharAppend(head, EscapeQuotes(s[1..]), '"');
      if s[0] == '"' {
        assert head[..|head| - 1] == [s[0]];
        assert [s[0]][..0] == [];
      } else {
        assert head[..0] == [];
      }
    }
  }

  /**
   * The description field: the escaped text between double quotes, which a
   * CSV reader turns back into the description.
   */
  function QuoteField(s: string): (f: string)
    ensures |f| >= 2 && f[0] == '"' && f[|f| - 1] == '"' && f[1..|f| - 1] == EscapeQuotes(s)
    ensures Unquote(f) == Some(s)
  {
    UndoubleEscape(s);
    "\"" + EscapeQuotes(s) + "\""
  }

  /** Reading a doubled quote back as one. */
  function Undouble(s: string): string {
    if s == [] then []
    else if |s| >= 2 && s[0] == '"' && s[1] == '"' then "\"" + Undouble(s[2..])
    else [s[0]] + Undouble(s[1..])
  }

  /** The inverse of `QuoteField`: strip the outer quotes and undo the doubling. */
  function Unquote(f: string): Option<string> {
    if |f| >= 2 && f[0] == '"' && f[|f| - 1] == '"' then Some(Undouble(f[1..|f| - 1])) else None
  }

  lemma {:induction false} UndoubleEscape(s: string)
    ensures Undouble(EscapeQuotes(s)) == s
  {
    if s != [] {
      UndoubleEscape(s[1..]);
      var e := EscapeQuotes(s);
      if s[0] == '"' {
        assert e == "\"\"" + EscapeQuotes(s[1..]);
        assert e[2..] == EscapeQuotes(s[1..]);
      } else {
        assert e == [s[0]] + EscapeQuotes(s[1..]);
        assert e[1..] == EscapeQuotes(s[1..]);
      }
    }
  }

  /** One expense line: date, category, quoted description and amount, comma separated. */
  function Row(e: Expense): string {
    FormatDate(e.date) + "," + e.category + "," + QuoteField(e.description) + "," + FormatAmount(e.amount)
  }

  /** `lines.join('\n')`. */
  function JoinLines(lines: seq<string>): string {
    if |lines| == 0 then ""
    else if |lines| == 1 then lines[0]
    else JoinLines(lines[..|lines| - 1]) + "\n" + lines[|lines| - 1]
  }

  function Rows(es: seq<Expense>): (rs: seq<string>)
    ensures |rs| == |es| && forall i :: 0 <= i < |es| ==> rs[i] == Row(es[i])
  {
    seq(|es|, i requires 0 <= i < |es| => Row(es[i]))
  }

  /** Lines 5-15: the file's text. */
  function CsvContent(es: seq<Expense>): string {
    JoinLines([Header] + Rows(es))
  }

  /** An empty list exports the header alone. */
  lemma CsvEmpty()
    ensures CsvContent([]) == Header
  {
    assert [Header] + Rows([]) == [Header];
  }

  /** Adding an expense at the end adds one line at the end: rows keep the input's order. */
  lemma CsvAppend(es: seq<Expense>, e: Expense)
    ensures CsvContent(es + [e]) == CsvContent(es) + "\n" + Row(e)
  {
    var lines := [Header] + Rows(es + [e]);
    assert lines[..|lines| - 1] == [Header] + Rows(es);
  }

  /**
   * The text always begins with the header line: it is the header alone for
   * no expenses, and otherwise the header is followed by a line break.
   */
  lemma {:induction false} CsvStartsWithHeader(es: seq<Expense>)
    ensures |CsvContent(es)| >= |Header| && CsvContent(es)[..|Header|] == Header
    ensures es == [] ==> CsvContent(es) == Header
    ensures es != [] ==> |CsvContent(es)| > |Header| && CsvContent(es)[|Header|] == '\n'
    decreases |es|
  {
    if es == [] {
      CsvEmpty();
    } else {
      var init := es[..|es| - 1];
      assert es == init + [es[|es| - 1]];
      CsvAppend(init, es[|es| - 1]);
      CsvStartsWithHeader(init);
      LineAfterPrefix(CsvContent(init), Row(es[|es| - 1]), Header);
    }
  }

  /** Appending a line keeps a prefix, and the break follows a text that is just that prefix. */
  lemma LineAfterPrefix(c: string, r: string, h: string)
    requires |c| >= |h| && c[..|h|] == h
    ensures |c + "\n" + r| > |h| && (c + "\n" + r)[..|h|] == h
    ensures |c| == |h| ==> (c + "\n" + r)[|h|] == '\n'
    ensures |c| > |h| ==> (c + "\n" + r)[|h|] == c[|h|]
  {
    assert (c + "\n" + r)[..|c|] == c;
  }

  /** The text never ends in a newline: it ends in the header's last letter or an amount digit. */
  lemma CsvLastCharacter(es: seq<Expense>)
    ensures |CsvContent(es)| > 0
    ensures es == [] ==> CsvContent(es)[|CsvContent(es)| - 1] == 't'
    ensures es != [] ==> IsDigit(CsvContent(es)[|CsvContent(es)| - 1])
  {
    if es == [] {
      CsvEmpty();
    } else {
      var init := es[..|es| - 1];
      var e := es[|es| - 1];
      assert es == init + [e];
      CsvAppend(init, e);
      var a := FormatAmount(e.amount);
      var pre := FormatDate(e.date) + "," + e.category + "," + QuoteField(e.description) + ",";
      assert Row(e) == pre + a;
      LastOfConcat(pre, a);
      LastOfConcat(CsvContent(init) + "\n", Row(e));
    }
  }

  predicate NoNewline(s: string) {
    forall i :: 0 <= i < |s| ==> s[i] != '\n'
  }

  lemma {:induction false} EscapeNoNewline(s: string)
    requires NoNewline(s)
    ensures NoNewline(EscapeQuotes(s))
  {
    if s != [] {
      EscapeNoNewline(s[1..]);
    }
  }

  /** A line holds no newline when its category and description hold none. */
  lemma RowNoNewline(e: Expense)
    requires NoNewline(e.category) && NoNewline(e.description)
    ensures NoNewline(Row(e))
  {
    var d, q, a := FormatDate(e.date), QuoteField(e.description), FormatAmount(e.amount);
    EscapeNoNewline(e.description);
    NoNewlineConcat("\"", EscapeQuotes(e.description));
    NoNewlineConcat("\"" + EscapeQuotes(e.description), "\"");
    var y, m, dd := PadNat(e.date.year, 4), PadNat(e.date.month, 2), PadNat(e.date.day, 2);
    NoNewlineConcat(y, "-");
    NoNewlineConcat(y + "-", m);
    NoNewlineConcat(y + "-" + m, "-");
    NoNewlineConcat(y + "-" + m + "-", dd);
    var sign := if e.amount < 0 then "-" else "";
    var n := if e.amount < 0 then -e.amount else e.amount;
    var w, f := NatToString(n / 100), PadNat(n % 100, 2);
    NoNewlineConcat(w, ".");
    NoNewlineConcat(w + ".", f);
    NoNewlineConcat(sign, w + "." + f);
    assert a == sign + (w + "." + f);
    NoNewlineConcat(d, ",");
    NoNewlineConcat(d + ",", e.category);
    NoNewlineConcat(d + "," + e.category, ",");
    NoNewlineConcat(d + "," + e.category + ",", q);
    NoNewlineConcat(d + "," + e.category + "," + q, ",");
    NoNewlineConcat(d + "," + e.category + "," + q + ",", a);
  }

  lemma LastOfConcat(a: string, b: string)
    requires b != []
    ensures (a + b)[|a + b| - 1] == b[|b| - 1]
  {
  }

  lemma NoNewlineConcat(a: string, b: string)
    requires NoNewline(a) && NoNewline(b)
    ensures NoNewline(a + b)
  {
  }

  /** n expenses whose texts hold no newline give exactly n newlines, so 1 + n lines. */
  lemma {:induction false} CsvLineCount(es: seq<Expense>)
    requires forall i :: 0 <= i < |es| ==> NoNewline(es[i].category) && NoNewline(es[i].description)
    ensures CountChar(CsvContent(es), '\n') == |es|
    decreases |es|
  {
    if es == [] {
      CsvEmpty();
      CountCharAbsent(Header, '\n');
    } else {
      var init := es[..|es| - 1];
      var e := es[|es| - 1];
      assert es == init + [e];
      CsvAppend(init, e);
      CsvLineCount(init);
      RowNoNewline(e);
      CountCharAppend(CsvContent(init) + "\n", Row(e), '\n');
      CountCharAppend(CsvContent(init), "\n", '\n');
      CountCharAbsent(Row(e), '\n');
    }
  }

  /**
   * The voice parser reads an exported non-negative amount back to the same
   * number of cents: the two decimals of the export are exactly what it
   * accepts after the point.
   */
  lemma AmountReadBack(cents: int)
    requires cents >= 0
    ensures VoiceInput.Amount(FormatAmount(cents)) == Some(cents)
  {
    var w := NatToString(cents / 100);
    var f := PadNat(cents % 100, 2);
    NatToStringLength(cents % 100, 2);
    ParseNatPad(cents % 100, 2);
    var s := FormatAmount(cents);
    assert s == w + "." + f;
    VoiceInput.ReadsWholeNumber(s, w, f);
    ParseNatToString(cents / 100);
  }

  lemma ExampleDate()
    ensures FormatDate(CivilDate(2024, 1, 5)) == "2024-01-05"
  {
    assert NatToString(2024) == "2024";
    assert PadNat(1, 2) == "01";
    assert PadNat(5, 2) == "05";
  }

  lemma ExampleAmount()
    ensures FormatAmount(1250) == "12.50"
  {
    assert NatToString(12) == "12";
    assert PadNat(50, 2) == "50";
  }

  lemma {:induction false} EscapeAppend(a: string, b: string)
    ensures EscapeQuotes(a + b) == EscapeQuotes(a) + EscapeQuotes(b)
    decreases |a|
  {
    if a == [] {
      assert a + b == b;
    } else {
      assert (a + b)[1..] == a[1..] + b;
      EscapeAppend(a[1..], b);
    }
  }

  /** A text without quotes is left as it is. */
  lemma {:induction false} EscapeNoQuote(s: string)
    requires forall i :: 0 <= i < |s| ==> s[i] != '"'
    ensures EscapeQuotes(s) == s
  {
    if s != [] {
      EscapeNoQuote(s[1..]);
    }
  }

  /** A description with one quoted word: both of its quotes are doubled. */
  lemma EscapeOneQuotedWord(a: string, b: string)
    requires forall i :: 0 <= i < |a| ==> a[i] != '"'
    requires forall i :: 0 <= i < |b| ==> b[i] != '"'
    ensures EscapeQuotes(a + "\"" + b + "\"") == a + "\"\"" + b + "\"\""
  {
    var q := "\"";
    var qq := "\"\"";
    var x1 := a + q;
    var x2 := x1 + b;
    assert EscapeQuotes(q) == qq;
    EscapeNoQuote(a);
    EscapeNoQuote(b);
    EscapeAppend(a, q);
    assert EscapeQuotes(x1) == a + qq;
    EscapeAppend(x1, b);
    assert EscapeQuotes(x2) == a + qq + b;
    EscapeAppend(x2, q);
  }

  /** The description Lunch "special" is written as "Lunch ""special""". */
  lemma ExampleDescription(d: string)
    requires d == "Lunch " + "\"" + "special" + "\""
    ensures QuoteField(d) == "\"" + ("Lunch " + "\"\"" + "special" + "\"\"") + "\""
  {
    EscapeOneQuotedWord("Lunch ", "special");
  }

  /** The worked example: an expense of 12.50 for Food on 2024-01-05 described as Lunch "special". */
  lemma WorkedExample(e: Expense)
    requires e.amount == 1250 && e.category == "Food" && e.date == CivilDate(2024, 1, 5)
    requires e.description == "Lunch " + "\"" + "special" + "\""
    // the line 2024-01-05,Food,"Lunch ""special""",12.50
    ensures Row(e) == "2024-01-05" + "," + "Food" + "," + ("\"" + ("Lunch " + "\"\"" + "special" + "\"\"") + "\"") + "," + "12.50"
  {
    ExampleDate();
    ExampleAmount();
    ExampleDescription(e.description);
  }

  /** A single expense exports as the header line and its own line. */
  lemma CsvSingle(e: Expense)
    ensures CsvContent([e]) == Header + "\n" + Row(e)
  {
    CsvEmpty();
    CsvAppend([], e);
    assert [] + [e] == [e];
  }
}
