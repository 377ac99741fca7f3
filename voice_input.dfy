/**
 * `parseVoiceInput`: the guess of amount and category drawn from a spoken
 * transcript. The transcript is lower-cased, the amount is read from the
 * first number in it, and the category from the first keyword of a fixed
 * list that the text contains.
 */
module VoiceInput {
  import opened Wrappers
  import opened Text
  import opened Records

  /** The keywords, in the order they are tried. */
  const Keywords: seq<string> := [
    "food", "lunch", "dinner", "breakfast", "transport", "uber", "taxi", "bus",
    "entertainment", "movie", "shopping", "clothes", "bills", "electricity",
    "water", "healthcare", "hospital", "medicine", "other"
  ]

  /** The keyword-to-category record; "other" has no entry. */
  const CategoryMap: map<string, string> := map[
    "lunch" := "Food", "dinner" := "Food", "breakfast" := "Food", "food" := "Food",
    "uber" := "Transport", "taxi" := "Transport", "bus" := "Transport", "transport" := "Transport",
    "movie" := "Entertainment", "entertainment" := "Entertainment",
    "clothes" := "Shopping", "shopping" := "Shopping",
    "electricity" := "Bills", "water" := "Bills", "bills" := "Bills",
    "hospital" := "Healthcare", "medicine" := "Healthcare", "healthcare" := "Healthcare"
  ]

  /** The result: the amount in cents when a number was heard, the category and the description. */
  datatype Parsed = Parsed(amount: Option<int>, category: string, description: string)

  // ---- amount ----

  /** The index of the first digit at or after `from`, or `|s|`. */
  function FirstDigit(s: string, from: nat): (i: nat)
    requires from <= |s|
    ensures from <= i <= |s|
    ensures forall k :: from <= k < i ==> !IsDigit(s[k])
    ensures i < |s| ==> IsDigit(s[i])
    decreases |s| - from
  {
    if from == |s| || IsDigit(s[from]) then from else FirstDigit(s, from + 1)
  }

  /** The end of the run of digits starting at `from`. */
  function DigitRunEnd(s: string, from: nat): (j: nat)
    requires from <= |s|
    ensures from <= j <= |s|
    ensures forall k :: from <= k < j ==> IsDigit(s[k])
    ensures j < |s| ==> !IsDigit(s[j])
    decreases |s| - from
  {
    if from == |s| || !IsDigit(s[from]) then from else DigitRunEnd(s, from + 1)
  }

  /** Group 1 of the match: a run of digits and up to two digits after a following '.'. */
  datatype Token = Token(start: nat, whole: string, fraction: string)

  /** The length of `(?:\.\d{1,2})?` right at `j`: 0, 2 or 3. */
  function FractionLength(s: string, j: nat): (n: nat)
    requires j <= |s|
    ensures n == 0 || n == 2 || n == 3
    ensures j + n <= |s|
    ensures n > 0 <==> j + 1 < |s| && s[j] == '.' && IsDigit(s[j + 1])
    ensures n == 3 <==> n > 0 && j + 2 < |s| && IsDigit(s[j + 2])
  {
    if j + 1 < |s| && s[j] == '.' && IsDigit(s[j + 1]) then
      if j + 2 < |s| && IsDigit(s[j + 2]) then 3 else 2
    else 0
  }

  /** `\d+` from `st`: the maximal run of digits there. */
  function WholePart(s: string, st: nat): (w: string)
    requires st < |s| && IsDigit(s[st])
    ensures |w| >= 1 && AllDigits(w) && st + |w| <= |s| && s[st..st + |w|] == w
    ensures st + |w| == |s| || !IsDigit(s[st + |w|])
  {
    s[st..DigitRunEnd(s, st)]
  }

  /** The digits of `(?:\.\d{1,2})?` at `j`, without the '.'. */
  function FractionPart(s: string, j: nat): (f: string)
    requires j <= |s|
    ensures AllDigits(f) && |f| <= 2
    ensures |f| == 0 <==> FractionLength(s, j) == 0
    ensures |f| > 0 ==> |f| == FractionLength(s, j) - 1 && j + 1 + |f| <= |s| && s[j] == '.' && s[j + 1..j + 1 + |f|] == f
  {
    var n := FractionLength(s, j);
    if n == 0 then "" else s[j + 1..j + n]
  }

  /** The number the pattern picks out, if the text has a digit at all. */
  function AmountToken(s: string): (t: Option<Token>)
    ensures t.None? <==> forall k :: 0 <= k < |s| ==> !IsDigit(s[k])
    ensures t.Some? ==>
      var st := t.value.start; var w := t.value.whole; var f := t.value.fraction;
      st == FirstDigit(s, 0) && |w| >= 1 && AllDigits(w) && AllDigits(f) && |f| <= 2
      && st + |w| <= |s| && s[st..st + |w|] == w
      && (st + |w| == |s| || !IsDigit(s[st + |w|]))
      && (|f| == 0 <==> FractionLength(s, st + |w|) == 0)
      && (|f| > 0 ==> (|f| == FractionLength(s, st + |w|) - 1 && st + |w| + 1 + |f| <= |s|
          && s[st + |w|] == '.' && s[st + |w| + 1..st + |w| + 1 + |f|] == f))
  {
    var st := FirstDigit(s, 0);
    if st == |s| then None
    else
      var w := WholePart(s, st);
      Some(Token(st, w, FractionPart(s, st + |w|)))
  }

  /** The decimals read, padded with zeros to exactly two places. */
  function TwoDecimals(f: string): (p: string)
    requires AllDigits(f) && |f| <= 2
    ensures |p| == 2 && AllDigits(p) && p[..|f|] == f
    ensures forall i :: |f| <= i < 2 ==> p[i] == '0'
  {
    f + seq(2 - |f|, _ => '0')
  }

  /**
   * `parseFloat(amountMatch[1])` in cents, exact because at most two decimals
   * are read: the digits of the whole part followed by the decimals padded to
   * two places, read as one number.
   */
  function TokenCents(t: Token): (c: nat)
    requires AllDigits(t.whole) && AllDigits(t.fraction) && |t.fraction| <= 2
    ensures AllDigits(t.whole + TwoDecimals(t.fraction))
    ensures c == ParseNat(t.whole + TwoDecimals(t.fraction))
    ensures c / 100 == ParseNat(t.whole)
  {
    var f := t.fraction;
    var frac := if |f| == 0 then 0
      else if |f| == 1 then 10 * DigitValue(f[0])
      else ParseNat(f);
    var p := TwoDecimals(f);
    assert frac == 10 * DigitValue(p[0]) + DigitValue(p[1]) by {
      if |f| == 2 {
        assert p == f;
        assert f[..|f| - 1] == [f[0]];
        assert [f[0]][..0] == [];
        assert ParseNat([f[0]]) == DigitValue(f[0]);
      } else if |f| == 1 {
        assert p[0] == f[0];
      }
    }
    ParseNatSnoc(t.whole, p[0]);
    ParseNatSnoc(t.whole + [p[0]], p[1]);
    assert t.whole + p == t.whole + [p[0]] + [p[1]];
    ParseNat(t.whole) * 100 + frac
  }

  /** A text made of a digit run, '.' and two digits is read as exactly that token. */
  lemma ReadsWholeNumber(s: string, w: string, f: string)
    requires |w| >= 1 && AllDigits(w) && |f| == 2 && AllDigits(f) && s == w + "." + f
    ensures AmountToken(s) == Some(Token(0, w, f))
  {
    assert forall k :: 0 <= k < |w| ==> s[k] == w[k];
    assert FirstDigit(s, 0) == 0;
    assert !IsDigit(s[|w|]);
    assert DigitRunEnd(s, 0) == |w|;
    assert s[|w| + 1] == f[0] && s[|w| + 2] == f[1];
    assert FractionLength(s, |w|) == 3;
    assert s[..|w|] == w && s[|w| + 1..|w| + 3] == f;
  }

  function Amount(s: string): (a: Option<int>)
    ensures a.None? <==> forall k :: 0 <= k < |s| ==> !IsDigit(s[k])
  {
    match AmountToken(s)
    case None => None
    case Some(t) => Some(TokenCents(t))
  }

  // ---- the regular expression's leftmost match ----

  /** The optional prefix alternatives `spent|cost|paid|â‚¦|naira|\$|dollar`, the naira sign
   * appearing in the source as the three characters of its UTF-8 bytes read as Windows-1252. */
  const AmountPrefixes: seq<string> := ["spent", "cost", "paid", "\U{00E2}\U{201A}\U{00A6}", "naira", "$", "dollar"]

  /** The characters of `\s` in ECMAScript regular expressions. */
  predicate IsRegexSpace(c: char) {
    c == ' ' || c == '\t' || c == '\n' || c == '\U{000B}' || c == '\U{000C}' || c == '\r'
    || c == '\U{00A0}' || c == '\U{1680}' || ('\U{2000}' <= c <= '\U{200A}')
    || c == '\U{2028}' || c == '\U{2029}' || c == '\U{202F}' || c == '\U{205F}'
    || c == '\U{3000}' || c == '\U{FEFF}'
  }

  lemma PrefixesHaveNoDigit()
    ensures forall i, k :: 0 <= i < |AmountPrefixes| && 0 <= k < |AmountPrefixes[i]| ==> !IsDigit(AmountPrefixes[i][k])
  {
  }

  /**
   * A match attempt at `p`: the optional prefix `s[p..q]`, the spaces
   * `s[q..g]`, and group 1 starting at the digit `s[g]`.
   */
  ghost predicate MatchPrefixAt(s: string, p: nat, q: nat, g: nat) {
    p <= q <= g < |s|
    && (q == p || s[p..q] in AmountPrefixes)
    && (forall k :: q <= k < g ==> IsRegexSpace(s[k]))
    && IsDigit(s[g])
  }

  /**
   * Whatever position a match starts from, if it starts no later than the
   * first digit, its group 1 starts exactly at the first digit: the prefix
   * and the spaces hold no digit. A match does start at the first digit, so
   * the leftmost match reads the number at the first digit of the text.
   */
  lemma LeftmostMatchReadsFirstDigit(s: string, p: nat, q: nat, g: nat)
    requires MatchPrefixAt(s, p, q, g) && p <= FirstDigit(s, 0)
    ensures g == FirstDigit(s, 0)
    ensures FirstDigit(s, 0) < |s| && MatchPrefixAt(s, FirstDigit(s, 0), FirstDigit(s, 0), FirstDigit(s, 0))
  {
    var f := FirstDigit(s, 0);
    if q > p {
      PrefixesHaveNoDigit();
      var i :| 0 <= i < |AmountPrefixes| && AmountPrefixes[i] == s[p..q];
      forall k | p <= k < q
        ensures !IsDigit(s[k])
      {
        assert s[k] == AmountPrefixes[i][k - p];
      }
    }
    assert forall k :: p <= k < g ==> !IsDigit(s[k]);
  }

  // ---- category ----

  /** The index of the first keyword, in list order, contained in `s`; `|Keywords|` when none is. */
  function FirstKeyword(s: string, from: nat): (i: nat)
    requires from <= |Keywords|
    ensures from <= i <= |Keywords|
    ensures i < |Keywords| ==> Contains(s, Keywords[i])
    ensures forall j :: from <= j < i ==> !Contains(s, Keywords[j])
    decreases |Keywords| - from
  {
    if from == |Keywords| || Contains(s, Keywords[from]) then from else FirstKeyword(s, from + 1)
  }

  /**
   * `category.charAt(0).toUpperCase() + category.slice(1)`: a word that starts
   * with a lower-case letter comes back starting with an upper-case one, and
   * nothing but the case of the first letter changes.
   */
  function Capitalize(w: string): (r: string)
    ensures |r| == |w|
    ensures |w| > 0 ==> r[1..] == w[1..]
    ensures |w| > 0 ==> !IsLower(r[0])
    ensures |w| > 0 && IsLower(w[0]) ==> IsUpper(r[0]) && r[0] as int + 32 == w[0] as int
    ensures |w| > 0 && !IsLower(w[0]) ==> r == w
    ensures ToLower(r) == ToLower(w)
  {
    if w == [] then [] else [ToUpperChar(w[0])] + w[1..]
  }

  /** `categoryMap[category] || capitalised category`. */
  function MapCategory(keyword: string): string {
    if keyword in CategoryMap then CategoryMap[keyword] else Capitalize(keyword)
  }

  /** Lines 50-76. */
  function ParseVoiceInput(text: string): (r: Parsed)
    ensures r.description == text
  {
    var lower := ToLower(text);
    var i := FirstKeyword(lower, 0);
    var keyword := if i < |Keywords| then Keywords[i] else "other";
    Parsed(Amount(lower), MapCategory(keyword), text)
  }

  /** Every keyword maps to one of the seven category names. */
  lemma KeywordsMapToCategories()
    ensures forall i :: 0 <= i < |Keywords| ==> MapCategory(Keywords[i]) in CategoryNames
  {
    assert Capitalize("other") == "Other";
  }

  /** The category is always one of the seven names. */
  lemma CategoryAlwaysKnown(text: string)
    ensures ParseVoiceInput(text).category in CategoryNames
  {
    KeywordsMapToCategories();
    assert Capitalize("other") == "Other";
  }

  /** The keyword used is the first in list order that the lower-cased text contains; without one the category is "Other". */
  lemma CategoryFromFirstKeyword(text: string)
    ensures var lower := ToLower(text); var i := FirstKeyword(lower, 0);
      (i < |Keywords| ==> (ParseVoiceInput(text).category == MapCategory(Keywords[i])
        && forall j :: 0 <= j < i ==> !Contains(lower, Keywords[j])))
      && ((forall j :: 0 <= j < |Keywords| ==> !Contains(lower, Keywords[j])) ==> ParseVoiceInput(text).category == "Other")
  {
    OtherIsOther("other");
  }

  lemma OtherIsOther(keyword: string)
    requires keyword == "other"
    ensures MapCategory(keyword) == "Other"
  {
    assert keyword !in CategoryMap;
    assert Capitalize(keyword) == "Other";
  }

  /** "food" comes first in the list, so that any text containing it is Food whatever else it says. */
  lemma FoodWins(text: string)
    requires Contains(ToLower(text), "food")
    ensures ParseVoiceInput(text).category == "Food"
  {
    var lower := ToLower(text);
    assert Contains(lower, Keywords[0]);
    assert FirstKeyword(lower, 0) == 0;
    FoodIsFood(Keywords[0]);
  }

  lemma FoodIsFood(keyword: string)
    requires keyword == Keywords[0]
    ensures MapCategory(keyword) == "Food"
  {
  }

  /** List order, not text order: "Movie by Uber" is Transport, since "uber" precedes "movie" in the list. */
  lemma ListOrderBeatsTextOrder(text: string)
    requires text == "Movie by Uber"
    ensures ParseVoiceInput(text).category == "Transport"
  {
    LowerMovieByUber(text);
    MovieByUberCategory(text);
  }

  lemma LowerMovieByUber(text: string)
    requires text == "Movie by Uber"
    ensures ToLower(text) == "movie by uber"
  {
  }

  lemma MovieByUberCategory(text: string)
    requires ToLower(text) == "movie by uber"
    ensures ParseVoiceInput(text).category == "Transport"
  {
    UberBeforeMovie(ToLower(text));
    UberIsTransport(Keywords[5]);
  }

  lemma UberIsTransport(keyword: string)
    requires keyword == Keywords[5]
    ensures MapCategory(keyword) == "Transport"
  {
  }

  /** In "movie by uber" the first keyword in list order is "uber", the sixth. */
  lemma UberBeforeMovie(lower: string)
    requires lower == "movie by uber"
    ensures FirstKeyword(lower, 0) == 5
  {
    MissingCharBlocks(lower, Keywords[0], 0);
    MissingCharBlocks(lower, Keywords[1], 0);
    MissingCharBlocks(lower, Keywords[2], 0);
    MissingCharBlocks(lower, Keywords[3], 5);
    MissingCharBlocks(lower, Keywords[4], 0);
    assert lower[9..13] == Keywords[5];
    assert OccursAt(lower, Keywords[5], 9);
  }

  /** A word holding a character the text lacks does not occur in the text. */
  lemma MissingCharBlocks(s: string, w: string, k: nat)
    requires k < |w| && forall i :: 0 <= i < |s| ==> s[i] != w[k]
    ensures !Contains(s, w)
  {
    forall i | 0 <= i <= |s| - |w| ensures !OccursAt(s, w, i) {
      assert s[i..i + |w|][k] == s[i + k];
    }
  }

  /** Lower-casing the transcript first changes neither amount nor category. */
  lemma CaseInsensitive(text: string)
    ensures ParseVoiceInput(ToLower(text)).amount == ParseVoiceInput(text).amount
    ensures ParseVoiceInput(ToLower(text)).category == ParseVoiceInput(text).category
  {
    ToLowerIdempotent(text);
  }

  /** The amount is absent exactly when the text holds no digit. */
  lemma AmountAbsentIffNoDigit(text: string)
    ensures ParseVoiceInput(text).amount.None? <==> forall k :: 0 <= k < |text| ==> !IsDigit(text[k])
  {
    var lower := ToLower(text);
    assert forall k :: 0 <= k < |text| ==> (IsDigit(text[k]) <==> IsDigit(lower[k]));
  }
}
