/** Scalars and folded lines as they are written into a canonical layout, and how they read back. */
module YamlScalars {
  import opened Text
  import opened YamlReader
  import opened YamlComments
  import opened YamlRoundTrip

  // ---------- how they are written ----------

  function NumberText(negative: bool, whole: string, fraction: string): string {
    (if negative then "-" else "") + whole + (if fraction == "" then "" else "." + fraction)
  }

  /** The lines with one blank between them. */
  function OnOneLine(lines: seq<string>): string {
    if lines == [] then "" else if |lines| == 1 then lines[0] else lines[0] + " " + OnOneLine(lines[1..])
  }

  function EscapeNewlines(s: string): string {
    if s == "" then "" else (if s[0] == '\n' then "\\n" else [s[0]]) + EscapeNewlines(s[1..])
  }

  function EscapeQuotes(s: string): string {
    if s == "" then "" else (if s[0] == '"' then "\\\"" else [s[0]]) + EscapeQuotes(s[1..])
  }

  function Escaped(s: string): string {
    EscapeQuotes(EscapeNewlines(s))
  }

  function Quote(s: string): string {
    "\"" + Escaped(s) + "\""
  }

  function Single(s: string): string {
    "'" + s + "'"
  }

  predicate IsDigit(c: char) {
    '0' <= c <= '9'
  }

  predicate NumberOk(whole: string, fraction: string) {
    Digits(whole) && (fraction == "" || Digits(fraction))
  }

  /** Words separated by single or more blanks, starting with a letter, and none of the three that mean something. */
  predicate WordOk(s: string) {
    && s != "" && ('a' <= s[0] <= 'z' || 'A' <= s[0] <= 'Z') && s[|s| - 1] != ' '
    && (forall c | c in s :: PlainKeyChar(c) || c == ' ')
    && s != "null" && s != "true" && s != "false"
  }

  // ---------- what reads back ----------

  /** Two characters next to each other. */
  predicate HasPair(s: string, a: char, b: char) {
    exists i :: 0 <= i < |s| - 1 && s[i] == a && s[i + 1] == b
  }

  /** A backslash right before an `n`, which the reader takes for a line break. */
  predicate HasEscape(s: string) {
    HasPair(s, '\\', 'n')
  }

  /** Nothing is lost when white space at the ends of the one line is cut off: neither the first nor the last of folded
      lines is blank, and the first is not indented. */
  predicate FoldsWhole(lines: seq<string>) {
    lines == [] || lines == [""] || (lines[0] != "" && !IsSpace(lines[0][0]) && lines[|lines| - 1] != "")
  }

  // ---------- quoting and unquoting ----------

  lemma PairStep(s: string, a: char, b: char)
    requires s != ""
    ensures HasPair(s, a, b) <==> (|s| > 1 && s[0] == a && s[1] == b) || HasPair(s[1..], a, b)
  {
    if HasPair(s, a, b) {
      var i :| 0 <= i < |s| - 1 && s[i] == a && s[i + 1] == b;
      assert i > 0 ==> s[1..][i - 1] == a && s[1..][i] == b;
    }
    if HasPair(s[1..], a, b) {
      var i :| 0 <= i < |s[1..]| - 1 && s[1..][i] == a && s[1..][i + 1] == b;
      assert s[i + 1] == a && s[i + 2] == b;
    }
  }

  /** Replacing pairs leaves a text alone exactly when there are none, and makes it shorter otherwise. */
  lemma {:induction false} ReplaceIff(s: string, a: char, b: char, c: char)
    ensures |ReplacePair(s, a, b, c)| <= |s|
    ensures HasPair(s, a, b) ==> |ReplacePair(s, a, b, c)| < |s|
    ensures !HasPair(s, a, b) ==> ReplacePair(s, a, b, c) == s
    decreases |s|
  {
    if s != "" {
      PairStep(s, a, b);
      if |s| >= 2 && s[0] == a && s[1] == b {
        ReplaceIff(s[2..], a, b, c);
      } else {
        ReplaceIff(s[1..], a, b, c);
        assert s == [s[0]] + s[1..];
      }
    }
  }

  lemma {:induction false} NewlinesBackIff(s: string)
    ensures ReplacePair(EscapeNewlines(s), '\\', 'n', '\n') == s <==> !HasEscape(s)
  {
    if s != "" {
      NewlinesBackIff(s[1..]);
      PairStep(s, '\\', 'n');
      var rest := EscapeNewlines(s[1..]);
      if s[0] == '\n' {
        assert (['\\', 'n'] + rest)[2..] == rest;
      } else {
        assert ([s[0]] + rest)[1..] == rest;
        assert |s| > 1 ==> rest != "" && (rest[0] == 'n' <==> s[1] == 'n');
      }
      assert s == [s[0]] + s[1..];
    }
  }

  lemma {:induction false} QuotesBack(s: string)
    ensures ReplacePair(EscapeQuotes(s), '\\', '"', '"') == s
    ensures s != "" ==> EscapeQuotes(s) != "" && EscapeQuotes(s)[0] != '"'
  {
    if s != "" {
      QuotesBack(s[1..]);
      var rest := EscapeQuotes(s[1..]);
      if s[0] == '"' {
        assert (['\\', '"'] + rest)[2..] == rest;
      } else {
        assert ([s[0]] + rest)[1..] == rest;
        assert |s| == 1 ==> rest == "";
      }
    }
  }

  lemma {:induction false} EscapedNewlines(s: string)
    ensures OneLine(EscapeNewlines(s))
    ensures forall c ::
      c in EscapeNewlines(s) && c != '\\' && c != 'n' <==> c in s && c != '\\' && c != 'n' && c != '\n'
    ensures s != "" ==> EscapeNewlines(s) != ""
    ensures s != "" && s[|s| - 1] != '\\' ==> EscapeNewlines(s)[|EscapeNewlines(s)| - 1] != '\\'
  {
    if s != "" {
      EscapedNewlines(s[1..]);
      assert forall c :: c in s <==> c == s[0] || c in s[1..];
    }
  }

  lemma {:induction false} EscapedQuotes(s: string)
    ensures forall c :: c in EscapeQuotes(s) && c != '\\' <==> c in s && c != '\\'
    ensures s != "" ==> EscapeQuotes(s) != ""
    ensures s != "" && s[|s| - 1] != '\\' ==> EscapeQuotes(s)[|EscapeQuotes(s)| - 1] != '\\'
  {
    if s != "" {
      EscapedQuotes(s[1..]);
      assert forall c :: c in s <==> c == s[0] || c in s[1..];
    }
  }

  lemma EscapedHas(s: string)
    ensures OneLine(Escaped(s)) && (':' in Escaped(s) <==> ':' in s)
    ensures s != "" && s[|s| - 1] != '\\' ==> Escaped(s) != "" && Escaped(s)[|Escaped(s)| - 1] != '\\'
  {
    EscapedNewlines(s);
    EscapedQuotes(EscapeNewlines(s));
    assert '\n' !in Escaped(s);
  }

  lemma {:induction false} QuotesEscaped(s: string)
    ensures forall k | 0 <= k < |EscapeQuotes(s)| && EscapeQuotes(s)[k] == '"' ::
      k > 0 && EscapeQuotes(s)[k - 1] == '\\'
  {
    if s != "" {
      QuotesEscaped(s[1..]);
      var head := if s[0] == '"' then "\\\"" else [s[0]];
      var rest := EscapeQuotes(s[1..]);
      forall k | 0 <= k < |head + rest| && (head + rest)[k] == '"' ensures k > 0 && (head + rest)[k - 1] == '\\' {
        if k >= |head| { assert rest[k - |head|] == '"' && k - |head| > 0; }
      }
    }
  }

  predicate IsMark(c: char) {
    c == '"' || c == '\''
  }

  /** Inside quotes the scanner goes over text in which every such quote has a backslash before it. */
  lemma {:induction false} ScanInside(raw: string, mark: char, i: nat, j: nat)
    requires i <= j <= |raw| && forall k | i <= k < j && raw[k] == mark :: k > 0 && raw[k - 1] == '\\'
    ensures StripFrom(raw, i, [mark]) == raw[i..j] + StripFrom(raw, j, [mark])
    decreases j - i
  {
    if i < j {
      StripStep(raw, i, [mark]);
      ScanInside(raw, mark, i + 1, j);
      OneMore(raw, i, j, StripFrom(raw, j, [mark]));
    }
  }

  lemma {:induction false} StaysOpen(raw: string, mark: char, i: nat, j: nat)
    requires i <= j <= |raw| && forall k | i <= k < j && raw[k] == mark :: k > 0 && raw[k - 1] == '\\'
    ensures OpenFrom(raw, i, [mark]) == OpenFrom(raw, j, [mark])
    decreases j - i
  {
    if i < j {
      StripStep(raw, i, [mark]);
      StaysOpen(raw, mark, i + 1, j);
    }
  }

  lemma LastQuote(q: string, mark: char)
    requires |q| >= 2 && q[|q| - 1] == mark
    ensures StripFrom(q, |q| - 1, [mark]) == [mark] && (q[|q| - 2] != '\\' ==> !OpenFrom(q, |q| - 1, [mark]))
  {
    StripStep(q, |q| - 1, [mark]);
  }

  lemma FirstQuote(q: string, mark: char)
    requires q != "" && q[0] == mark && IsMark(mark)
    ensures StripFrom(q, 0, "") == [mark] + StripFrom(q, 1, [mark]) && Balanced(q) == !OpenFrom(q, 1, [mark])
  {
    StripStep(q, 0, "");
  }

  lemma ScanQuoted(q: string, mark: char)
    requires |q| >= 2 && q[0] == mark && q[|q| - 1] == mark && IsMark(mark)
    requires forall k | 1 <= k < |q| - 1 && q[k] == mark :: q[k - 1] == '\\'
    ensures StripComment(q) == q && (q[|q| - 2] != '\\' ==> Balanced(q))
  {
    var j := |q| - 1;
    FirstQuote(q, mark);
    ScanInside(q, mark, 1, j);
    StaysOpen(q, mark, 1, j);
    LastQuote(q, mark);
    assert [mark] + (q[1..j] + [mark]) == q && !IsSpace(q[j]);
  }

  lemma QuoteShape(s: string)
    ensures var q := Quote(s); var e := Escaped(s);
      && |q| == |e| + 2 && q[0] == '"' && q[|q| - 1] == '"' && q[1..|q| - 1] == e
      && q[|q| - 2] == (if e == "" then '"' else e[|e| - 1])
      && forall k | 1 <= k < |q| - 1 :: q[k] == e[k - 1]
  {
  }

  /** The comment scanner keeps every quoted text, number signs included. It takes the quote for open behind a backslash
      at the end. */
  lemma QuotedClean(s: string)
    ensures Clean(Quote(s)) && (s == "" || s[|s| - 1] != '\\' ==> Balanced(Quote(s)))
  {
    EscapedHas(s);
    QuotesEscaped(EscapeNewlines(s));
    QuoteShape(s);
    ScanQuoted(Quote(s), '"');
    assert s == "" ==> Escaped(s) == "";
  }

  /** A quoted text reads back as the text exactly when it has no backslash before an `n`. */
  lemma QuotedReads(flow: Flow, s: string)
    ensures ParseScalar(flow, Quote(s)).YStr?
    ensures ParseScalar(flow, Quote(s)) == YStr(s) <==> !HasEscape(s)
    ensures LineOk(Quote(s)) && InQuotes(Quote(s)) && (':' in Quote(s) <==> ':' in s)
  {
    var q := Quote(s);
    EscapedHas(s);
    QuoteShape(s);
    TrimTrimmed(q);
    QuotesBack(EscapeNewlines(s));
    NewlinesBackIff(s);
    StartsOdd(q);
  }

  lemma SingleShape(s: string)
    requires '\'' !in s
    ensures var q := Single(s);
      && |q| == |s| + 2 && q[0] == '\'' && q[|q| - 1] == '\'' && q[1..|q| - 1] == s
      && q[|q| - 2] == (if s == "" then '\'' else s[|s| - 1])
      && forall k | 1 <= k < |q| - 1 :: q[k] != '\''
  {
    var q := Single(s);
    forall k | 1 <= k < |q| - 1 ensures q[k] != '\'' { assert q[k] == s[k - 1] && s[k - 1] in s; }
  }

  lemma SingleClean(s: string)
    requires OneLine(s) && '\'' !in s
    ensures Clean(Single(s)) && (s == "" || s[|s| - 1] != '\\' ==> Balanced(Single(s)))
  {
    SingleShape(s);
    ScanQuoted(Single(s), '\'');
  }

  /** Text in single quotes reads back exactly when it has no backslash before an `n` or a double quote: the reader
      treats them as escapes there too. */
  lemma SingleReads(flow: Flow, s: string)
    requires OneLine(s) && '\'' !in s
    ensures ParseScalar(flow, Single(s)).YStr?
    ensures ParseScalar(flow, Single(s)) == YStr(s) <==> !HasEscape(s) && !HasPair(s, '\\', '"')
    ensures LineOk(Single(s)) && InQuotes(Single(s)) && (':' in Single(s) <==> ':' in s)
  {
    var q := Single(s);
    SingleShape(s);
    TrimTrimmed(q);
    StartsOdd(q);
    var once := ReplacePair(s, '\\', '"', '"');
    ReplaceIff(s, '\\', '"', '"');
    ReplaceIff(once, '\\', 'n', '\n');
    assert ParseScalar(flow, q) == YStr(ReplacePair(once, '\\', 'n', '\n'));
  }

  lemma NoNumber(s: string)
    requires s != "" && !IsDigit(s[0]) && s[0] != '-'
    ensures !IsNumber(s)
  {
    assert s[0] in s;
    forall i | 0 <= i < |s| ensures !YamlReader.Digits(s[..i]) {
      assert i > 0 ==> s[..i][0] == s[0] && s[..i][0] in s[..i];
    }
  }

  lemma StartsOdd(q: string)
    requires q != "" && IsMark(q[0])
    ensures q != "null" && q != "~" && q != "true" && q != "false" && !IsNumber(q)
  {
    NoNumber(q);
  }

  lemma PlainClean(s: string)
    requires LineOk(s) && forall c | c in s :: PlainKeyChar(c) || c == ' '
    ensures Clean(s) && Balanced(s) && ':' !in s
  {
    QuietKept(s);
  }

  /** A plain word reads back as itself. */
  lemma WordReads(flow: Flow, s: string)
    requires WordOk(s)
    ensures ParseScalar(flow, s) == YStr(s) && LineOk(s) && Clean(s) && Balanced(s) && ':' !in s
  {
    assert s[0] in s && s[|s| - 1] in s;
    PlainClean(s);
    NoNumber(s);
    PlainScalar(flow, s);
  }

  /** Text that is none of the special forms is read as it is. */
  lemma PlainScalar(flow: Flow, s: string)
    requires s != "" && Trimmed(s) && !IsNumber(s) && s != "null" && s != "true" && s != "false"
    requires s[0] !in {'~', '"', '\'', '{', '['}
    ensures ParseScalar(flow, s) == YStr(s)
  {
    TrimTrimmed(s);
  }

  lemma NumberIsLine(negative: bool, whole: string, fraction: string)
    requires NumberOk(whole, fraction)
    ensures var s := NumberText(negative, whole, fraction);
      LineOk(s) && Clean(s) && Balanced(s) && ':' !in s && s[0] != '|' && s[0] != '>'
  {
    var s := NumberText(negative, whole, fraction);
    var t := whole + (if fraction == "" then "" else "." + fraction);
    assert whole[0] in whole && whole[|whole| - 1] in whole;
    assert fraction != "" ==> fraction[|fraction| - 1] in fraction;
    assert s == (if negative then "-" else "") + t && t[0] == whole[0];
    assert t[|t| - 1] == (if fraction == "" then whole[|whole| - 1] else fraction[|fraction| - 1]);
    assert forall c | c in s :: c == '-' || c == '.' || c in whole || c in fraction;
    PlainClean(s);
  }

  lemma NumberScalar(flow: Flow, s: string)
    requires s != "" && Trimmed(s) && IsNumber(s) && (s[0] == '-' || IsDigit(s[0]))
    ensures ParseScalar(flow, s) == YNum(s)
  {
    TrimTrimmed(s);
  }

  /** A decimal number, with a sign and a fraction or without, reads back with the same digits. */
  lemma NumberReads(flow: Flow, negative: bool, whole: string, fraction: string)
    requires NumberOk(whole, fraction)
    ensures var s := NumberText(negative, whole, fraction); ParseScalar(flow, s) == YNum(s)
  {
    var s := NumberText(negative, whole, fraction);
    NumberIsLine(negative, whole, fraction);
    NumberIs(negative, whole, fraction);
    NumberStarts(negative, whole, fraction);
    NumberScalar(flow, s);
  }

  lemma NumberStarts(negative: bool, whole: string, fraction: string)
    requires NumberOk(whole, fraction)
    ensures var s := NumberText(negative, whole, fraction);
      if negative then |s| >= 2 && s[0] == '-' && IsDigit(s[1]) else s != "" && IsDigit(s[0])
  {
    assert whole[0] in whole;
  }

  lemma SignedIs(negative: bool, t: string)
    requires t != "" && IsDigit(t[0])
    requires Digits(t) || exists i :: 0 <= i < |t| && t[i] == '.' && Digits(t[..i]) && Digits(t[i + 1..])
    ensures IsNumber((if negative then "-" else "") + t)
  {
    var s := (if negative then "-" else "") + t;
    assert (if s != "" && s[0] == '-' then s[1..] else s) == t;
  }

  lemma DecimalIs(negative: bool, whole: string, fraction: string)
    requires Digits(whole) && Digits(fraction)
    ensures IsNumber((if negative then "-" else "") + (whole + "." + fraction))
  {
    var t := whole + "." + fraction;
    var i := |whole|;
    assert whole[0] in whole && t[0] == whole[0];
    assert t[..i] == whole && t[i] == '.' && t[i + 1..] == fraction;
    SignedIs(negative, t);
  }

  lemma NumberIs(negative: bool, whole: string, fraction: string)
    requires NumberOk(whole, fraction)
    ensures IsNumber(NumberText(negative, whole, fraction))
  {
    var sign := if negative then "-" else "";
    if fraction == "" {
      assert whole[0] in whole;
      SignedIs(negative, whole);
      assert NumberText(negative, whole, fraction) == sign + whole;
    } else {
      DecimalIs(negative, whole, fraction);
      assert NumberText(negative, whole, fraction) == sign + (whole + "." + fraction);
    }
  }

  predicate Keyword(s: string) {
    s == "null" || s == "true" || s == "false" || s == "~"
  }

  lemma KeywordReads(flow: Flow, s: string)
    requires Keyword(s)
    ensures ParseScalar(flow, s) == if s == "null" || s == "~" then YNull else YBool(s == "true")
    ensures LineOk(s) && Clean(s) && Balanced(s) && ':' !in s && s != "|" && s != ">-"
  {
    KeywordIsPlain(s);
    QuietKept(s);
    TrimTrimmed(s);
  }

  lemma KeywordIsPlain(s: string)
    requires Keyword(s)
    ensures LineOk(s) && forall c | c in s :: PlainKeyChar(c) || c == '~'
  {
  }

  // ---------- folded lines ----------

  lemma {:induction false} OnOneLineIsJoin(lines: seq<string>)
    ensures OnOneLine(lines) == Join(lines, " ")
  {
    if |lines| > 1 { OnOneLineIsJoin(lines[1..]); }
  }

  /** The first and the last character of several lines on one. */
  lemma {:induction false} OneLineEnds(lines: seq<string>)
    requires |lines| > 1
    ensures var s := OnOneLine(lines); var first, last := lines[0], lines[|lines| - 1];
      && s != "" && s[0] == (if first == "" then ' ' else first[0])
      && s[|s| - 1] == (if last == "" then ' ' else last[|last| - 1])
  {
    var rest := OnOneLine(lines[1..]);
    var s := OnOneLine(lines);
    assert s == lines[0] + " " + rest;
    if |lines| > 2 { OneLineEnds(lines[1..]); } else { assert rest == lines[1]; }
    assert rest != "" ==> s[|s| - 1] == rest[|rest| - 1];
  }

  lemma TrimSame(s: string)
    ensures Trim(s) == s <==> Trimmed(s)
  {
    if Trim(s) == s && s != "" {
      assert !IsSpace(Trim(s)[0]) && !IsSpace(Trim(s)[|Trim(s)| - 1]);
    }
  }

  /** Folded lines without white space at their ends read back as one line exactly when it loses nothing at its ends. */
  lemma FoldedReads(lines: seq<string>)
    requires forall l | l in lines :: l == "" || !IsSpace(l[|l| - 1])
    ensures Trim(Join(lines, " ")) == OnOneLine(lines) <==> FoldsWhole(lines)
  {
    OnOneLineIsJoin(lines);
    var s := OnOneLine(lines);
    TrimSame(s);
    if lines != [] {
      assert lines[|lines| - 1] in lines;
      if |lines| == 1 { assert lines == [lines[0]] && s == lines[0]; } else { OneLineEnds(lines); }
    }
  }
}
