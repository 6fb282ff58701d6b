/** What the comment scanner of `parseYaml` (website/app.js) keeps, and when a comment can be added. */
module YamlComments {
  import opened Text
  import opened YamlReader

  /** The scanner reaches the end of the line inside a quote. */
  predicate OpenFrom(raw: string, i: nat, quote: string)
    requires i <= |raw|
    decreases |raw| - i
  {
    if i == |raw| then quote != ""
    else !(quote == "" && raw[i] == '#') && OpenFrom(raw, i + 1, NextQuote(raw, i, quote))
  }

  /** No quote is left open. */
  predicate Balanced(line: string) {
    !OpenFrom(line, 0, "")
  }

  /** Text that the scanner keeps as it is. */
  predicate Clean(text: string) {
    OneLine(text) && StripComment(text) == text
  }

  predicate AllClean(lines: seq<string>) {
    forall l | l in lines :: Clean(l)
  }

  // ---------- the scanner ----------

  /** One step over a character that does not start a comment. */
  lemma StripStep(raw: string, i: nat, quote: string)
    requires i < |raw| && !(quote == "" && raw[i] == '#')
    ensures StripFrom(raw, i, quote) == [raw[i]] + StripFrom(raw, i + 1, NextQuote(raw, i, quote))
    ensures OpenFrom(raw, i, quote) == OpenFrom(raw, i + 1, NextQuote(raw, i, quote))
  {
  }

  lemma {:induction false} StripShorter(raw: string, i: nat, quote: string)
    requires i <= |raw|
    ensures |StripFrom(raw, i, quote)| <= |raw| - i
    ensures |StripFrom(raw, i, quote)| == |raw| - i ==> StripFrom(raw, i, quote) == raw[i..]
    decreases |raw| - i
  {
    if i < |raw| && !(quote == "" && raw[i] == '#') {
      StripStep(raw, i, quote);
      StripShorter(raw, i + 1, NextQuote(raw, i, quote));
      assert [raw[i]] + raw[i + 1..] == raw[i..];
    }
  }

  // ---------- text behind a prefix ----------

  predicate QuietChar(c: char) {
    c != '"' && c != '\'' && c != '#' && c != '\n'
  }

  /** No quote, comment or line break starts here. */
  predicate Quiet(pre: string) {
    forall c | c in pre :: QuietChar(c)
  }

  lemma {:induction false} Shift(pre: string, t: string, i: nat, quote: string)
    requires i <= |t| && (i == 0 ==> quote == "")
    ensures StripFrom(pre + t, |pre| + i, quote) == StripFrom(t, i, quote)
    ensures OpenFrom(pre + t, |pre| + i, quote) == OpenFrom(t, i, quote)
    decreases |t| - i
  {
    if i < |t| && !(quote == "" && t[i] == '#') {
      assert (pre + t)[|pre| + i] == t[i] && (i > 0 ==> (pre + t)[|pre| + i - 1] == t[i - 1]);
      StripStep(pre + t, |pre| + i, quote);
      StripStep(t, i, quote);
      Shift(pre, t, i + 1, NextQuote(t, i, quote));
    }
  }

  lemma OneMore(raw: string, i: nat, j: nat, rest: string)
    requires i < j <= |raw|
    ensures [raw[i]] + (raw[i + 1..j] + rest) == raw[i..j] + rest
  {
  }

  /** The scanner goes over a quiet part. */
  lemma {:induction false} PassQuiet(raw: string, i: nat, j: nat)
    requires i <= j <= |raw| && forall k | i <= k < j :: QuietChar(raw[k])
    ensures StripFrom(raw, i, "") == raw[i..j] + StripFrom(raw, j, "")
    decreases j - i
  {
    if i < j {
      StripStep(raw, i, "");
      PassQuiet(raw, i + 1, j);
      OneMore(raw, i, j, StripFrom(raw, j, ""));
    }
  }

  lemma {:induction false} StaysShut(raw: string, i: nat, j: nat)
    requires i <= j <= |raw| && forall k | i <= k < j :: QuietChar(raw[k])
    ensures OpenFrom(raw, i, "") == OpenFrom(raw, j, "")
    decreases j - i
  {
    if i < j {
      StripStep(raw, i, "");
      StaysShut(raw, i + 1, j);
    }
  }

  /** A quiet prefix is kept, and what follows it is read as if it stood alone. */
  lemma BehindQuiet(pre: string, t: string)
    requires Quiet(pre)
    ensures StripFrom(pre + t, 0, "") == pre + StripFrom(t, 0, "") && Balanced(pre + t) == Balanced(t)
  {
    var raw := pre + t;
    assert raw[0..|pre|] == pre && forall k | 0 <= k < |pre| :: raw[k] == pre[k] && pre[k] in pre;
    PassQuiet(raw, 0, |pre|);
    StaysShut(raw, 0, |pre|);
    Shift(pre, t, 0, "");
  }

  /** A line made of a quiet prefix and a text with some property, or of a quiet prefix alone. */
  predicate BuiltOn(p: string -> bool, l: string) {
    l == "" || (!IsSpace(l[|l| - 1]) && (Quiet(l) || exists k :: 0 <= k < |l| && BuiltAt(p, l, k)))
  }

  predicate BuiltAt(p: string -> bool, l: string, k: nat)
    requires k <= |l|
  {
    Quiet(l[..k]) && p(l[k..])
  }

  lemma CleanEnds(text: string)
    requires Clean(text) && text != ""
    ensures !IsSpace(text[|text| - 1]) && StripFrom(text, 0, "") == text
  {
    StripShorter(text, 0, "");
    assert text[0..] == text;
  }

  lemma TextKept(pre: string, t: string)
    requires Quiet(pre) && t != "" && Clean(t)
    ensures Clean(pre + t)
  {
    BehindQuiet(pre, t);
    CleanEnds(t);
    var l := pre + t;
    assert l[|l| - 1] == t[|t| - 1];
    assert OneLine(l) by { assert forall c | c in l :: c in pre || c in t; }
  }

  lemma QuietKept(l: string)
    requires Quiet(l) && (l == "" || !IsSpace(l[|l| - 1]))
    ensures Clean(l) && Balanced(l)
  {
    BehindQuiet(l, "");
    assert l + "" == l;
  }

  lemma BuiltAtClean(l: string, k: nat)
    requires k < |l| && BuiltAt(Clean, l, k)
    ensures Clean(l)
  {
    TextKept(l[..k], l[k..]);
    assert l == l[..k] + l[k..];
  }

  lemma BuiltAtBalanced(l: string, k: nat)
    requires k < |l| && BuiltAt(Balanced, l, k)
    ensures Balanced(l)
  {
    BehindQuiet(l[..k], l[k..]);
    assert l == l[..k] + l[k..];
  }

  lemma BuiltClean(l: string)
    requires BuiltOn(Clean, l)
    ensures Clean(l)
  {
    if l == "" || Quiet(l) {
      QuietKept(l);
    } else {
      var k :| 0 <= k < |l| && BuiltAt(Clean, l, k);
      BuiltAtClean(l, k);
    }
  }

  lemma BuiltBalanced(l: string)
    requires BuiltOn(Balanced, l)
    ensures Balanced(l)
  {
    if l == "" || Quiet(l) {
      QuietKept(l);
    } else {
      var k :| 0 <= k < |l| && BuiltAt(Balanced, l, k);
      BuiltAtBalanced(l, k);
    }
  }

  // ---------- comments ----------

  /** `blanks` blanks, a number sign and whatever follows it. */
  function Comment(blanks: nat, text: string): string {
    Spaces(blanks) + "#" + text
  }

  lemma {:induction false} TrimEndPad(s: string, n: nat)
    ensures TrimEnd(s + Spaces(n)) == TrimEnd(s)
  {
    if n == 0 {
      assert s + Spaces(0) == s;
    } else {
      assert (s + Spaces(n))[..|s| + n - 1] == s + Spaces(n - 1);
      TrimEndPad(s, n - 1);
    }
  }

  lemma {:induction false} BlanksThenHash(line: string, blanks: nat, text: string, j: nat)
    requires j <= blanks
    ensures StripFrom(line + Comment(blanks, text), |line| + j, "") == Spaces(blanks - j)
    decreases blanks - j
  {
    var raw := line + Comment(blanks, text);
    if j < blanks {
      assert raw[|line| + j] == ' ';
      BlanksThenHash(line, blanks, text, j + 1);
      assert [' '] + Spaces(blanks - j - 1) == Spaces(blanks - j);
    } else {
      assert raw[|line| + j] == '#';
    }
  }

  lemma {:induction false} CommentGoes(line: string, blanks: nat, text: string, i: nat, quote: string)
    requires i <= |line| && !OpenFrom(line, i, quote)
    ensures var r := StripFrom(line + Comment(blanks, text), i, quote);
      r == StripFrom(line, i, quote) || r == StripFrom(line, i, quote) + Spaces(blanks)
    decreases |line| - i
  {
    var raw := line + Comment(blanks, text);
    if i == |line| {
      BlanksThenHash(line, blanks, text, 0);
      assert Spaces(blanks) == "" + Spaces(blanks);
    } else if !(quote == "" && line[i] == '#') {
      assert raw[i] == line[i] && (i > 0 ==> raw[i - 1] == line[i - 1]);
      var q := NextQuote(line, i, quote);
      StripStep(raw, i, quote);
      StripStep(line, i, quote);
      CommentGoes(line, blanks, text, i + 1, q);
      assert [line[i]] + (StripFrom(line, i + 1, q) + Spaces(blanks))
          == [line[i]] + StripFrom(line, i + 1, q) + Spaces(blanks);
    }
  }

  /** Inside a quote the number sign is kept, with everything before it. */
  lemma {:induction false} CommentStays(line: string, blanks: nat, text: string, i: nat, quote: string)
    requires i <= |line| + blanks && if i <= |line| then OpenFrom(line, i, quote) else quote != ""
    requires quote != "" ==> |quote| == 1 && quote[0] in {'"', '\''}
    ensures |StripFrom(line + Comment(blanks, text), i, quote)| > |line| + blanks - i
    ensures StripFrom(line + Comment(blanks, text), i, quote)[|line| + blanks - i] == '#'
    decreases |line| + blanks - i
  {
    var raw := line + Comment(blanks, text);
    if i == |line| + blanks {
      assert raw[i] == '#';
    } else {
      if i < |line| {
        assert raw[i] == line[i] && (i > 0 ==> raw[i - 1] == line[i - 1]);
      } else {
        assert raw[i] == ' ' && quote != "";
      }
      StripStep(raw, i, quote);
      CommentStays(line, blanks, text, i + 1, NextQuote(raw, i, quote));
    }
  }

  lemma {:induction false} TrimEndKeeps(s: string, k: nat)
    requires k < |s| && !IsSpace(s[k])
    ensures |TrimEnd(s)| > k
    decreases |s|
  {
    if IsSpace(s[|s| - 1]) { TrimEndKeeps(s[..|s| - 1], k); }
  }

  /** A comment behind a line changes nothing exactly when the line leaves no quote open. */
  lemma CommentIgnoredIff(line: string, blanks: nat, text: string)
    ensures StripComment(line + Comment(blanks, text)) == StripComment(line) <==> Balanced(line)
  {
    if !Balanced(line) {
      CommentStays(line, blanks, text, 0, "");
      TrimEndKeeps(StripFrom(line + Comment(blanks, text), 0, ""), |line| + blanks);
      StripShorter(line, 0, "");
    } else {
      CommentGoes(line, blanks, text, 0, "");
      TrimEndPad(StripFrom(line, 0, ""), blanks);
    }
  }

  /** A line, or a line and a comment on it. */
  ghost predicate Commented(line: string, l: string) {
    l == line || (OneLine(l) && exists blanks, text :: l == line + Comment(blanks, text))
  }

  /** Comments behind any lines that leave no quote open change nothing of what the parser returns. */
  lemma CommentsIgnored(flow: Flow, lines: seq<string>, commented: seq<string>)
    requires |commented| == |lines| > 0
    requires forall i | 0 <= i < |lines| ::
      OneLine(lines[i]) && Balanced(lines[i]) && Commented(lines[i], commented[i])
    ensures ParseYaml(flow, Join(commented, "\n")) == ParseYaml(flow, Join(lines, "\n"))
  {
    forall i | 0 <= i < |lines| ensures StripComment(commented[i]) == StripComment(lines[i]) {
      if commented[i] != lines[i] {
        var blanks, text :| commented[i] == lines[i] + Comment(blanks, text);
        CommentIgnoredIff(lines[i], blanks, text);
      }
    }
    SplitJoin(lines);
    SplitJoin(commented);
    assert StripAll(commented) == StripAll(lines);
  }
}
