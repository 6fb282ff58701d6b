/** Rewriting one top-level field of a YAML text by the regular expression `^field:\s*[^\n]*$` with the `m` flag. */
module FieldLine {
  import opened Wrappers
  import opened Text

  /** Where `^` may match besides the start. */
  predicate IsLineTerminator(c: char) {
    c in {'\n', '\r', '\U{2028}', '\U{2029}'}
  }

  /** `[^\n]*` skipped. */
  function FromLineEnd(s: string): (r: string)
    ensures |r| <= |s| && r == s[|s| - |r|..]
  {
    if s == "" || s[0] == '\n' then s else FromLineEnd(s[1..])
  }

  /** The length of the first line with its terminator; the whole text when there is none. */
  function LineLength(s: string): (n: nat)
    ensures n <= |s| && (s != "" ==> n > 0)
  {
    if s == "" then 0 else if IsLineTerminator(s[0]) then 1 else 1 + LineLength(s[1..])
  }

  /** What follows the match when the field starts the text. The white space after the colon may include line breaks. */
  function AfterField(text: string, field: string): (r: string)
    requires field <= text
    ensures |r| <= |text| && r == text[|text| - |r|..]
  {
    var value := TrimStart(text[|field|..]);
    TrimIsSuffix(text[|field|..]);
    FromLineEnd(value)
  }

  lemma {:induction false} TrimIsSuffix(s: string)
    ensures |TrimStart(s)| <= |s| && TrimStart(s) == s[|s| - |TrimStart(s)|..]
  {
    if s != "" && IsSpace(s[0]) { TrimIsSuffix(s[1..]); }
  }

  /** `text.replace(re, line)`; None when the expression does not match. */
  function Replace(text: string, field: string, line: string): Option<string>
    decreases |text|
  {
    if field <= text then Some(line + AfterField(text, field))
    else if text == "" then None
    else
      var n := LineLength(text);
      if n == |text| && !IsLineTerminator(text[n - 1]) then None
      else match Replace(text[n..], field, line)
        case None => None
        case Some(rest) => Some(text[..n] + rest)
  }

  /** The text the expression matches. */
  function Match(text: string, field: string): Option<string>
    decreases |text|
  {
    if field <= text then Some(text[..|text| - |AfterField(text, field)|])
    else if text == "" then None
    else
      var n := LineLength(text);
      if n == |text| && !IsLineTerminator(text[n - 1]) then None else Match(text[n..], field)
  }

  /** The text in front of `AfterField` is the match. */
  lemma MatchHere(text: string, field: string)
    requires field <= text
    ensures Match(text, field).Some? && text == Match(text, field).value + AfterField(text, field)
  {
    assert text == text[..|text| - |AfterField(text, field)|] + AfterField(text, field);
  }

  /** There is another line to look at. */
  predicate GoesOn(text: string, field: string) {
    text != "" && !(field <= text) && (LineLength(text) < |text| || IsLineTerminator(text[LineLength(text) - 1]))
  }

  lemma NextLine(text: string, field: string, line: string)
    requires GoesOn(text, field)
    ensures var n := LineLength(text); var r := Replace(text[n..], field, line);
      && Match(text, field) == Match(text[n..], field)
      && Replace(text, field, line) == if r.None? then None else Some(text[..n] + r.value)
  {
  }

  lemma SameRest(text: string, n: nat, rest: string)
    requires n <= |text|
    ensures text[..n] + rest == text <==> rest == text[n..]
  {
    assert text == text[..n] + text[n..];
    if text[..n] + rest == text { assert rest == (text[..n] + rest)[n..]; }
  }

  /** Rewriting changes nothing exactly when the field already stands there in that form. */
  lemma {:induction false} UnchangedIff(text: string, field: string, line: string)
    ensures Replace(text, field, line).Some? <==> Match(text, field).Some?
    ensures Replace(text, field, line) == Some(text) <==> Match(text, field) == Some(line)
    decreases |text|
  {
    if field <= text {
      MatchHere(text, field);
      SamePrefix(line, Match(text, field).value, AfterField(text, field));
    } else if GoesOn(text, field) {
      var n := LineLength(text);
      NextLine(text, field, line);
      UnchangedIff(text[n..], field, line);
      var r := Replace(text[n..], field, line);
      if r.Some? { SameRest(text, n, r.value); }
    }
  }

  lemma SamePrefix(a: string, b: string, rest: string)
    ensures a + rest == b + rest <==> a == b
  {
    if a + rest == b + rest {
      assert |a| == |b|;
      assert a == (a + rest)[..|a|] == (b + rest)[..|b|] == b;
    }
  }

  /** The two texts differ in one place only, where the one has `old_` and the other has `new_`. */
  predicate Swapped(text: string, result: string, old_: string, new_: string, pre: string, post: string) {
    text == pre + old_ + post && result == pre + new_ + post
  }

  lemma SwappedBehind(
    first: string, text: string, result: string, old_: string, new_: string, pre: string, post: string)
    requires Swapped(text, result, old_, new_, pre, post)
    ensures Swapped(first + text, first + result, old_, new_, first + pre, post)
  {
    Extends(first, pre, old_, post);
    Extends(first, pre, new_, post);
  }

  lemma Extends(first: string, before: string, middle: string, behind: string)
    ensures first + (before + middle + behind) == first + before + middle + behind
  {
  }

  lemma SwappedHere(old_: string, new_: string, post: string)
    ensures Swapped(old_ + post, new_ + post, old_, new_, "", post)
  {
    assert "" + old_ + post == old_ + post && "" + new_ + post == new_ + post;
  }

  /** Rewriting replaces the matched text by the line and leaves the rest of the text as it is. */
  lemma {:induction false} ReplaceSplits(text: string, field: string, line: string) returns (pre: string, post: string)
    requires Replace(text, field, line).Some?
    ensures Match(text, field).Some? && (post == "" || post[0] == '\n')
    ensures Swapped(text, Replace(text, field, line).value, Match(text, field).value, line, pre, post)
    decreases |text|
  {
    if field <= text {
      pre, post := "", AfterField(text, field);
      MatchHere(text, field);
      EndsLine(TrimStart(text[|field|..]));
      SwappedHere(Match(text, field).value, line, post);
    } else {
      var n := LineLength(text);
      var rest := text[n..];
      NextLine(text, field, line);
      pre, post := ReplaceSplits(rest, field, line);
      SwappedBehind(text[..n], rest, Replace(rest, field, line).value, Match(rest, field).value, line, pre, post);
      pre := text[..n] + pre;
      assert text == text[..n] + rest;
    }
  }

  lemma {:induction false} EndsLine(s: string)
    ensures var r := FromLineEnd(s); r == "" || r[0] == '\n'
  {
    if s != "" && s[0] != '\n' { EndsLine(s[1..]); }
  }

  lemma {:induction false} SkipsLine(value: string, post: string)
    requires OneLine(value) && (post == "" || post[0] == '\n')
    ensures FromLineEnd(value + post) == post
  {
    if value == "" {
      assert value + post == post;
    } else {
      assert (value + post)[1..] == value[1..] + post;
      SkipsLine(value[1..], post);
    }
  }

  lemma LineParts(field: string, value: string, post: string)
    ensures var text := field + " " + value + post;
      field <= text && text[|field|..] == " " + (value + post) && text[..|text| - |post|] == field + " " + value
  {
  }

  lemma BehindBlank(s: string)
    requires s != "" && !IsSpace(s[0])
    ensures TrimStart(" " + s) == s
  {
    assert (" " + s)[1..] == s;
  }

  /** A field with a value on its line matches as that line. */
  lemma LineMatches(field: string, value: string, post: string)
    requires value != "" && !IsSpace(value[0]) && OneLine(value) && (post == "" || post[0] == '\n')
    ensures Match(field + " " + value + post, field) == Some(field + " " + value)
  {
    var text := field + " " + value + post;
    LineParts(field, value, post);
    BehindBlank(value + post);
    SkipsLine(value, post);
  }

  predicate NoTerminator(s: string) {
    forall c | c in s :: !IsLineTerminator(c)
  }

  lemma {:induction false} LineEndsAt(s: string)
    requires s != ""
    ensures var n := LineLength(s);
      (forall k | 0 <= k < n - 1 :: !IsLineTerminator(s[k])) && (n < |s| ==> IsLineTerminator(s[n - 1]))
  {
    if !IsLineTerminator(s[0]) && |s| > 1 {
      LineEndsAt(s[1..]);
      var n := LineLength(s);
      forall k | 0 < k < n - 1 ensures !IsLineTerminator(s[k]) { assert s[1..][k - 1] == s[k]; }
    }
  }

  lemma {:induction false} LineLengthIs(s: string, n: nat)
    requires 0 < n <= |s| && IsLineTerminator(s[n - 1]) && forall k | 0 <= k < n - 1 :: !IsLineTerminator(s[k])
    ensures LineLength(s) == n
  {
    if n > 1 { LineLengthIs(s[1..], n - 1); }
  }

  /** A first line that does not hold the field keeps its length and still does not, whatever follows it. */
  lemma FirstLineStays(text: string, field: string, rest: string)
    requires text != "" && !(field <= text) && NoTerminator(field) && IsLineTerminator(text[LineLength(text) - 1])
    ensures var n := LineLength(text); var all := text[..n] + rest;
      all != "" && !(field <= all) && LineLength(all) == n && IsLineTerminator(all[n - 1]) && all[n..] == rest
  {
    var n := LineLength(text);
    var all := text[..n] + rest;
    LineEndsAt(text);
    LineLengthIs(all, n);
    NotBefore(text[..n], field, rest);
    assert text[..n] <= text;
  }

  /** A field without line ends stands in front of a line exactly when it stands in front of it with more behind. */
  lemma NotBefore(first: string, field: string, rest: string)
    requires first != "" && NoTerminator(field) && IsLineTerminator(first[|first| - 1])
    ensures field <= first + rest <==> field <= first
  {
    var n := |first|;
    assert (first + rest)[n - 1] == first[n - 1];
    assert |field| >= n ==> field[n - 1] in field;
    assert |field| < n ==> (first + rest)[..|field|] == first[..|field|];
  }

  /** After rewriting, the field's line matches in the new form. */
  lemma {:induction false} ReplacedMatches(text: string, field: string, value: string)
    requires Replace(text, field, field + " " + value).Some? && NoTerminator(field)
    requires value != "" && !IsSpace(value[0]) && OneLine(value)
    ensures Match(Replace(text, field, field + " " + value).value, field) == Some(field + " " + value)
    decreases |text|
  {
    var line := field + " " + value;
    if field <= text {
      EndsLine(TrimStart(text[|field|..]));
      LineMatches(field, value, AfterField(text, field));
    } else {
      var n := LineLength(text);
      var rest := Replace(text[n..], field, line).value;
      LineEndsAt(text);
      ReplacedMatches(text[n..], field, value);
      FirstLineStays(text, field, rest);
    }
  }
}
