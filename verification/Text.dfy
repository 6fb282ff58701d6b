/** The string operations of the JavaScript runtime that several components share.
    A string is a sequence of UTF-16 code units. */
module Text {

  // ---------- white space ----------

  /** The characters `String.prototype.trim` removes and `\s` matches. */
  predicate IsSpace(c: char) {
    c in {'\t', '\n', '\U{000B}', '\U{000C}', '\r', ' ', '\U{00A0}', '\U{1680}', '\U{2028}', '\U{2029}',
          '\U{202F}', '\U{205F}', '\U{3000}', '\U{FEFF}'}
    || '\U{2000}' <= c <= '\U{200A}'
  }

  function TrimStart(s: string): (r: string)
    ensures |r| <= |s|
    ensures r != "" ==> !IsSpace(r[0])
    ensures s != "" && !IsSpace(s[0]) ==> r == s
  {
    if s != "" && IsSpace(s[0]) then TrimStart(s[1..]) else s
  }

  function TrimEnd(s: string): (r: string)
    ensures |r| <= |s| && r == s[..|r|]
    ensures r != "" ==> !IsSpace(r[|r| - 1])
    ensures s != "" && !IsSpace(s[|s| - 1]) ==> r == s
  {
    if s != "" && IsSpace(s[|s| - 1]) then TrimEnd(s[..|s| - 1]) else s
  }

  function Trim(s: string): (r: string)
    ensures |r| <= |s|
    ensures r != "" ==> !IsSpace(r[0]) && !IsSpace(r[|r| - 1])
  {
    var t := TrimEnd(s);
    TrimStartSuffix(t);
    TrimStart(t)
  }

  predicate Blank(s: string) {
    Trim(s) == ""
  }

  /** Already in trimmed form: empty, or with no white space at either end. */
  predicate Trimmed(s: string) {
    s == "" || (!IsSpace(s[0]) && !IsSpace(s[|s| - 1]))
  }

  lemma {:induction false} TrimStartSuffix(s: string)
    ensures exists k | 0 <= k <= |s| :: TrimStart(s) == s[k..]
  {
    if s != "" && IsSpace(s[0]) {
      TrimStartSuffix(s[1..]);
      var k :| 0 <= k <= |s[1..]| && TrimStart(s[1..]) == s[1..][k..];
      assert TrimStart(s) == s[k + 1..];
    } else {
      assert s == s[0..];
    }
  }

  lemma TrimTrimmed(s: string)
    requires Trimmed(s)
    ensures Trim(s) == s
  {
  }

  function Spaces(n: nat): (r: string)
    ensures |r| == n
    ensures forall i | 0 <= i < n :: r[i] == ' '
  {
    seq(n, _ => ' ')
  }

  lemma {:induction false} TrimStartPad(n: nat, t: string)
    ensures TrimStart(Spaces(n) + t) == TrimStart(t)
  {
    if n == 0 {
      assert Spaces(0) + t == t;
    } else {
      assert (Spaces(n) + t)[1..] == Spaces(n - 1) + t;
      TrimStartPad(n - 1, t);
    }
  }

  /** Indenting a trimmed, non-empty line does not change what trimming makes of it. */
  lemma TrimPad(n: nat, t: string)
    requires Trimmed(t)
    ensures Trim(Spaces(n) + t) == t
  {
    var s := Spaces(n) + t;
    if t == "" {
      assert s == Spaces(n);
      TrimEndSpaces(n);
    } else {
      assert s[|s| - 1] == t[|t| - 1];
      TrimStartPad(n, t);
    }
  }

  lemma {:induction false} TrimEndSpaces(n: nat)
    ensures TrimEnd(Spaces(n)) == ""
  {
    if n > 0 {
      assert Spaces(n)[..n - 1] == Spaces(n - 1);
      TrimEndSpaces(n - 1);
    }
  }

  // ---------- lines ----------

  function IndentOf(line: string): (n: nat)
    ensures n <= |line|
    ensures forall i | 0 <= i < n :: line[i] == ' '
    ensures n < |line| ==> line[n] != ' '
  {
    if line != "" && line[0] == ' ' then 1 + IndentOf(line[1..]) else 0
  }

  /** `s.split('\n')`. */
  function SplitLines(s: string): (r: seq<string>)
    ensures |r| >= 1
  {
    if s == "" then [""]
    else if s[0] == '\n' then [""] + SplitLines(s[1..])
    else
      var rest := SplitLines(s[1..]);
      [[s[0]] + rest[0]] + rest[1..]
  }

  /** `parts.join(sep)`. */
  function Join(parts: seq<string>, sep: string): string {
    if parts == [] then ""
    else if |parts| == 1 then parts[0]
    else parts[0] + sep + Join(parts[1..], sep)
  }

  predicate OneLine(s: string) {
    '\n' !in s
  }

  lemma {:induction false} SplitOneLine(s: string)
    requires OneLine(s)
    ensures SplitLines(s) == [s]
  {
    if s != "" {
      SplitOneLine(s[1..]);
      assert [s[0]] + s[1..] == s;
    }
  }

  lemma {:induction false} SplitAtNewline(line: string, rest: string)
    requires OneLine(line)
    ensures SplitLines(line + "\n" + rest) == [line] + SplitLines(rest)
  {
    var s := line + "\n" + rest;
    if line == "" {
      assert s[1..] == rest;
    } else {
      SplitAtNewline(line[1..], rest);
      assert s[1..] == line[1..] + "\n" + rest;
      assert [line[0]] + line[1..] == line;
    }
  }

  /** Splitting undoes joining when no part holds a line break. */
  lemma {:induction false} SplitJoin(parts: seq<string>)
    requires parts != [] && forall p | p in parts :: OneLine(p)
    ensures SplitLines(Join(parts, "\n")) == parts
  {
    if |parts| == 1 {
      SplitOneLine(parts[0]);
    } else {
      SplitJoin(parts[1..]);
      SplitAtNewline(parts[0], Join(parts[1..], "\n"));
      assert parts[0] + "\n" + Join(parts[1..], "\n") == Join(parts, "\n");
    }
  }

  /** No part of a split holds a line break, and joining undoes splitting. */
  lemma {:induction false} JoinSplit(s: string)
    ensures forall p | p in SplitLines(s) :: OneLine(p)
    ensures Join(SplitLines(s), "\n") == s
  {
    if s != "" {
      JoinSplit(s[1..]);
      var rest := SplitLines(s[1..]);
      var all := SplitLines(s);
      if s[0] == '\n' {
        assert all == [""] + rest && all[1..] == rest;
      } else {
        assert all == [[s[0]] + rest[0]] + rest[1..] && all[1..] == rest[1..];
        forall p | p in all ensures OneLine(p) {
          if p != all[0] {
            assert p in rest;
          } else {
            assert rest[0] in rest;
          }
        }
      }
    }
  }
}
