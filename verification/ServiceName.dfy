/** Name normalisation of packages/cli/src/deploy-service-yaml.ts. */
module ServiceName {
  import opened Text

  predicate IsAlnum(c: char) {
    'a' <= c <= 'z' || '0' <= c <= '9'
  }

  predicate Allowed(c: char) {
    IsAlnum(c) || c == '-'
  }

  /** `replace(/[^a-z0-9-]+/g, '-')`. */
  function Dashed(s: string): string {
    if s == "" then ""
    else if Allowed(s[0]) then [s[0]] + Dashed(s[1..])
    else if |s| > 1 && !Allowed(s[1]) then Dashed(s[1..])
    else "-" + Dashed(s[1..])
  }

  /** `replace(/^-+/, '')`. */
  function StripStart(s: string): (r: string)
    ensures r != "" ==> r[0] != '-'
    ensures |r| <= |s| && r == s[|s| - |r|..]
  {
    if s != "" && s[0] == '-' then StripStart(s[1..]) else s
  }

  /** `replace(/-+$/, '')`. */
  function StripEnd(s: string): (r: string)
    ensures r <= s && (r != "" ==> r[|r| - 1] != '-')
    ensures s != "" && s[0] != '-' ==> r != ""
  {
    if s != "" && s[|s| - 1] == '-' then StripEnd(s[..|s| - 1]) else s
  }

  /** `replace(/-+/g, '-')`. */
  function Collapsed(s: string): string {
    if s == "" then ""
    else if s[0] == '-' && |s| > 1 && s[1] == '-' then Collapsed(s[1..])
    else [s[0]] + Collapsed(s[1..])
  }

  /** `normalizeSecretRef()`; `lower` is `toLowerCase()`. */
  function NormalizeSecretRef(lower: string -> string, ref: string): string {
    Collapsed(StripEnd(StripStart(Dashed(lower(ref)))))
  }

  /** `sanitizeServiceName()` behind the normalisation. */
  function CutName(cleaned: string): string {
    var trimmed := StripEnd(if |cleaned| > 49 then cleaned[..49] else cleaned);
    if |trimmed| > 0 then trimmed else "declaragent"
  }

  /** `sanitizeServiceName()`. */
  function SanitizeServiceName(lower: string -> string, raw: string): string {
    CutName(NormalizeSecretRef(lower, raw))
  }

  // ---------- normal forms ----------

  predicate AllAllowed(s: string) {
    forall c | c in s :: Allowed(c)
  }

  predicate NoDoubleDash(s: string) {
    forall i | 0 < i < |s| :: s[i - 1] == '-' ==> s[i] != '-'
  }

  /** Lowercase letters, digits and single dashes between them. */
  predicate Normal(s: string) {
    AllAllowed(s) && NoDoubleDash(s) && (s != "" ==> s[0] != '-' && s[|s| - 1] != '-')
  }

  predicate IsServiceName(s: string) {
    Normal(s) && 0 < |s| <= 49
  }

  /** The one thing that is used of `toLowerCase()`. */
  ghost predicate LeavesLowercase(lower: string -> string) {
    forall s | AllAllowed(s) :: lower(s) == s
  }

  lemma {:induction false} DashedAllowed(s: string)
    ensures AllAllowed(Dashed(s))
  {
    if s != "" { DashedAllowed(s[1..]); }
  }

  lemma {:induction false} DashedSame(s: string)
    requires AllAllowed(s)
    ensures Dashed(s) == s
  {
    if s != "" {
      assert s[0] in s;
      DashedSame(s[1..]);
      assert s == [s[0]] + s[1..];
    }
  }

  lemma {:induction false} CollapsedEnds(s: string)
    ensures s != "" ==> Collapsed(s) != "" && Collapsed(s)[0] == s[0]
    ensures s != "" ==> Collapsed(s)[|Collapsed(s)| - 1] == s[|s| - 1]
    ensures forall c | c in Collapsed(s) :: c in s
  {
    if s != "" {
      CollapsedEnds(s[1..]);
      assert forall c | c in s[1..] :: c in s;
    }
  }

  lemma NoDoubleCons(c: char, r: string)
    requires NoDoubleDash(r) && (c == '-' && r != "" ==> r[0] != '-')
    ensures NoDoubleDash([c] + r)
  {
    assert forall i | 0 < i < |r| + 1 :: ([c] + r)[i] == r[i - 1];
  }

  lemma {:induction false} CollapsedSingle(s: string)
    ensures NoDoubleDash(Collapsed(s))
  {
    if s != "" {
      CollapsedSingle(s[1..]);
      CollapsedEnds(s[1..]);
      if !(s[0] == '-' && |s| > 1 && s[1] == '-') { NoDoubleCons(s[0], Collapsed(s[1..])); }
    }
  }

  lemma {:induction false} CollapsedSame(s: string)
    requires NoDoubleDash(s)
    ensures Collapsed(s) == s
  {
    if s != "" {
      assert forall i | 0 < i < |s[1..]| :: s[1..][i - 1] == s[i] && s[1..][i] == s[i + 1];
      CollapsedSame(s[1..]);
      assert s == [s[0]] + s[1..];
    }
  }

  lemma NormalizedIsNormal(lower: string -> string, ref: string)
    ensures Normal(NormalizeSecretRef(lower, ref))
  {
    var dashed := Dashed(lower(ref));
    DashedAllowed(lower(ref));
    var ends := StripEnd(StripStart(dashed));
    assert AllAllowed(ends) by { assert forall c | c in ends :: c in StripStart(dashed) && c in dashed; }
    assert ends != "" ==> ends[0] == StripStart(dashed)[0];
    CollapsedEnds(ends);
    CollapsedSingle(ends);
  }

  /** A name is left alone by normalisation exactly when it is normal, so normalising twice is normalising once. */
  lemma NormalizeFixpoints(lower: string -> string, s: string)
    requires LeavesLowercase(lower)
    ensures NormalizeSecretRef(lower, s) == s <==> Normal(s)
    ensures NormalizeSecretRef(lower, NormalizeSecretRef(lower, s)) == NormalizeSecretRef(lower, s)
  {
    NormalizedIsNormal(lower, s);
    if Normal(s) { NormalIsFixed(lower, s); }
    NormalIsFixed(lower, NormalizeSecretRef(lower, s));
  }

  lemma NormalIsFixed(lower: string -> string, s: string)
    requires LeavesLowercase(lower) && Normal(s)
    ensures NormalizeSecretRef(lower, s) == s
  {
    DashedSame(s);
    CollapsedSame(s);
  }

  lemma PrefixNormal(s: string, t: string)
    requires Normal(s) && t <= s && (t != "" ==> t[|t| - 1] != '-')
    ensures Normal(t)
  {
    assert forall c | c in t :: c in s;
  }

  lemma CutIsServiceName(cleaned: string)
    requires Normal(cleaned)
    ensures IsServiceName(CutName(cleaned))
  {
    var trimmed := StripEnd(if |cleaned| > 49 then cleaned[..49] else cleaned);
    PrefixNormal(cleaned, trimmed);
    Fallback();
  }

  /** The result is always a service name: non-empty, at most 49 characters, without a dash at either end or two in a
      row, although the cut comes after the collapsing. */
  lemma SanitizedIsServiceName(lower: string -> string, raw: string)
    ensures IsServiceName(SanitizeServiceName(lower, raw))
  {
    NormalizedIsNormal(lower, raw);
    CutIsServiceName(NormalizeSecretRef(lower, raw));
  }

  lemma Fallback()
    ensures IsServiceName("declaragent")
  {
    var s := "declaragent";
    assert |s| == 11;
    assert forall i | 0 <= i < 11 :: IsAlnum(s[i]) && s[i] != '-';
  }

  lemma NothingToStrip(s: string)
    requires s != "" ==> s[|s| - 1] != '-'
    ensures StripEnd(s) == s
  {
  }

  lemma CutSame(s: string)
    requires 0 < |s| <= 49 && s[|s| - 1] != '-'
    ensures CutName(s) == s
  {
    NothingToStrip(s);
  }

  lemma ServiceNameIsFixed(lower: string -> string, s: string)
    requires LeavesLowercase(lower) && IsServiceName(s)
    ensures SanitizeServiceName(lower, s) == s
  {
    NormalIsFixed(lower, s);
    CutSame(s);
  }

  /** The fixed points are exactly the service names; in particular the function is idempotent. */
  lemma SanitizeFixpoints(lower: string -> string, s: string)
    requires LeavesLowercase(lower)
    ensures SanitizeServiceName(lower, s) == s <==> IsServiceName(s)
    ensures SanitizeServiceName(lower, SanitizeServiceName(lower, s)) == SanitizeServiceName(lower, s)
  {
    var r := SanitizeServiceName(lower, s);
    SanitizedIsServiceName(lower, s);
    ServiceNameIsFixed(lower, r);
    if IsServiceName(s) { ServiceNameIsFixed(lower, s); }
  }

  // ---------- what survives ----------

  /** The words of a text, its maximal runs of lowercase letters and digits; `word` is the one being read. */
  function WordsFrom(word: string, s: string): seq<string>
    decreases |s|
  {
    if s == "" then Flush(word)
    else if IsAlnum(s[0]) then WordsFrom(word + [s[0]], s[1..])
    else Flush(word) + WordsFrom("", s[1..])
  }

  function Flush(word: string): seq<string> {
    if word == "" then [] else [word]
  }

  function Words(s: string): seq<string> {
    WordsFrom("", s)
  }

  lemma {:induction false} DashedWords(word: string, s: string)
    ensures WordsFrom(word, Dashed(s)) == WordsFrom(word, s)
    decreases |s|
  {
    if s != "" {
      if IsAlnum(s[0]) {
        DashedWords(word + [s[0]], s[1..]);
      } else if s[0] == '-' || !(|s| > 1 && !Allowed(s[1])) {
        DashedWords("", s[1..]);
      } else {
        DashedWords(word, s[1..]);
        assert WordsFrom(word, s[1..]) == Flush(word) + WordsFrom("", s[2..]) && s[1..][1..] == s[2..];
        assert WordsFrom("", s[1..]) == Flush("") + WordsFrom("", s[2..]);
      }
    }
  }

  lemma {:induction false} StripStartWords(s: string)
    ensures Words(StripStart(s)) == Words(s)
  {
    if s != "" && s[0] == '-' {
      StripStartWords(s[1..]);
      assert Words(s) == Flush("") + Words(s[1..]);
    }
  }

  lemma {:induction false} DashAtEnd(word: string, s: string)
    ensures WordsFrom(word, s + "-") == WordsFrom(word, s)
    decreases |s|
  {
    assert s != "" ==> (s + "-")[1..] == s[1..] + "-";
    if s == "" {
      assert s + "-" == "-" && "-"[1..] == "";
      assert WordsFrom(word, "-") == Flush(word) + WordsFrom("", "");
    } else if IsAlnum(s[0]) {
      DashAtEnd(word + [s[0]], s[1..]);
    } else {
      DashAtEnd("", s[1..]);
    }
  }

  lemma {:induction false} StripEndWords(s: string)
    ensures Words(StripEnd(s)) == Words(s)
  {
    if s != "" && s[|s| - 1] == '-' {
      StripEndWords(s[..|s| - 1]);
      DashAtEnd("", s[..|s| - 1]);
      assert s == s[..|s| - 1] + "-";
    }
  }

  lemma {:induction false} CollapsedWords(word: string, s: string)
    ensures WordsFrom(word, Collapsed(s)) == WordsFrom(word, s)
    decreases |s|
  {
    if s != "" {
      if IsAlnum(s[0]) {
        CollapsedWords(word + [s[0]], s[1..]);
      } else if s[0] == '-' && |s| > 1 && s[1] == '-' {
        CollapsedWords(word, s[1..]);
        assert WordsFrom(word, s[1..]) == Flush(word) + WordsFrom("", s[2..]) && s[1..][1..] == s[2..];
        assert WordsFrom("", s[1..]) == Flush("") + WordsFrom("", s[2..]);
      } else {
        CollapsedWords("", s[1..]);
      }
    }
  }

  /** A normal name is its words joined by dashes. */
  lemma {:induction false} NormalJoinsWords(word: string, s: string)
    requires AllAllowed(s) && NoDoubleDash(s) && (s != "" ==> s[|s| - 1] != '-')
    requires word == "" && s != "" ==> s[0] != '-'
    ensures Join(WordsFrom(word, s), "-") == word + s
    ensures word + s != "" ==> WordsFrom(word, s) != []
    decreases |s|
  {
    if s != "" {
      var rest := s[1..];
      assert s[0] in s && forall c | c in rest :: c in s;
      assert forall i | 0 < i < |rest| :: rest[i - 1] == s[i] && rest[i] == s[i + 1];
      if IsAlnum(s[0]) {
        NormalJoinsWords(word + [s[0]], rest);
        assert word + [s[0]] + rest == word + s;
      } else {
        assert rest != "" && rest[0] == s[1];
        NormalJoinsWords("", rest);
        assert (Flush(word) + WordsFrom("", rest))[1..] == WordsFrom("", rest);
        assert word + "-" + rest == word + s;
      }
    }
  }

  /** Normalisation keeps the words of the lowercased text, in order, and puts one dash between them. */
  lemma NormalizeJoinsWords(lower: string -> string, ref: string)
    ensures NormalizeSecretRef(lower, ref) == Join(Words(lower(ref)), "-")
  {
    var dashed := Dashed(lower(ref));
    DashedWords("", lower(ref));
    StripStartWords(dashed);
    StripEndWords(StripStart(dashed));
    CollapsedWords("", StripEnd(StripStart(dashed)));
    NormalizedIsNormal(lower, ref);
    var n := NormalizeSecretRef(lower, ref);
    NormalJoinsWords("", n);
    assert "" + n == n;
  }

  /** The cut of a normal name loses one character more at most. */
  lemma CutKeeps(joined: string)
    requires Normal(joined) && |joined| > 49
    ensures CutName(joined) <= joined && |CutName(joined)| >= 48
  {
    var cut := joined[..49];
    if cut[48] == '-' {
      NothingToStrip(cut[..48]);
      assert StripEnd(cut) == StripEnd(cut[..48]);
    } else {
      NothingToStrip(cut);
    }
  }

  lemma ShortKeeps(joined: string)
    requires Normal(joined) && |joined| <= 49
    ensures CutName(joined) == if joined == "" then "declaragent" else joined
  {
    NothingToStrip(joined);
  }

  /** A service name is cut from the words: the whole of them when they fit, a prefix otherwise, and the fallback only
      when there are none. */
  lemma SanitizeKeepsWords(lower: string -> string, raw: string)
    ensures var joined := Join(Words(lower(raw)), "-"); var r := SanitizeServiceName(lower, raw);
      && (r == "declaragent" || r <= joined)
      && (joined == "" ==> r == "declaragent")
      && (0 < |joined| <= 49 ==> r == joined)
      && (|joined| > 49 ==> r <= joined && |r| >= 48)
  {
    NormalizeJoinsWords(lower, raw);
    NormalizedIsNormal(lower, raw);
    var joined := NormalizeSecretRef(lower, raw);
    if |joined| > 49 { CutKeeps(joined); } else { ShortKeeps(joined); }
  }
}
