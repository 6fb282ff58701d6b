/** The parser of website/app.js in its own form: a shared cursor over a list of lines that it splices. */
module YamlParser {
  import opened Wrappers
  import opened Text
  import opened YamlReader

  /** One turn of the comment scanner over a character that it keeps. */
  lemma Scanned(out: string, raw: string, i: nat, quote: string)
    requires i < |raw| && !(quote == "" && raw[i] == '#')
    ensures out + StripFrom(raw, i, quote) == out + [raw[i]] + StripFrom(raw, i + 1, NextQuote(raw, i, quote))
  {
  }

  /** The loop that removes a trailing comment from one line. */
  method StripLine(raw: string) returns (r: string)
    ensures r == StripComment(raw)
  {
    var quote, out, i := "", "", 0;
    while i < |raw|
      invariant i <= |raw|
      invariant out + StripFrom(raw, i, quote) == StripFrom(raw, 0, "")
    {
      var c := raw[i];
      if quote == "" && c == '#' { break; }
      ghost var next := NextQuote(raw, i, quote);
      Scanned(out, raw, i, quote);
      if quote != "" {
        if [c] == quote && (i == 0 || raw[i - 1] != '\\') { quote := ""; }
      } else if c == '"' || c == '\'' {
        quote := [c];
      }
      assert quote == next;
      i := i + 1;
      out := out + [c];
    }
    assert out + "" == out;
    r := TrimEnd(out);
  }

  method MeasureIndent(line: string) returns (i: nat)
    ensures i == IndentOf(line)
  {
    i := 0;
    while i < |line| && line[i] == ' '
      invariant i <= |line|
      invariant i + IndentOf(line[i..]) == IndentOf(line)
    {
      assert line[i..][1..] == line[i + 1..];
      i := i + 1;
    }
  }

  method LocateColon(s: string) returns (r: int)
    ensures r == FindColon(s)
  {
    var quote, i := "", 0;
    while i < |s|
      invariant i <= |s| && FindColonFrom(s, i, quote) == FindColon(s)
    {
      var c := s[i];
      if quote != "" {
        if [c] == quote { quote := ""; }
      } else if c == '"' || c == '\'' {
        quote := [c];
      } else if c == ':' {
        return i;
      }
      i := i + 1;
    }
    r := -1;
  }

  method ReadHead(cur: string, indent: nat) returns (head: Option<(string, string)>)
    ensures head == FieldHead(cur, indent)
  {
    var curIndent := MeasureIndent(cur);
    var t := Trim(cur);
    if curIndent != indent || IsItem(t) { return None; }
    var colon := LocateColon(t);
    if colon == -1 { return None; }
    return Some((Trim(t[..colon]), Trim(t[colon + 1..])));
  }

  lemma {:induction false} DropsTo(lines: seq<string>, start: nat, i: nat)
    requires start <= i <= |lines| && (i < |lines| ==> !Blank(lines[i]))
    requires forall k | start <= k < i :: Blank(lines[k])
    ensures DropBlank(lines[start..]) == lines[i..]
    decreases i - start
  {
    if start < i {
      assert lines[start..][1..] == lines[start + 1..];
      DropsTo(lines, start + 1, i);
    }
  }

  /** The loop of `peek()`. */
  method SkipBlank(lines: seq<string>, start: nat) returns (i: nat)
    requires start <= |lines|
    ensures start <= i <= |lines| && DropBlank(lines[start..]) == lines[i..]
  {
    i := start;
    while i < |lines| && Blank(lines[i])
      invariant start <= i <= |lines|
      invariant forall k | start <= k < i :: Blank(lines[k])
    {
      i := i + 1;
    }
    DropsTo(lines, start, i);
  }

  class Parser {
    const flow: Flow
    var lines: seq<string>
    var idx: nat

    ghost predicate Valid()
      reads this
    {
      idx <= |lines|
    }

    /** The lines not read yet. */
    ghost function Rest(): seq<string>
      reads this
      requires Valid()
    {
      lines[idx..]
    }

    constructor (flow: Flow, lines: seq<string>)
      ensures Valid() && this.flow == flow && Rest() == lines
    {
      this.flow := flow;
      this.lines := lines;
      idx := 0;
    }

    method Peek() returns (found: bool)
      requires Valid()
      modifies this`idx
      ensures Valid() && Rest() == DropBlank(old(Rest())) && found == (Rest() != [])
    {
      idx := SkipBlank(lines, idx);
      found := idx < |lines|;
    }

    /** Inserts one line in front of the cursor. */
    method Splice(line: string)
      requires Valid()
      modifies this`lines
      ensures Valid() && Rest() == [line] + old(Rest())
    {
      lines := lines[..idx] + [line] + lines[idx..];
    }

    method Advance()
      requires Valid() && Rest() != []
      modifies this`idx
      ensures Valid() && Rest() == old(Rest())[1..]
    {
      idx := idx + 1;
    }

    /** Terminates although it inserts lines, and computes the specification function. */
    method ParseBlock(parent: int) returns (v: Yaml)
      requires Valid()
      modifies this
      ensures Valid() && (v, Rest()) == YamlReader.ParseBlock(flow, old(Rest()), parent)
      decreases Weight(Rest()), 2
    {
      var found := Peek();
      if !found { return YNull; }
      var trimmed := Trim(lines[idx]);
      var indent := MeasureIndent(lines[idx]);
      if indent <= parent { return YNull; }
      if IsItem(trimmed) {
        var items := ParseItems(indent);
        return YSeq(items);
      }
      if ':' in trimmed {
        var fields := ParseFields(indent);
        return YMap(fields);
      }
      Advance();
      v := ParseScalar(flow, trimmed);
    }

    method ParseItems(indent: nat) returns (arr: seq<Yaml>)
      requires Valid()
      modifies this
      ensures Valid() && (arr, Rest()) == YamlReader.ParseItems(flow, old(Rest()), indent, [])
      decreases Weight(Rest()), 1
    {
      arr := [];
      while idx < |lines|
        invariant Valid() && Weight(Rest()) <= old(Weight(Rest()))
        invariant YamlReader.ParseItems(flow, Rest(), indent, arr)
               == YamlReader.ParseItems(flow, old(Rest()), indent, [])
        decreases Weight(Rest())
      {
        var cur := lines[idx];
        if Blank(cur) {
          Advance();
          continue;
        }
        var curIndent := MeasureIndent(cur);
        if curIndent != indent || !StartsDash(Trim(cur)) { return; }
        var afterDash := AfterDash(cur);
        ghost var before := Rest();
        SpliceFalls(before, indent);
        Advance();
        if afterDash == "" {
          var v := ParseBlock(curIndent);
          arr := arr + [v];
        } else if InlineMap(afterDash) {
          Splice(FakeLine(curIndent, afterDash));
          var v := ParseBlock(curIndent);
          arr := arr + [OrElse(v, YMap([]))];
        } else {
          arr := arr + [ParseScalar(flow, afterDash)];
        }
      }
    }

    method ParseFields(indent: nat) returns (fields: seq<Field>)
      requires Valid()
      modifies this
      ensures Valid() && (fields, Rest()) == YamlReader.ParseFields(flow, old(Rest()), indent, [])
      decreases Weight(Rest()), 1
    {
      fields := [];
      while idx < |lines|
        invariant Valid() && Weight(Rest()) <= old(Weight(Rest()))
        invariant YamlReader.ParseFields(flow, Rest(), indent, fields)
               == YamlReader.ParseFields(flow, old(Rest()), indent, [])
        decreases Weight(Rest())
      {
        var cur := lines[idx];
        if Blank(cur) {
          Advance();
          continue;
        }
        var head := ReadHead(cur, indent);
        if head.None? { return; }
        var (key, after) := head.value;
        Advance();
        if after == "|" || after == ">-" {
          var blk := ReadBlockLines(indent);
          fields := MapSet(fields, key, BlockText(after, blk));
        } else if after == "" {
          var v := ParseBlock(indent);
          fields := MapSet(fields, key, v);
        } else {
          fields := MapSet(fields, key, ParseScalar(flow, after));
        }
      }
    }

    method ReadBlockLines(indent: nat) returns (blk: seq<string>)
      requires Valid()
      modifies this`idx
      ensures Valid() && (blk, Rest()) == BlockLines(old(Rest()), indent, [])
    {
      blk := [];
      while idx < |lines|
        invariant Valid() && BlockLines(Rest(), indent, blk) == BlockLines(old(Rest()), indent, [])
        decreases |Rest()|
      {
        var l := lines[idx];
        if Blank(l) {
          Advance();
          blk := blk + [""];
          continue;
        }
        var li := MeasureIndent(l);
        if li <= indent { return; }
        Advance();
        blk := blk + [SliceFrom(l, indent + 2)];
      }
    }
  }

  method StripLines(raw: seq<string>) returns (lines: seq<string>)
    ensures lines == StripAll(raw)
  {
    lines := [];
    for i := 0 to |raw|
      invariant |lines| == i && forall j | 0 <= j < i :: lines[j] == StripComment(raw[j])
    {
      var l := StripLine(raw[i]);
      lines := lines + [l];
    }
  }

  method Parse(flow: Flow, src: string) returns (v: Yaml)
    ensures v == ParseYaml(flow, src)
  {
    var lines := StripLines(SplitLines(src));
    var p := new Parser(flow, lines);
    var root := p.ParseBlock(-1);
    v := OrElse(root, YMap([]));
  }
}
