/** What one frame means, and the two readers built on the framing. */
module SseFrames {
  import opened Wrappers
  import opened Sequences
  import opened Text
  import opened Sse

  datatype Fields = Fields(event: string, data: Option<string>)

  predicate HasPrefix(l: string, prefix: string) {
    prefix <= l
  }

  /** One line of a frame: comments are dropped, `event:` replaces, `data:` appends. */
  function FieldLine(f: Fields, l: string): Fields {
    if HasPrefix(l, ":") then f
    else if HasPrefix(l, "event:") then f.(event := Trim(l[6..]))
    else if HasPrefix(l, "data:") then f.(data := Some(AddData(f.data, TrimStart(l[5..]))))
    else f
  }

  /** `(data ? data + '\n' : '') + value`: an empty string counts as no data. */
  function AddData(data: Option<string>, value: string): string {
    (if data.Some? && data.value != "" then data.value + "\n" else "") + value
  }

  function FieldLines(f: Fields, lines: seq<string>): Fields
    decreases |lines|
  {
    if lines == [] then f else FieldLines(if lines[0] == "" then f else FieldLine(f, lines[0]), lines[1..])
  }

  function ReadFields(frame: string): Fields {
    FieldLines(Fields("message", None), SplitLines(frame))
  }

  /** What a frame is handed on as; `emitFrame` knows both kinds, the snapshot reader only `Log`. */
  datatype Event = Log(data: string) | System(data: string)

  function Emit(frame: string): seq<Event> {
    var f := ReadFields(frame);
    if f.data.None? then []
    else if f.event == "log" then [Log(f.data.value)]
    else if f.event == "system" then [System(f.data.value)]
    else []
  }

  function EmitAll(frames: seq<string>): seq<Event> {
    if frames == [] then [] else Emit(frames[0]) + EmitAll(frames[1..])
  }

  /** `parseSseFrame`, before the JSON of the data is looked at. */
  function LogLine(frame: string): seq<string> {
    var f := ReadFields(frame);
    if f.event == "log" && f.data.Some? then [f.data.value] else []
  }

  function LogLines(frames: seq<string>): seq<string> {
    if frames == [] then [] else LogLine(frames[0]) + LogLines(frames[1..])
  }

  function Take(lines: seq<string>, n: int): seq<string> {
    if n <= 0 then [] else if n <= |lines| then lines[..n] else lines
  }

  // ---------- the data of a frame ----------

  /** The values of the `data:` lines, in order. */
  function DataValues(lines: seq<string>): seq<string> {
    if lines == [] then []
    else (if HasPrefix(lines[0], "data:") then [TrimStart(lines[0][5..])] else []) + DataValues(lines[1..])
  }

  function DropEmpty(vs: seq<string>): seq<string> {
    if |vs| > 1 && vs[0] == "" then DropEmpty(vs[1..]) else vs
  }

  function AddAll(data: Option<string>, vs: seq<string>): Option<string>
    decreases |vs|
  {
    if vs == [] then data else AddAll(Some(AddData(data, vs[0])), vs[1..])
  }

  lemma {:induction false} DataIsAddAll(f: Fields, lines: seq<string>)
    ensures FieldLines(f, lines).data == AddAll(f.data, DataValues(lines))
    decreases |lines|
  {
    if lines != [] {
      var l := lines[0];
      assert l == "" ==> !HasPrefix(l, "data:");
      assert HasPrefix(l, "data:") ==> l[0] == 'd';
      assert HasPrefix(l, "event:") ==> l[0] == 'e';
      DataIsAddAll(if l == "" then f else FieldLine(f, l), lines[1..]);
      if HasPrefix(l, "data:") {
        assert ([TrimStart(l[5..])] + DataValues(lines[1..]))[1..] == DataValues(lines[1..]);
      } else {
        assert [] + DataValues(lines[1..]) == DataValues(lines[1..]);
      }
    }
  }

  lemma {:induction false} AddAllJoins(d: string, vs: seq<string>)
    requires d != ""
    ensures AddAll(Some(d), vs) == Some(Join([d] + vs, "\n"))
    decreases |vs|
  {
    if vs != [] {
      var e := d + "\n" + vs[0];
      AddAllJoins(e, vs[1..]);
      assert ([d] + vs)[1..] == vs && ([e] + vs[1..])[1..] == vs[1..];
      if |vs| > 1 {
        assert e + "\n" + Join(vs[1..], "\n") == d + "\n" + (vs[0] + "\n" + Join(vs[1..], "\n"));
      }
    }
  }

  lemma {:induction false} AddAllFromNothing(data: Option<string>, vs: seq<string>)
    requires vs != [] && (data.Some? ==> data.value == "")
    ensures AddAll(data, vs) == Some(Join(DropEmpty(vs), "\n"))
    decreases |vs|
  {
    assert AddData(data, vs[0]) == vs[0];
    if vs[0] != "" {
      AddAllJoins(vs[0], vs[1..]);
      assert [vs[0]] + vs[1..] == vs;
    } else if |vs| > 1 {
      AddAllFromNothing(Some(""), vs[1..]);
    }
  }

  /** The data is the values of the data lines joined by line breaks, without the empty ones in front of the last. */
  lemma DataIs(frame: string)
    ensures var vs := DataValues(SplitLines(frame)); var data := ReadFields(frame).data;
      && (data.None? <==> vs == [])
      && (vs != [] ==> data == Some(Join(DropEmpty(vs), "\n")))
  {
    var vs := DataValues(SplitLines(frame));
    DataIsAddAll(Fields("message", None), SplitLines(frame));
    if vs != [] { AddAllFromNothing(None, vs); }
  }

  // ---------- the kind of a frame ----------

  /** The values of the `event:` lines, in order. */
  function EventValues(lines: seq<string>): seq<string> {
    if lines == [] then []
    else (if HasPrefix(lines[0], "event:") then [Trim(lines[0][6..])] else []) + EventValues(lines[1..])
  }

  /** The last `event:` line decides, and a frame without one is a plain message. */
  function Kind(lines: seq<string>): string {
    var values := EventValues(lines);
    if values == [] then "message" else values[|values| - 1]
  }

  lemma {:induction false} EventIsLast(f: Fields, lines: seq<string>)
    ensures var values := EventValues(lines);
      FieldLines(f, lines).event == if values == [] then f.event else values[|values| - 1]
    decreases |lines|
  {
    if lines != [] {
      var l := lines[0];
      assert l == "" ==> !HasPrefix(l, "event:");
      assert HasPrefix(l, "event:") ==> l[0] == 'e';
      assert HasPrefix(l, "data:") ==> l[0] == 'd';
      EventIsLast(if l == "" then f else FieldLine(f, l), lines[1..]);
    }
  }

  /** A frame is handed on as a log line exactly when its kind is `log` and it has data, as a system line exactly when
      its kind is `system`, and not at all otherwise; the snapshot reader takes exactly the log lines. */
  lemma EmitIs(frame: string)
    ensures var lines := SplitLines(frame); var vs := DataValues(lines); var data := Join(DropEmpty(vs), "\n");
      && Emit(frame) == (if vs == [] then []
                         else if Kind(lines) == "log" then [Log(data)]
                         else if Kind(lines) == "system" then [System(data)]
                         else [])
      && LogLine(frame) == (if vs != [] && Kind(lines) == "log" then [data] else [])
  {
    EventIsLast(Fields("message", None), SplitLines(frame));
    DataIs(frame);
  }

  // ---------- the data by the standard ----------

  /** The value of a field line by section 9.2.6 of the WHATWG HTML standard: one U+0020 after the colon goes. */
  function StandardValue(value: string): string {
    if value != "" && value[0] == ' ' then value[1..] else value
  }

  /** Its data lines: `data:` with a value, or `data` alone, which adds an empty line. */
  function StandardValues(lines: seq<string>): seq<string> {
    if lines == [] then []
    else
      (if HasPrefix(lines[0], "data:") then [StandardValue(lines[0][5..])]
       else if lines[0] == "data" then [""]
       else [])
      + StandardValues(lines[1..])
  }

  /** What the standard makes of the lines of a frame. */
  function StandardData(lines: seq<string>): Option<string> {
    if StandardValues(lines) == [] then None else Some(Join(StandardValues(lines), "\n"))
  }

  /** The value starts with no more white space than the one blank that goes. */
  predicate Tight(line: string) {
    HasPrefix(line, "data:") ==> TrimStart(line[5..]) == StandardValue(line[5..])
  }

  lemma {:induction false} ValuesLine(lines: seq<string>)
    requires forall l | l in lines :: OneLine(l)
    ensures forall v | v in DataValues(lines) :: OneLine(v)
    ensures forall v | v in StandardValues(lines) :: OneLine(v)
  {
    if lines != [] {
      ValuesLine(lines[1..]);
      assert lines[0] in lines;
      if HasPrefix(lines[0], "data:") { PartIsLine(lines[0]); }
    }
  }

  lemma PartIsLine(l: string)
    requires OneLine(l) && HasPrefix(l, "data:")
    ensures OneLine(TrimStart(l[5..])) && OneLine(StandardValue(l[5..]))
  {
    TrimStartSuffix(l[5..]);
  }

  /** The reader finds a value for every `data:` line, the standard one more for every `data` line. */
  lemma {:induction false} ValuesCount(lines: seq<string>)
    ensures |DataValues(lines)| <= |StandardValues(lines)|
    ensures |DataValues(lines)| == |StandardValues(lines)| <==> "data" !in lines
  {
    if lines != [] {
      ValuesCount(lines[1..]);
      assert lines == [lines[0]] + lines[1..];
      assert HasPrefix(lines[0], "data:") ==> |lines[0]| >= 5 && lines[0] != "data";
    }
  }

  lemma {:induction false} ValuesAgree(lines: seq<string>)
    requires "data" !in lines
    ensures DataValues(lines) == StandardValues(lines) <==> forall l | l in lines :: Tight(l)
  {
    if lines != [] {
      var l, rest := lines[0], lines[1..];
      ValuesAgree(rest);
      assert lines == [l] + rest && l in lines;
      var r, s := DataValues(rest), StandardValues(rest);
      if HasPrefix(l, "data:") {
        SameCons(TrimStart(l[5..]), StandardValue(l[5..]), r, s);
        assert DataValues(lines) == [TrimStart(l[5..])] + r && StandardValues(lines) == [StandardValue(l[5..])] + s;
      } else {
        assert DataValues(lines) == [] + r == r && StandardValues(lines) == [] + s == s;
      }
      assert (forall x | x in lines :: Tight(x)) <==> Tight(l) && forall x | x in rest :: Tight(x);
    }
  }

  lemma SameCons(a: string, b: string, r: seq<string>, s: seq<string>)
    ensures [a] + r == [b] + s <==> a == b && r == s
  {
    if [a] + r == [b] + s { assert ([a] + r)[0] == ([b] + s)[0] && ([a] + r)[1..] == ([b] + s)[1..]; }
  }

  lemma {:induction false} DropKeepsLines(vs: seq<string>)
    ensures forall v | v in DropEmpty(vs) :: v in vs
    ensures DropEmpty(vs) == vs <==> |vs| <= 1 || vs[0] != ""
    ensures |DropEmpty(vs)| <= |vs| && (vs != [] ==> DropEmpty(vs) != [])
    ensures |DropEmpty(vs)| == |vs| ==> DropEmpty(vs) == vs
  {
    if |vs| > 1 && vs[0] == "" { DropKeepsLines(vs[1..]); }
  }

  lemma JoinInjective(a: seq<string>, b: seq<string>)
    requires a != [] && b != [] && (forall v | v in a :: OneLine(v)) && forall v | v in b :: OneLine(v)
    ensures Join(a, "\n") == Join(b, "\n") <==> a == b
  {
    SplitJoin(a);
    SplitJoin(b);
  }

  /** The reader takes from the lines of a frame what the standard takes, exactly when no line is a bare `data`, no
      value starts with more white space than one blank, and, if there are several data lines, the first is not empty.
      */
  lemma DataExact(frame: string)
    ensures var lines := SplitLines(frame); var vs := DataValues(lines);
      ReadFields(frame).data == StandardData(lines) <==>
        "data" !in lines && (forall l | l in lines :: Tight(l)) && (|vs| <= 1 || vs[0] != "")
  {
    var lines := SplitLines(frame);
    var vs, ss := DataValues(lines), StandardValues(lines);
    DataIs(frame);
    JoinSplit(frame);
    ValuesLine(lines);
    ValuesCount(lines);
    if "data" !in lines { ValuesAgree(lines); }
    DropKeepsLines(vs);
    if vs != [] { JoinInjective(DropEmpty(vs), ss); }
  }

  // ---------- the readers ----------

  lemma {:induction false} EmitConcat(a: seq<string>, b: seq<string>)
    ensures EmitAll(a + b) == EmitAll(a) + EmitAll(b)
  {
    if a == [] {
      assert a + b == b;
    } else {
      assert (a + b)[1..] == a[1..] + b;
      EmitConcat(a[1..], b);
    }
  }

  lemma {:induction false} LogConcat(a: seq<string>, b: seq<string>)
    ensures LogLines(a + b) == LogLines(a) + LogLines(b)
  {
    if a == [] {
      assert a + b == b;
    } else {
      assert (a + b)[1..] == a[1..] + b;
      LogConcat(a[1..], b);
    }
  }

  /** `streamOnce` over the chunks the body delivers before it ends: the events of the whole text, in order. */
  method StreamOnce(chunks: seq<string>) returns (events: seq<Event>)
    ensures events == EmitAll(SplitFrames(Concat(chunks)).frames)
  {
    ghost var all := EmitAll(ReadChunks(chunks, "").frames);
    ChunkingIrrelevant(chunks);
    var buf := "";
    events := [];
    for i := 0 to |chunks|
      invariant events + EmitAll(ReadChunks(chunks[i..], buf).frames) == all
    {
      assert chunks[i..][0] == chunks[i] && chunks[i..][1..] == chunks[i + 1..];
      var cut := SplitFrames(buf + chunks[i]);
      ghost var later := ReadChunks(chunks[i + 1..], cut.tail).frames;
      EmitConcat(cut.frames, later);
      buf := cut.tail;
      ghost var before := events;
      for j := 0 to |cut.frames|
        invariant events + EmitAll(cut.frames[j..]) == before + EmitAll(cut.frames)
      {
        assert cut.frames[j..][0] == cut.frames[j] && cut.frames[j..][1..] == cut.frames[j + 1..];
        Regroup(events, Emit(cut.frames[j]), EmitAll(cut.frames[j + 1..]));
        events := events + Emit(cut.frames[j]);
      }
      assert events + [] == events;
      Regroup(before, EmitAll(cut.frames), EmitAll(later));
    }
    assert events + [] == events;
  }

  /** `readLogSnapshot`: the first `maxLines` log frames of the text, however it is chunked. */
  method ReadLogSnapshot(chunks: seq<string>, maxLines: int) returns (lines: seq<string>)
    ensures lines == Take(LogLines(SplitFrames(Concat(chunks)).frames), maxLines)
  {
    ghost var all := LogLines(ReadChunks(chunks, "").frames);
    ChunkingIrrelevant(chunks);
    var buf, i := "", 0;
    lines := [];
    while |lines| < maxLines && i < |chunks|
      invariant i <= |chunks| && |lines| <= (if maxLines < 0 then 0 else maxLines)
      invariant lines <= all
      invariant |lines| < maxLines ==> lines + LogLines(ReadChunks(chunks[i..], buf).frames) == all
    {
      assert chunks[i..][0] == chunks[i] && chunks[i..][1..] == chunks[i + 1..];
      var cut := SplitFrames(buf + chunks[i]);
      ghost var later := LogLines(ReadChunks(chunks[i + 1..], cut.tail).frames);
      LogConcat(cut.frames, ReadChunks(chunks[i + 1..], cut.tail).frames);
      Regroup(lines, LogLines(cut.frames), later);
      buf, i := cut.tail, i + 1;
      lines := CollectLogLines(cut.frames, lines, maxLines, later);
    }
  }

  /** The inner loop over the frames of one chunk, with its early `break`. */
  method CollectLogLines(frames: seq<string>, before: seq<string>, maxLines: int, ghost later: seq<string>)
    returns (lines: seq<string>)
    requires |before| < maxLines
    ensures |lines| <= maxLines && lines <= before + LogLines(frames)
    ensures lines <= before + LogLines(frames) + later
    ensures |lines| < maxLines ==> lines == before + LogLines(frames)
  {
    lines := before;
    for j := 0 to |frames|
      invariant |lines| < maxLines && lines + LogLines(frames[j..]) == before + LogLines(frames)
    {
      assert frames[j..][0] == frames[j] && frames[j..][1..] == frames[j + 1..];
      Regroup(lines, LogLine(frames[j]), LogLines(frames[j + 1..]));
      lines := lines + LogLine(frames[j]);
      if |lines| >= maxLines {
        assert lines + LogLines(frames[j + 1..]) == before + LogLines(frames);
        return;
      }
    }
    assert lines + [] == lines;
  }
}
