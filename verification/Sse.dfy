/** Reading a server-sent event stream chunk by chunk: the reader of packages/cli/src/fleet-cross-host-cli.ts and
    packages/cli/src/fleet-logs-stream.ts. Frames end with a blank line, as in section 9.2.5 of the WHATWG HTML
    standard; only the line break `\n` is recognised. */
module Sse {
  import opened Sequences

  // ---------- splitting on blank lines ----------

  predicate StartsWithBreak(s: string) {
    |s| >= 2 && s[0] == '\n' && s[1] == '\n'
  }

  /** `s.split('\n\n')`, with the last part taken off by `pop()`: the complete frames and the partial one behind
      them. */
  datatype Cut = Cut(frames: seq<string>, tail: string)

  function SplitFrames(s: string): Cut {
    if s == "" then Cut([], "")
    else if StartsWithBreak(s) then
      var rest := SplitFrames(s[2..]);
      Cut([""] + rest.frames, rest.tail)
    else Prepend(s[0], SplitFrames(s[1..]))
  }

  function Prepend(c: char, cut: Cut): Cut {
    if cut.frames == [] then Cut([], [c] + cut.tail)
    else Cut([[c] + cut.frames[0]] + cut.frames[1..], cut.tail)
  }

  function After(frames: seq<string>, cut: Cut): Cut {
    Cut(frames + cut.frames, cut.tail)
  }

  function Concat(chunks: seq<string>): string {
    if chunks == [] then "" else chunks[0] + Concat(chunks[1..])
  }

  lemma {:induction false} NoFrames(s: string)
    ensures SplitFrames(s).frames == [] ==> SplitFrames(s).tail == s
  {
    if s != "" && !StartsWithBreak(s) {
      NoFrames(s[1..]);
      assert [s[0]] + s[1..] == s;
    }
  }

  lemma PrependAfter(c: char, frames: seq<string>, cut: Cut)
    requires frames != []
    ensures Prepend(c, After(frames, cut)) == After(Prepend(c, Cut(frames, "")).frames, cut)
  {
    assert (frames + cut.frames)[1..] == frames[1..] + cut.frames;
  }

  /** Splitting a text that continues is splitting what its partial tail becomes. */
  lemma {:induction false} SplitContinues(x: string, y: string)
    ensures SplitFrames(x + y) == After(SplitFrames(x).frames, SplitFrames(SplitFrames(x).tail + y))
  {
    var c := SplitFrames(x);
    if c.frames == [] {
      NoFrames(x);
      assert [] + SplitFrames(x + y).frames == SplitFrames(x + y).frames;
    } else if StartsWithBreak(x) {
      assert (x + y)[2..] == x[2..] + y;
      SplitContinues(x[2..], y);
      Regroup([""], SplitFrames(x[2..]).frames, SplitFrames(c.tail + y).frames);
    } else {
      var u := x[1..];
      SplitContinues(u, y);
      NeedsTwo(x);
      assert (x + y)[1..] == u + y && (x + y)[0] == x[0];
      PrependAfter(x[0], SplitFrames(u).frames, SplitFrames(c.tail + y));
    }
  }

  /** A text with a complete frame has at least two characters. */
  lemma {:induction false} NeedsTwo(x: string)
    ensures SplitFrames(x).frames != [] ==> |x| >= 2
  {
    if x != "" && !StartsWithBreak(x) { NeedsTwo(x[1..]); }
  }

  // ---------- reading chunks ----------

  /** The loop of `streamOnce`: frames in the order they are handed on, and the buffer left over. */
  function ReadChunks(chunks: seq<string>, buf: string): Cut
    decreases |chunks|
  {
    if chunks == [] then Cut([], buf)
    else
      var c := SplitFrames(buf + chunks[0]);
      After(c.frames, ReadChunks(chunks[1..], c.tail))
  }

  lemma {:induction false} ChunksFrom(chunks: seq<string>, buf: string)
    requires SplitFrames(buf).frames == []
    ensures ReadChunks(chunks, buf) == SplitFrames(buf + Concat(chunks))
    decreases |chunks|
  {
    NoFrames(buf);
    if chunks == [] {
      assert buf + "" == buf;
    } else {
      var c := SplitFrames(buf + chunks[0]);
      TailHasNoFrames(buf + chunks[0]);
      ChunksFrom(chunks[1..], c.tail);
      SplitContinues(buf + chunks[0], Concat(chunks[1..]));
      assert buf + chunks[0] + Concat(chunks[1..]) == buf + Concat(chunks);
    }
  }

  lemma {:induction false} TailHasNoFrames(s: string)
    ensures SplitFrames(SplitFrames(s).tail) == Cut([], SplitFrames(s).tail)
  {
    var c := SplitFrames(s);
    if c.frames == [] {
      NoFrames(s);
    } else if StartsWithBreak(s) {
      TailHasNoFrames(s[2..]);
    } else {
      TailHasNoFrames(s[1..]);
    }
  }

  /** The frames depend only on the concatenated stream: chunking does not matter. */
  lemma ChunkingIrrelevant(chunks: seq<string>)
    ensures ReadChunks(chunks, "") == SplitFrames(Concat(chunks))
  {
    ChunksFrom(chunks, "");
    assert "" + Concat(chunks) == Concat(chunks);
  }

  // ---------- the cut is the leftmost one ----------

  function Rejoin(cut: Cut): string
    decreases |cut.frames|
  {
    if cut.frames == [] then cut.tail
    else cut.frames[0] + "\n\n" + Rejoin(Cut(cut.frames[1..], cut.tail))
  }

  predicate NoBreak(s: string) {
    forall i | 0 <= i < |s| - 1 :: !(s[i] == '\n' && s[i + 1] == '\n')
  }

  lemma RejoinPrepend(c: char, cut: Cut)
    ensures Rejoin(Prepend(c, cut)) == [c] + Rejoin(cut)
  {
    if cut.frames != [] {
      var f, rest := cut.frames[0], Cut(cut.frames[1..], cut.tail);
      assert Prepend(c, cut).frames[1..] == cut.frames[1..];
      assert [c] + f + "\n\n" + Rejoin(rest) == [c] + (f + "\n\n" + Rejoin(rest));
    }
  }

  /** Frames and tail put together again are the text, and each frame ends at the first blank line. */
  lemma {:induction false} SplitFramesCorrect(s: string)
    ensures Rejoin(SplitFrames(s)) == s
    ensures forall f | f in SplitFrames(s).frames :: NoBreak(f + "\n")
    ensures NoBreak(SplitFrames(s).tail)
  {
    if s != "" {
      if StartsWithBreak(s) {
        var rest := SplitFrames(s[2..]);
        SplitFramesCorrect(s[2..]);
        assert SplitFrames(s).frames[1..] == rest.frames;
        assert "" + "\n\n" + Rejoin(rest) == "\n\n" + s[2..] == s;
      } else {
        SplitFramesCorrect(s[1..]);
        RejoinPrepend(s[0], SplitFrames(s[1..]));
        assert [s[0]] + s[1..] == s;
        FirstFrame(s);
      }
    }
  }

  /** The character put in front of the first frame does not complete a blank line. */
  lemma FirstFrame(s: string)
    requires s != "" && !StartsWithBreak(s)
    requires Rejoin(SplitFrames(s[1..])) == s[1..]
    requires (forall f | f in SplitFrames(s[1..]).frames :: NoBreak(f + "\n")) && NoBreak(SplitFrames(s[1..]).tail)
    ensures forall f | f in SplitFrames(s).frames :: NoBreak(f + "\n")
    ensures NoBreak(SplitFrames(s).tail)
  {
    var cut := SplitFrames(s[1..]);
    if cut.frames == [] {
      assert cut.tail == s[1..];
    } else {
      var f := cut.frames[0];
      assert f in cut.frames;
      assert s[1..][0] == (f + "\n")[0];
      var g := [s[0]] + f + "\n";
      forall i | 0 <= i < |g| - 1 ensures !(g[i] == '\n' && g[i + 1] == '\n') {
        if i > 0 { assert g[i] == (f + "\n")[i - 1] && g[i + 1] == (f + "\n")[i]; } else { assert g[1] == s[1]; }
      }
      assert forall x | x in cut.frames[1..] :: x in cut.frames;
    }
  }

  /** A text yields a frame exactly when it holds two line feeds in a row. A stream whose lines end in `\r\n`, which
      section 9.2.5 of the standard allows, therefore never yields any. */
  lemma FramesNeedLineFeeds(s: string)
    ensures SplitFrames(s).frames == [] <==> NoBreak(s)
    ensures (forall i | 0 <= i < |s| && s[i] == '\n' :: i > 0 && s[i - 1] == '\r') ==> SplitFrames(s).frames == []
  {
    SplitFramesCorrect(s);
    var cut := SplitFrames(s);
    if cut.frames != [] {
      var k := |cut.frames[0]|;
      assert s == cut.frames[0] + "\n\n" + Rejoin(Cut(cut.frames[1..], cut.tail));
      assert s[k] == '\n' && s[k + 1] == '\n';
    }
  }
}
