/** Splitting a streamed SSE text into lines, and the playground loop that accumulates its deltas. */
module Sse {

  datatype Split = Split(lines: seq<string>, rest: string)

  /** Complete lines of a buffer and the unfinished tail. */
  function SplitBuffer(s: string): Split {
    if s == [] then Split([], [])
    else
      var before, c := SplitBuffer(s[..|s| - 1]), s[|s| - 1];
      if c == '\n' then Split(before.lines + [before.rest], [])
      else Split(before.lines, before.rest + [c])
  }

  function Terminated(lines: seq<string>): string {
    if lines == [] then [] else Terminated(lines[..|lines| - 1]) + lines[|lines| - 1] + ['\n']
  }

  lemma {:induction false} TerminatedAppend(lines: seq<string>, line: string)
    ensures Terminated(lines + [line]) == Terminated(lines) + line + ['\n']
  {
    assert (lines + [line])[..|lines|] == lines;
  }

  lemma AppendRegroups(a: string, b: string, c: char)
    ensures a + (b + [c]) == (a + b) + [c]
  {
  }

  /** Splitting loses nothing. */
  lemma {:induction false} SplitIsExact(s: string)
    ensures Terminated(SplitBuffer(s).lines) + SplitBuffer(s).rest == s
  {
    if s != [] {
      var init, c := s[..|s| - 1], s[|s| - 1];
      SplitIsExact(init);
      var before := SplitBuffer(init);
      if c == '\n' {
        TerminatedAppend(before.lines, before.rest);
      } else {
        AppendRegroups(Terminated(before.lines), before.rest, c);
      }
    }
  }

  /** No line break survives inside a line or the tail. */
  lemma {:induction false} SplitIsClean(s: string)
    ensures '\n' !in SplitBuffer(s).rest
    ensures forall i :: 0 <= i < |SplitBuffer(s).lines| ==> '\n' !in SplitBuffer(s).lines[i]
  {
    if s != [] { SplitIsClean(s[..|s| - 1]); }
  }

  /** Splitting what arrived, then the leftover with what comes next, is splitting the whole. */
  lemma {:induction false} SplitContinues(a: string, b: string)
    ensures var next := SplitBuffer(SplitBuffer(a).rest + b);
      SplitBuffer(a + b) == Split(SplitBuffer(a).lines + next.lines, next.rest)
  {
    var rest := SplitBuffer(a).rest;
    if b == [] {
      assert a + b == a && rest + b == rest;
      SplitIsClean(a);
      NoBreakNoLine(rest);
    } else {
      var init := b[..|b| - 1];
      SplitContinues(a, init);
      assert (a + b)[..|a + b| - 1] == a + init && (rest + b)[..|rest + b| - 1] == rest + init;
    }
  }

  lemma {:induction false} NoBreakNoLine(s: string)
    requires '\n' !in s
    ensures SplitBuffer(s) == Split([], s)
  {
    if s != [] {
      NoBreakNoLine(s[..|s| - 1]);
      assert s == s[..|s| - 1] + [s[|s| - 1]];
    }
  }

  function Concat(chunks: seq<string>): string {
    if chunks == [] then [] else Concat(chunks[..|chunks| - 1]) + chunks[|chunks| - 1]
  }

  /** The reader's buffer after each chunk: only the tail is kept. */
  function Buffer(chunks: seq<string>): string {
    if chunks == [] then []
    else SplitBuffer(Buffer(chunks[..|chunks| - 1]) + chunks[|chunks| - 1]).rest
  }

  /** The lines the last chunk completes. */
  function Emitted(chunks: seq<string>): seq<string>
    requires chunks != []
  {
    SplitBuffer(Buffer(chunks[..|chunks| - 1]) + chunks[|chunks| - 1]).lines
  }

  function AllEmitted(chunks: seq<string>): seq<string> {
    if chunks == [] then [] else AllEmitted(chunks[..|chunks| - 1]) + Emitted(chunks)
  }

  /** However the text is cut, the splitter emits the lines of the whole text and keeps its tail. */
  lemma {:induction false} ChunkingIsInvisible(chunks: seq<string>)
    ensures Split(AllEmitted(chunks), Buffer(chunks)) == SplitBuffer(Concat(chunks))
  {
    if chunks != [] {
      var init, last := chunks[..|chunks| - 1], chunks[|chunks| - 1];
      ChunkingIsInvisible(init);
      SplitContinues(Concat(init), last);
    }
  }

  // ---- the reader loop ----

  datatype Event = Event(delta: string, done: bool)

  /** Deltas of `lines` up to the first `[DONE]`: one pass of the inner loop. */
  function Until(lines: seq<string>, parse: string -> Event): string {
    if lines == [] then []
    else if parse(lines[0]).done then []
    else parse(lines[0]).delta + Until(lines[1..], parse)
  }

  /** The accumulated text: `break` leaves the inner loop only, so every chunk gets its own pass. */
  function PageText(chunks: seq<string>, parse: string -> Event): string {
    if chunks == [] then [] else PageText(chunks[..|chunks| - 1], parse) + Until(Emitted(chunks), parse)
  }

  method ReadStream(chunks: seq<string>, parse: string -> Event) returns (text: string)
    ensures text == PageText(chunks, parse)
  {
    text := [];
    var buffer := [];
    for i := 0 to |chunks|
      invariant buffer == Buffer(chunks[..i]) && text == PageText(chunks[..i], parse)
    {
      assert chunks[..i + 1][..i] == chunks[..i];
      var split := SplitBuffer(buffer + chunks[i]);
      buffer := split.rest;
      ghost var goal := text + Until(split.lines, parse);
      var k := 0;
      while k < |split.lines|
        invariant k <= |split.lines| && text + Until(split.lines[k..], parse) == goal
        decreases |split.lines| - k
      {
        var event := parse(split.lines[k]);
        if event.done {
          break;
        }
        if event.delta != [] {
          text := text + event.delta;
        }
        assert split.lines[k..][1..] == split.lines[k + 1..];
        k := k + 1;
      }
      assert text == goal;
    }
    assert chunks[..|chunks|] == chunks;
  }

  // ---- when the text does not depend on chunking ----

  predicate NoDone(lines: seq<string>, parse: string -> Event) {
    forall i :: 0 <= i < |lines| ==> !parse(lines[i]).done
  }

  /** Every delta, terminator or not. */
  function AllDeltas(lines: seq<string>, parse: string -> Event): string {
    if lines == [] then []
    else
      var e := parse(lines[0]);
      (if e.done then [] else e.delta) + AllDeltas(lines[1..], parse)
  }

  /** What follows the first `[DONE]`. */
  function AfterDone(lines: seq<string>, parse: string -> Event): seq<string> {
    if lines == [] then []
    else if parse(lines[0]).done then lines[1..]
    else AfterDone(lines[1..], parse)
  }

  lemma {:induction false} DeltasSplitAtDone(lines: seq<string>, parse: string -> Event)
    ensures AllDeltas(lines, parse) == Until(lines, parse) + AllDeltas(AfterDone(lines, parse), parse)
    ensures NoDone(lines, parse) ==> AfterDone(lines, parse) == []
  {
    if lines != [] {
      DeltasSplitAtDone(lines[1..], parse);
      NoDoneTail(lines, parse);
    }
  }

  lemma {:induction false} AllDeltasConcat(a: seq<string>, b: seq<string>, parse: string -> Event)
    ensures AllDeltas(a + b, parse) == AllDeltas(a, parse) + AllDeltas(b, parse)
  {
    if a == [] {
      assert a + b == b;
    } else {
      assert (a + b)[1..] == a[1..] + b;
      AllDeltasConcat(a[1..], b, parse);
    }
  }

  lemma {:induction false} NoDoneTail(a: seq<string>, parse: string -> Event)
    requires a != []
    ensures NoDone(a, parse) <==> !parse(a[0]).done && NoDone(a[1..], parse)
  {
    assert forall i :: 1 <= i < |a| ==> a[i] == a[1..][i - 1];
  }

  lemma {:induction false} UntilConcat(a: seq<string>, b: seq<string>, parse: string -> Event)
    ensures Until(a + b, parse) == Until(a, parse) + if NoDone(a, parse) then Until(b, parse) else []
  {
    if a == [] {
      assert a + b == b;
    } else {
      assert (a + b)[1..] == a[1..] + b;
      UntilConcat(a[1..], b, parse);
      NoDoneTail(a, parse);
    }
  }

  lemma {:induction false} AfterDoneConcat(a: seq<string>, b: seq<string>, parse: string -> Event)
    ensures AfterDone(a + b, parse) == if NoDone(a, parse) then AfterDone(b, parse) else AfterDone(a, parse) + b
  {
    if a == [] {
      assert a + b == b;
    } else {
      assert (a + b)[1..] == a[1..] + b;
      AfterDoneConcat(a[1..], b, parse);
      NoDoneTail(a, parse);
    }
  }

  lemma {:induction false} UntilWithinAll(lines: seq<string>, parse: string -> Event)
    requires AllDeltas(lines, parse) == []
    ensures Until(lines, parse) == []
  {
    DeltasSplitAtDone(lines, parse);
  }

  lemma {:induction false} SilentTailIsEnough(chunks: seq<string>, parse: string -> Event)
    requires AllDeltas(AfterDone(AllEmitted(chunks), parse), parse) == []
    ensures PageText(chunks, parse) == Until(AllEmitted(chunks), parse)
  {
    if chunks != [] {
      var init := chunks[..|chunks| - 1];
      var a, b := AllEmitted(init), Emitted(chunks);
      UntilConcat(a, b, parse);
      AfterDoneConcat(a, b, parse);
      if NoDone(a, parse) {
        DeltasSplitAtDone(a, parse);
      } else {
        AllDeltasConcat(AfterDone(a, parse), b, parse);
        UntilWithinAll(b, parse);
      }
      SilentTailIsEnough(init, parse);
    }
  }

  /** One character per chunk: at most one line per pass, so no `[DONE]` hides anything. */
  function Letters(s: string): seq<string> {
    seq(|s|, (i: nat) requires i < |s| => [s[i]])
  }

  lemma {:induction false} LettersConcat(s: string)
    ensures Concat(Letters(s)) == s
  {
    if s != [] {
      LettersConcat(s[..|s| - 1]);
      assert Letters(s)[..|s| - 1] == Letters(s[..|s| - 1]);
      assert s == s[..|s| - 1] + [s[|s| - 1]];
    }
  }

  lemma {:induction false} LetterEmits(s: string)
    requires s != []
    ensures Letters(s)[..|s| - 1] == Letters(s[..|s| - 1])
    ensures Emitted(Letters(s)) == if s[|s| - 1] == '\n' then [SplitBuffer(s[..|s| - 1]).rest] else []
  {
    var init, c := s[..|s| - 1], s[|s| - 1];
    assert Letters(s)[..|s| - 1] == Letters(init);
    LettersConcat(init);
    ChunkingIsInvisible(Letters(init));
    SplitIsClean(init);
    var rest := SplitBuffer(init).rest;
    NoBreakNoLine(rest);
    assert (rest + [c])[..|rest|] == rest;
    assert Emitted(Letters(s)) == SplitBuffer(rest + [c]).lines;
  }

  lemma {:induction false} LetterByLetter(s: string, parse: string -> Event)
    ensures PageText(Letters(s), parse) == AllDeltas(SplitBuffer(s).lines, parse)
  {
    if s != [] {
      var init := s[..|s| - 1];
      LetterByLetter(init, parse);
      LetterEmits(s);
      var rest := SplitBuffer(init).rest;
      AllDeltasConcat(SplitBuffer(init).lines, [rest], parse);
      assert Until([rest], parse) == AllDeltas([rest], parse);
    }
  }

  /** The accumulated text is the deltas before the first `[DONE]`, however the text is cut. */
  ghost predicate ChunkingIsIrrelevant(s: string, parse: string -> Event) {
    forall chunks :: Concat(chunks) == s ==> PageText(chunks, parse) == Until(SplitBuffer(s).lines, parse)
  }

  /** Chunking is irrelevant exactly when no line after the first `[DONE]` carries text. */
  lemma {:induction false} ChunkingIsIrrelevantIff(s: string, parse: string -> Event)
    ensures ChunkingIsIrrelevant(s, parse) <==> AllDeltas(AfterDone(SplitBuffer(s).lines, parse), parse) == []
  {
    var lines := SplitBuffer(s).lines;
    if AllDeltas(AfterDone(lines, parse), parse) == [] {
      forall chunks | Concat(chunks) == s ensures PageText(chunks, parse) == Until(lines, parse) {
        ChunkingIsInvisible(chunks);
        SilentTailIsEnough(chunks, parse);
      }
    } else {
      LettersConcat(s);
      LetterByLetter(s, parse);
      DeltasSplitAtDone(lines, parse);
      assert PageText(Letters(s), parse) != Until(lines, parse);
    }
  }

  // ---- the smallest disagreement ----

  lemma {:induction false} OneLine(line: string)
    requires '\n' !in line
    ensures SplitBuffer(line + ['\n']) == Split([line], [])
  {
    NoBreakNoLine(line);
    assert (line + ['\n'])[..|line|] == line;
  }

  lemma {:induction false} OneChunk(chunk: string, parse: string -> Event)
    ensures Concat([chunk]) == chunk && PageText([chunk], parse) == Until(SplitBuffer(chunk).lines, parse)
    ensures Buffer([chunk]) == SplitBuffer(chunk).rest
  {
    assert [chunk][..0] == [];
    assert [] + chunk == chunk;
  }

  lemma {:induction false} TwoChunks(a: string, b: string, parse: string -> Event)
    requires SplitBuffer(a).rest == []
    ensures Concat([a, b]) == a + b
    ensures PageText([a, b], parse) == Until(SplitBuffer(a).lines, parse) + Until(SplitBuffer(b).lines, parse)
  {
    OneChunk(a, parse);
    assert [a, b][..1] == [a];
    assert [] + b == b;
  }

  /** A terminator and a line of text after it: shown if the chunks are cut between them, else not. */
  lemma {:induction false} CutAfterDone(d: string, x: string, parse: string -> Event)
    requires '\n' !in d && '\n' !in x && parse(d).done && !parse(x).done
    ensures var first, second := d + ['\n'], x + ['\n'];
      && Concat([first + second]) == Concat([first, second])
      && PageText([first + second], parse) == [] && PageText([first, second], parse) == parse(x).delta
  {
    var first, second := d + ['\n'], x + ['\n'];
    OneLine(d);
    OneLine(x);
    SplitContinues(first, second);
    assert [] + second == second;
    OneChunk(first + second, parse);
    TwoChunks(first, second, parse);
    assert [x][1..] == [];
  }
}
