/** Interpreting one SSE line: trimming, the `data:` field and the `[DONE]` marker. */
module SseLine {
  import opened Sse

  /** The white space and line terminators that `String.prototype.trim` removes. */
  predicate Blank(c: char) {
    var n := c as int;
    || 0x09 <= n <= 0x0D || n == 0x20 || n == 0xA0 || n == 0x1680 || 0x2000 <= n <= 0x200A
    || n == 0x2028 || n == 0x2029 || n == 0x202F || n == 0x205F || n == 0x3000 || n == 0xFEFF
  }

  /** Tab, line feed, vertical tab, form feed, carriage return, space, no-break space, and the wider ones. */
  const BLANKS := "\t\n\U{000B}\U{000C}\r \U{00A0}\U{1680}\U{2000}\U{2001}\U{2002}\U{2003}\U{2004}\U{2005}"
    + "\U{2006}\U{2007}\U{2008}\U{2009}\U{200A}\U{2028}\U{2029}\U{202F}\U{205F}\U{3000}\U{FEFF}"

  lemma {:induction false} BlankIs(c: char)
    ensures Blank(c) <==> c in BLANKS
  {
    assert forall i :: 0 <= i < |BLANKS| ==> Blank(BLANKS[i]);
    if Blank(c) { BlankIsListed(c); }
  }

  lemma {:induction false} BlankIsListed(c: char)
    requires Blank(c)
    ensures c in BLANKS
  {
    var n := c as int;
    var k := if n <= 0x0D then n - 0x09 else if n == 0x20 then 5 else if n == 0xA0 then 6 else if n == 0x1680 then 7
      else if n <= 0x200A then n - 0x2000 + 8 else if n == 0x2028 then 19 else if n == 0x2029 then 20
      else if n == 0x202F then 21 else if n == 0x205F then 22 else if n == 0x3000 then 23 else 24;
    assert BLANKS[k] == c;
  }

  predicate AllBlank(s: string) {
    forall i :: 0 <= i < |s| ==> Blank(s[i])
  }

  function TrimStart(s: string): string {
    if s != [] && Blank(s[0]) then TrimStart(s[1..]) else s
  }

  function TrimEnd(s: string): string {
    if s != [] && Blank(s[|s| - 1]) then TrimEnd(s[..|s| - 1]) else s
  }

  function Trim(s: string): string {
    TrimEnd(TrimStart(s))
  }

  const FIELD := "data:"

  const DONE := "[DONE]"

  /** `delta(json)` is the text a data line carries, empty when the JSON is malformed. */
  function ParseLine(line: string, delta: string -> string): Event {
    var trimmed := Trim(line);
    if trimmed == [] || !(FIELD <= trimmed) then Event([], false)
    else
      var data := Trim(trimmed[5..]);
      if data == DONE then Event([], true) else Event(delta(data), false)
  }

  // ---- what trimming does ----

  predicate Bare(s: string) {
    s == [] || (!Blank(s[0]) && !Blank(s[|s| - 1]))
  }

  lemma {:induction false} TrimStartSplits(s: string) returns (pad: string)
    ensures s == pad + TrimStart(s) && AllBlank(pad)
    ensures TrimStart(s) == [] || !Blank(TrimStart(s)[0])
  {
    pad := [];
    if s != [] && Blank(s[0]) {
      pad := TrimStartSplits(s[1..]);
      assert s == [s[0]] + s[1..];
      pad := [s[0]] + pad;
    }
  }

  lemma {:induction false} TrimEndSplits(s: string) returns (pad: string)
    ensures s == TrimEnd(s) + pad && AllBlank(pad)
    ensures TrimEnd(s) == [] || !Blank(TrimEnd(s)[|TrimEnd(s)| - 1])
  {
    pad := [];
    if s != [] && Blank(s[|s| - 1]) {
      pad := TrimEndSplits(s[..|s| - 1]);
      assert s == s[..|s| - 1] + [s[|s| - 1]];
      pad := pad + [s[|s| - 1]];
    }
  }

  /** Trimming removes blank padding on both sides and leaves a bare core. */
  lemma {:induction false} TrimSplits(s: string) returns (left: string, right: string)
    ensures s == left + Trim(s) + right && AllBlank(left) && AllBlank(right) && Bare(Trim(s))
  {
    left := TrimStartSplits(s);
    right := TrimEndSplits(TrimStart(s));
    assert Trim(s) != [] ==> Trim(s)[0] == TrimStart(s)[0];
  }

  lemma {:induction false} TrimStartDrops(pad: string, s: string)
    requires AllBlank(pad)
    ensures TrimStart(pad + s) == TrimStart(s)
  {
    if pad == [] {
      assert pad + s == s;
    } else {
      assert (pad + s)[1..] == pad[1..] + s;
      TrimStartDrops(pad[1..], s);
    }
  }

  lemma {:induction false} TrimEndDrops(s: string, pad: string)
    requires AllBlank(pad)
    ensures TrimEnd(s + pad) == TrimEnd(s)
  {
    if pad == [] {
      assert s + pad == s;
    } else {
      assert (s + pad)[..|s + pad| - 1] == s + pad[..|pad| - 1];
      TrimEndDrops(s, pad[..|pad| - 1]);
    }
  }

  lemma {:induction false} TrimFinds(left: string, core: string, right: string)
    requires AllBlank(left) && AllBlank(right) && Bare(core)
    ensures Trim(left + core + right) == core
  {
    assert left + core + right == left + (core + right);
    TrimStartDrops(left, core + right);
    if core == [] {
      assert core + right == right + [];
      TrimStartDrops(right, []);
    } else {
      TrimEndDrops(core, right);
    }
  }

  /** Padding never changes a line's meaning; in particular a CR before the LF does not. */
  lemma {:induction false} PaddingIsInvisible(before: string, line: string, after: string, delta: string -> string)
    requires AllBlank(before) && AllBlank(after)
    ensures ParseLine(before + line + after, delta) == ParseLine(line, delta)
  {
    var left, right := TrimSplits(line);
    assert before + line + after == (before + left) + Trim(line) + (right + after);
    TrimFinds(before + left, Trim(line), right + after);
  }

  /** The shape of a terminator line, written without trimming. */
  ghost predicate Terminator(line: string, a: string, b: string, c: string) {
    AllBlank(a) && AllBlank(b) && AllBlank(c) && line == a + FIELD + b + DONE + c
  }

  lemma Regroup(a: string, f: string, b: string, d: string, c: string, e: string)
    ensures a + (f + (b + d + c)) + e == a + f + b + d + (c + e)
  {
  }

  lemma {:induction false} TerminatorParts(line: string, delta: string -> string)
    returns (a: string, b: string, c: string)
    requires ParseLine(line, delta).done
    ensures Terminator(line, a, b, c)
  {
    var inner, outer;
    a, outer := TrimSplits(line);
    b, inner := TrimSplits(Trim(line)[5..]);
    c := inner + outer;
    assert Trim(line) == FIELD + Trim(line)[5..];
    Regroup(a, FIELD, b, DONE, inner, outer);
  }

  /** A line ends the stream exactly when it is a `data:` field holding `[DONE]`, blanks aside. */
  lemma {:induction false} DoneIff(line: string, delta: string -> string)
    ensures ParseLine(line, delta).done <==> exists a, b, c :: Terminator(line, a, b, c)
  {
    if ParseLine(line, delta).done {
      var a, b, c := TerminatorParts(line, delta);
    }
    if exists a, b, c :: Terminator(line, a, b, c) {
      var a, b, c :| Terminator(line, a, b, c);
      TerminatorEnds(line, a, b, c, delta);
    }
  }

  lemma {:induction false} TerminatorEnds(line: string, a: string, b: string, c: string, delta: string -> string)
    requires Terminator(line, a, b, c)
    ensures ParseLine(line, delta).done
  {
    var core := FIELD + b + DONE;
    assert line == a + core + c;
    assert core[0] == 'd' && core[|core| - 1] == ']';
    TrimFinds(a, core, c);
    assert core[5..] == b + DONE + [];
    TrimFinds(b, DONE, []);
    assert core[..5] == FIELD;
  }

  /** The shape of a data line, written without trimming: blanks, the field, blanks, a bare value, blanks. */
  ghost predicate DataLine(line: string, a: string, b: string, value: string, c: string) {
    && AllBlank(a) && AllBlank(b) && AllBlank(c) && Bare(value)
    && line == a + FIELD + b + value + c
  }

  lemma {:induction false} ValueIsFound(line: string, a: string, b: string, value: string, c: string,
                                        delta: string -> string)
    requires DataLine(line, a, b, value, c) && value != []
    ensures ParseLine(line, delta) == if value == DONE then Event([], true) else Event(delta(value), false)
  {
    var core := FIELD + b + value;
    assert line == a + core + c && core[0] == 'd' && core[|core| - 1] == value[|value| - 1];
    TrimFinds(a, core, c);
    assert core[5..] == b + value + [];
    TrimFinds(b, value, []);
    assert core[..5] == FIELD;
  }

  /** A data line means its value, the marker or the text it carries. */
  lemma {:induction false} DataLineMeans(line: string, a: string, b: string, value: string, c: string,
                                         delta: string -> string)
    requires DataLine(line, a, b, value, c) && value != []
    ensures ParseLine(line, delta).done <==> value == "[DONE]"
    ensures ParseLine(line, delta).delta == if value == "[DONE]" then "" else delta(value)
  {
    ValueIsFound(line, a, b, value, c, delta);
  }

  lemma {:induction false} FieldInLine(line: string)
    requires FIELD <= Trim(line)
    ensures exists a, rest :: AllBlank(a) && line == a + FIELD + rest
  {
    var a, c := TrimSplits(line);
    var rest := Trim(line)[5..] + c;
    assert Trim(line) == FIELD + Trim(line)[5..];
    assert line == a + FIELD + rest;
  }

  /** A line whose first word is not the data field says nothing. */
  lemma {:induction false} OtherLinesSayNothing(line: string, delta: string -> string)
    requires forall a, rest :: AllBlank(a) ==> line != a + FIELD + rest
    ensures ParseLine(line, delta) == Event("", false)
  {
    if FIELD <= Trim(line) { FieldInLine(line); }
  }

  lemma {:induction false} ParseDataLine(text: string, delta: string -> string)
    requires Bare(text) && text != [] && text != DONE
    ensures ParseLine(FIELD + text, delta) == Event(delta(text), false)
  {
    var line := FIELD + text;
    assert line == [] + line + [] && text == [] + text + [];
    TrimFinds([], line, []);
    TrimFinds([], text, []);
    assert line[5..] == text && line[..5] == FIELD;
  }

  /** A terminator line, then a data line that carries text, in one chunk or in two: the text shown differs. */
  lemma {:induction false} CutAfterDoneMatters(json: string, delta: string -> string)
    requires Bare(json) && json != [] && json != DONE && '\n' !in json && delta(json) != []
    ensures var parse := (line: string) => ParseLine(line, delta);
      var first, second := FIELD + DONE + ['\n'], FIELD + json + ['\n'];
      && Concat([first + second]) == Concat([first, second])
      && PageText([first + second], parse) == [] && PageText([first, second], parse) == delta(json)
  {
    var parse := (line: string) => ParseLine(line, delta);
    var d, x := FIELD + DONE, FIELD + json;
    assert d == [] + FIELD + [] + DONE + [];
    TerminatorEnds(d, [], [], [], delta);
    ParseDataLine(json, delta);
    CutAfterDone(d, x, parse);
  }

  /** The smallest chat-completion chunk with text. */
  const CHUNK := "{\"choices\":[{\"text\":\"x\"}]}"

  lemma {:induction false} ChunkIsPlain()
    ensures Bare(CHUNK) && CHUNK != [] && CHUNK != DONE && '\n' !in CHUNK
  {
  }

  /** A gateway that sends one more chunk after `[DONE]`: "x" is shown or not, depending on the cut. */
  lemma {:induction false} ChunkAfterDone(delta: string -> string)
    requires delta(CHUNK) == "x"
    ensures var parse := (line: string) => ParseLine(line, delta);
      var first, second := FIELD + DONE + ['\n'], FIELD + CHUNK + ['\n'];
      PageText([first + second], parse) == "" && PageText([first, second], parse) == "x"
  {
    ChunkIsPlain();
    CutAfterDoneMatters(CHUNK, delta);
  }
}
