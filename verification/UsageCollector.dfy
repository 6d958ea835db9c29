/** Collecting token usage from a response that arrives in arbitrary pieces. */
module UsageCollection {
  import opened Options

  newtype byte = b: int | 0 <= b < 256

  type Bytes = seq<byte>

  const BODY_CAP: nat := 16 * 1024 * 1024
  const NEWLINE: byte := 10
  const RETURN: byte := 13
  const DATA: Bytes := [100, 97, 116, 97, 58]
  const DONE: Bytes := [91, 68, 79, 78, 69, 93]

  predicate Blank(b: byte) { 9 <= b <= 13 || b == 32 }

  /** Where the first newline is; the length when there is none. */
  function NextNewline(s: Bytes): (i: nat)
    ensures i <= |s| && NEWLINE !in s[..i]
    ensures i < |s| ==> s[i] == NEWLINE
  {
    if s == [] || s[0] == NEWLINE then 0 else 1 + NextNewline(s[1..])
  }

  function TrimReturns(s: Bytes): Bytes
  {
    if s != [] && s[|s| - 1] == RETURN then TrimReturns(s[..|s| - 1]) else s
  }

  function TrimLeft(s: Bytes): Bytes { if s != [] && Blank(s[0]) then TrimLeft(s[1..]) else s }

  function TrimRight(s: Bytes): Bytes { if s != [] && Blank(s[|s| - 1]) then TrimRight(s[..|s| - 1]) else s }

  /** The usage object of one line, where `parse` is the usage object of a JSON text, if it has one. */
  function LineUsage<U>(parse: Bytes -> Option<U>, raw: Bytes): Option<U>
  {
    var line := TrimReturns(raw);
    if !(DATA <= line) then None else
    var data := TrimRight(TrimLeft(line[|DATA|..]));
    if data == [] || data == DONE then None else parse(data)
  }

  // ----- what a line says -----

  /** The bytes of an ASCII text. */
  function Ascii(text: string): Bytes
    requires forall c | c in text :: c as int < 128
  {
    seq(|text|, i requires 0 <= i < |text| => assert text[i] in text; text[i] as int as byte)
  }

  /** White space as `strip` takes it: tab, line feed, vertical tab, form feed, return, blank. */
  ghost predicate White(s: Bytes) { forall b | b in s :: b in Ascii("\t\n\U{0B}\U{0C}\r ") }

  /** A text that `strip` leaves alone. */
  ghost predicate Stripped(s: Bytes) { s != [] ==> !White([s[0]]) && !White([s[|s| - 1]]) }

  lemma {:induction false} Literals()
    ensures DATA == Ascii("data:") && DONE == Ascii("[DONE]") && [NEWLINE] == Ascii("\n") && [RETURN] == Ascii("\r")
    ensures BODY_CAP == 0x100_0000
  {
  }

  lemma {:induction false} BlankIsWhite(b: byte)
    ensures Blank(b) <==> White([b])
  {
    var w := Ascii("\t\n\U{0B}\U{0C}\r ");
    assert w == [9, 10, 11, 12, 13, 32];
    assert b in w <==> b == 9 || b == 10 || b == 11 || b == 12 || b == 13 || b == 32;
    assert White([b]) <==> b in w by { assert [b][0] == b; }
  }

  lemma {:induction false} TrimsLeft(left: Bytes, text: Bytes)
    requires White(left) && text != [] && !White([text[0]])
    ensures TrimLeft(left + text) == text
  {
    if left == [] {
      assert left + text == text;
      BlankIsWhite(text[0]);
    } else {
      BlankIsWhite(left[0]);
      assert White([left[0]]) && White(left[1..]);
      assert (left + text)[1..] == left[1..] + text;
      TrimsLeft(left[1..], text);
    }
  }

  lemma {:induction false} TrimsRight(text: Bytes, right: Bytes)
    requires White(right) && text != [] && !White([text[|text| - 1]])
    ensures TrimRight(text + right) == text
  {
    if right == [] {
      assert text + right == text;
      BlankIsWhite(text[|text| - 1]);
    } else {
      var last := |right| - 1;
      BlankIsWhite(right[last]);
      assert White([right[last]]) && White(right[..last]);
      assert (text + right)[..|text + right| - 1] == text + right[..last];
      TrimsRight(text, right[..last]);
    }
  }

  lemma {:induction false} TrimsAll(s: Bytes)
    requires White(s)
    ensures TrimLeft(s) == []
  {
    if s != [] {
      BlankIsWhite(s[0]);
      assert White([s[0]]) && White(s[1..]);
      TrimsAll(s[1..]);
    }
  }

  lemma {:induction false} TrimsReturns(line: Bytes, n: nat)
    requires line != [] ==> line[|line| - 1] != RETURN
    ensures TrimReturns(line + seq(n, _ => RETURN)) == line
  {
    var s := line + seq(n, _ => RETURN);
    if n == 0 {
      assert s == line;
    } else {
      assert s[..|s| - 1] == line + seq(n - 1, _ => RETURN);
      TrimsReturns(line, n - 1);
    }
  }

  /** A line `data:` with a text between white space, and any number of returns at its end, reports what the text parses
      to; with nothing or `[DONE]` in it, it reports nothing. */
  lemma {:induction false} DataLine<U>(parse: Bytes -> Option<U>, left: Bytes, text: Bytes, right: Bytes, carriage: nat)
    requires White(left) && White(right) && text != [] && Stripped(text)
    requires right != [] ==> right[|right| - 1] != Ascii("\r")[0]
    ensures LineUsage(parse, Ascii("data:") + left + text + right + seq(carriage, _ => RETURN)) == if text == Ascii("[DONE]") then None else parse(text)
  {
    Literals();
    var line := DATA + left + text + right;
    if right == [] { BlankIsWhite(text[|text| - 1]); assert line[|line| - 1] == text[|text| - 1]; }
    TrimsReturns(line, carriage);
    assert Ascii("data:") + left + text + right + seq(carriage, _ => RETURN) == line + seq(carriage, _ => RETURN);
    assert line[|DATA|..] == left + (text + right);
    assert (text + right)[0] == text[0];
    TrimsLeft(left, text + right);
    TrimsRight(text, right);
  }

  lemma {:induction false} OtherLine<U>(parse: Bytes -> Option<U>, raw: Bytes, white: Bytes)
    requires White(white) && (white != [] ==> white[|white| - 1] != Ascii("\r")[0])
    ensures !(Ascii("data:") <= raw) ==> LineUsage(parse, raw) == None
    ensures LineUsage(parse, Ascii("data:") + white) == None
  {
    Literals();
    ReturnsTrimmed(raw);
    var line := DATA + white;
    assert seq(0, _ => RETURN) == [] && line + [] == line;
    TrimsReturns(line, 0);
    assert line[|DATA|..] == white;
    TrimsAll(white);
  }

  lemma {:induction false} ReturnsTrimmed(s: Bytes)
    ensures TrimReturns(s) <= s
  {
    if s != [] { ReturnsTrimmed(s[..|s| - 1]); }
  }

  /** The complete lines of a stream, without their newlines. */
  function Lines(s: Bytes): seq<Bytes>
    decreases |s|
  {
    var i := NextNewline(s);
    if i == |s| then [] else [s[..i]] + Lines(s[i + 1..])
  }

  /** What follows the last newline. */
  function Tail(s: Bytes): Bytes
    decreases |s|
  {
    var i := NextNewline(s);
    if i == |s| then s else Tail(s[i + 1..])
  }

  /** Usage after some lines: a later report replaces an earlier one. */
  function After<U>(parse: Bytes -> Option<U>, usage: Option<U>, lines: seq<Bytes>): Option<U>
    decreases lines
  {
    if lines == [] then usage else
    var u := LineUsage(parse, lines[0]);
    After(parse, if u.Some? then u else usage, lines[1..])
  }

  /** Reading everything at once: the last line that reports usage, counting an unfinished last line. */
  function LastReport<U>(parse: Bytes -> Option<U>, lines: seq<Bytes>): Option<U>
  {
    if lines == [] then None else
    var u := LineUsage(parse, lines[|lines| - 1]);
    if u.Some? then u else LastReport(parse, lines[..|lines| - 1])
  }

  function AllLines(s: Bytes): seq<Bytes> { Lines(s) + if Tail(s) == [] then [] else [Tail(s)] }

  function Concat(chunks: seq<Bytes>): Bytes
  {
    if chunks == [] then [] else Concat(chunks[..|chunks| - 1]) + chunks[|chunks| - 1]
  }

  function Rejoined(lines: seq<Bytes>): Bytes
  {
    if lines == [] then [] else lines[0] + [NEWLINE] + Rejoined(lines[1..])
  }

  /** A stream is its complete lines, each with its newline, and its tail; neither a line nor the tail has a newline in it. */
  lemma {:induction false} StreamIsItsLines(s: Bytes)
    ensures Rejoined(Lines(s)) + Tail(s) == s
    decreases |s|
  {
    OneLine(s);
    assert Rejoined([]) == [];
    hide Lines, Tail, NextNewline, Rejoined;
    var i := NextNewline(s);
    if i < |s| {
      var line, rest := s[..i], s[i + 1..];
      StreamIsItsLines(rest);
      RejoinedOne(line, Lines(rest));
      Regrouped(line + [NEWLINE], Rejoined(Lines(rest)), Tail(rest));
      CutAt(s, i);
    } else {
      Regrouped([], [], s);
    }
  }

  lemma {:induction false} CutAt(s: Bytes, i: nat)
    requires i < |s| && s[i] == NEWLINE
    ensures s == s[..i] + [NEWLINE] + s[i + 1..]
  {
  }

  lemma {:induction false} NoNewlineInside(s: Bytes)
    ensures NEWLINE !in Tail(s) && forall line | line in Lines(s) :: NEWLINE !in line
    decreases |s|
  {
    OneLine(s);
    hide Lines, Tail, NextNewline;
    var i := NextNewline(s);
    if i < |s| {
      NoNewlineInside(s[i + 1..]);
    } else {
      assert s[..i] == s;
    }
  }

  lemma {:induction false} Regrouped(a: Bytes, b: Bytes, c: Bytes)
    ensures a + b + c == a + (b + c)
  {
  }

  lemma {:induction false} RejoinedOne(line: Bytes, lines: seq<Bytes>)
    ensures Rejoined([line] + lines) == line + [NEWLINE] + Rejoined(lines)
  {
    assert ([line] + lines)[1..] == lines;
  }

  /** At the end of the stream an unfinished last line counts, and nothing else is added. */
  lemma {:induction false} UnfinishedCounts(s: Bytes, rest: Bytes)
    requires Tail(s) == [] && NEWLINE !in rest
    ensures AllLines(s + rest) == Lines(s) + if rest == [] then [] else [rest]
  {
    SplitAnywhere(s, rest);
    assert [] + rest == rest;
    assert NextNewline(rest) == |rest|;
    OneLine(rest);
    assert Lines(s) + [] == Lines(s);
  }

  lemma {:induction false} NextNewlineOfSum(a: Bytes, b: Bytes)
    ensures NextNewline(a) < |a| ==> NextNewline(a + b) == NextNewline(a)
    ensures NextNewline(a) == |a| ==> NextNewline(a + b) == |a| + NextNewline(b)
  {
    if a == [] {
      assert a + b == b;
    } else if a[0] != NEWLINE {
      NextNewlineOfSum(a[1..], b);
      assert (a + b)[1..] == a[1..] + b;
    }
  }

  lemma {:induction false} OneLine(s: Bytes)
    ensures var i := NextNewline(s);
            if i < |s| then Lines(s) == [s[..i]] + Lines(s[i + 1..]) && Tail(s) == Tail(s[i + 1..])
            else Lines(s) == [] && Tail(s) == s
  {
  }

  /** Splitting a stream anywhere: the unfinished tail of the first part opens the second part. */
  lemma {:induction false} SplitAnywhere(a: Bytes, b: Bytes)
    ensures Lines(a + b) == Lines(a) + Lines(Tail(a) + b)
    ensures Tail(a + b) == Tail(Tail(a) + b)
    decreases |a|
  {
    var i := NextNewline(a);
    NextNewlineOfSum(a, b);
    OneLine(a);
    OneLine(a + b);
    hide Lines, Tail, NextNewline;
    if i < |a| {
      assert (a + b)[..i] == a[..i] && (a + b)[i + 1..] == a[i + 1..] + b;
      SplitAnywhere(a[i + 1..], b);
    }
  }

  lemma {:induction false} AfterSum<U>(parse: Bytes -> Option<U>, usage: Option<U>, xs: seq<Bytes>, ys: seq<Bytes>)
    ensures After(parse, usage, xs + ys) == After(parse, After(parse, usage, xs), ys)
    decreases xs
  {
    if xs == [] {
      assert xs + ys == ys;
    } else {
      assert (xs + ys)[1..] == xs[1..] + ys;
      var u := LineUsage(parse, xs[0]);
      AfterSum(parse, if u.Some? then u else usage, xs[1..], ys);
    }
  }

  /** Reading forward and overwriting finds the same report as searching from the end. */
  lemma {:induction false} AfterIsLastReport<U>(parse: Bytes -> Option<U>, usage: Option<U>, lines: seq<Bytes>)
    ensures After(parse, usage, lines) == if LastReport(parse, lines).Some? then LastReport(parse, lines) else usage
  {
    if lines != [] {
      var front, last := lines[..|lines| - 1], lines[|lines| - 1];
      assert lines == front + [last];
      AfterSum(parse, usage, front, [last]);
      AfterIsLastReport(parse, usage, front);
    }
  }

  /** The collector's state is a function of the bytes alone, whatever the chunk boundaries. */
  lemma {:induction false} ChunksDoNotMatter<U>(parse: Bytes -> Option<U>, usage: Option<U>, pending: Bytes, a: Bytes, b: Bytes)
    ensures var mid := Tail(pending + a);
            && Tail(mid + b) == Tail(pending + (a + b))
            && After(parse, After(parse, usage, Lines(pending + a)), Lines(mid + b)) == After(parse, usage, Lines(pending + (a + b)))
  {
    assert pending + (a + b) == (pending + a) + b;
    SplitAnywhere(pending + a, b);
    AfterSum(parse, usage, Lines(pending + a), Lines(Tail(pending + a) + b));
  }

  lemma {:induction false} AfterNone<U>(parse: Bytes -> Option<U>, usage: Option<U>)
    ensures After(parse, usage, []) == usage
  {
  }

  class UsageCollector<U> {
    const sse: bool
    const parse: Bytes -> Option<U>
    var pending: Bytes
    var body: Bytes
    var usage: Option<U>
    var responseBytes: nat

    constructor (sse: bool, parse: Bytes -> Option<U>)
      ensures this.sse == sse && this.parse == parse
      ensures pending == [] && body == [] && usage == None && responseBytes == 0
    {
      this.sse, this.parse := sse, parse;
      pending, body, usage, responseBytes := [], [], None, 0;
    }

    /** The state reached after exactly `stream` has been fed, in whatever pieces. */
    ghost predicate Has(stream: Bytes)
      reads this
    {
      && responseBytes == |stream|
      && (sse ==> pending == Tail(stream) && usage == After(parse, None, Lines(stream)) && body == [])
      && (!sse ==> pending == [] && usage == None && body == stream[..if |stream| < BODY_CAP then |stream| else BODY_CAP])
    }

    method Feed(chunk: Bytes, ghost stream: Bytes)
      requires Has(stream)
      modifies this
      ensures Has(stream + chunk)
    {
      responseBytes := responseBytes + |chunk|;
      if !sse {
        if |body| < BODY_CAP {
          var room := BODY_CAP - |body|;
          body := body + chunk[..if |chunk| < room then |chunk| else room];
        }
        return;
      }
      pending := pending + chunk;
      DrainLines();
      ChunksDoNotMatter(parse, None, [], stream, chunk);
      assert [] + stream == stream && [] + (stream + chunk) == stream + chunk;
    }

    /** The loop that takes complete lines off the pending bytes. */
    method DrainLines()
      modifies this`pending, this`usage
      ensures pending == Tail(old(pending)) && usage == After(parse, old(usage), Lines(old(pending)))
    {
      hide Lines, Tail, After, LineUsage;
      ghost var done: seq<Bytes> := [];
      AfterNone(parse, usage);
      while NextNewline(pending) < |pending|
        invariant Lines(old(pending)) == done + Lines(pending) && Tail(old(pending)) == Tail(pending)
        invariant usage == After(parse, old(usage), done)
        decreases |pending|
      {
        OneLine(pending);
        var i := NextNewline(pending);
        var line := pending[..i];
        AfterSum(parse, old(usage), done, [line]);
        done := done + [line];
        pending := pending[i + 1..];
        ConsumeLine(line);
      }
      OneLine(pending);
      assert done + [] == done;
    }

    method ConsumeLine(raw: Bytes)
      modifies this`usage
      ensures usage == After(parse, old(usage), [raw])
    {
      var line := TrimReturns(raw);
      if !(DATA <= line) { return; }
      var data := TrimRight(TrimLeft(line[|DATA|..]));
      if data == [] || data == DONE { return; }
      var value := parse(data);
      if value.Some? { usage := value; }
    }

    method Finish(ghost stream: Bytes)
      requires Has(stream)
      modifies this
      ensures responseBytes == |stream|
      ensures sse ==> usage == LastReport(parse, AllLines(stream))
      ensures !sse ==> usage == parse(stream[..if |stream| < BODY_CAP then |stream| else BODY_CAP])
    {
      if sse {
        if pending != [] { ConsumeLine(pending); }
        AfterSum(parse, None, Lines(stream), if pending == [] then [] else [pending]);
        AfterIsLastReport(parse, None, AllLines(stream));
        return;
      }
      usage := parse(body);
    }
  }

  /** A whole response, in any chunks: the result is that of one scan over all its bytes. */
  method Collect<U>(sse: bool, parse: Bytes -> Option<U>, chunks: seq<Bytes>) returns (usage: Option<U>, responseBytes: nat, body: Bytes)
    ensures var stream := Concat(chunks);
            var capped := stream[..if |stream| < BODY_CAP then |stream| else BODY_CAP];
            && responseBytes == |stream|
            && usage == (if sse then LastReport(parse, AllLines(stream)) else parse(capped))
            && body == (if sse then [] else capped)
  {
    var collector := new UsageCollector(sse, parse);
    for k := 0 to |chunks|
      invariant collector.Has(Concat(chunks[..k])) && collector.sse == sse && collector.parse == parse
    {
      collector.Feed(chunks[k], Concat(chunks[..k]));
      assert chunks[..k + 1][..k] == chunks[..k];
    }
    assert chunks[..|chunks|] == chunks;
    body := collector.body;
    collector.Finish(Concat(chunks));
    usage, responseBytes := collector.usage, collector.responseBytes;
  }
}
