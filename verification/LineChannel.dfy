/** Line assembly of FluidNC/src/Channel.cpp: realtime bytes are taken out, the others queued or put
    into the line buffer, and CR, LF and CR-LF each end a line. */
module LineChannel {
  import opened Bytes
  import opened Options

  const MAX_LINE := 255
  const NUL: Byte := 0
  const BACKSPACE: Byte := 8
  const LF: Byte := 10
  const CR: Byte := 13

  // is_realtime_command: everything above ASCII, Ctrl-X, '?', '~' and '!'.
  predicate Realtime(b: Byte) {
    b >= 0x80 || b == 0x18 || b == 63 || b == 126 || b == 33
  }

  function Plain(bytes: seq<Byte>): (r: seq<Byte>)
    ensures forall b :: b in r ==> !Realtime(b)
    decreases |bytes|
  {
    if bytes == [] then [] else (if Realtime(bytes[0]) then [] else [bytes[0]]) + Plain(bytes[1..])
  }

  function RealtimeOf(bytes: seq<Byte>): seq<Byte>
    decreases |bytes|
  {
    if bytes == [] then [] else (if Realtime(bytes[0]) then [bytes[0]] else []) + RealtimeOf(bytes[1..])
  }

  lemma {:induction false} PlainSplit(a: seq<Byte>, b: seq<Byte>)
    ensures Plain(a + b) == Plain(a) + Plain(b) && RealtimeOf(a + b) == RealtimeOf(a) + RealtimeOf(b)
    decreases |a|
  {
    hide Realtime;
    if a == [] {
      assert a + b == b;
    } else {
      assert (a + b)[1..] == a[1..] + b;
      PlainSplit(a[1..], b);
      PlainHead([], [], a + b);
      PlainHead([], [], a);
      hide Plain, RealtimeOf;
      var p, r := if Realtime(a[0]) then [] else [a[0]], if Realtime(a[0]) then [a[0]] else [];
      assert Plain(a + b) == p + Plain(a[1..] + b) && Plain(a) == p + Plain(a[1..]);
      assert RealtimeOf(a + b) == r + RealtimeOf(a[1..] + b) && RealtimeOf(a) == r + RealtimeOf(a[1..]);
      Assoc(p, Plain(a[1..]), Plain(b));
      Assoc(r, RealtimeOf(a[1..]), RealtimeOf(b));
    }
  }

  lemma PlainHead(q: seq<Byte>, h: seq<Byte>, input: seq<Byte>)
    requires input != []
    ensures q + Plain(input) == (if Realtime(input[0]) then q else q + [input[0]]) + Plain(input[1..])
    ensures h + RealtimeOf(input) == (if Realtime(input[0]) then h + [input[0]] else h) + RealtimeOf(input[1..])
  {
    hide Realtime;
    var p, r := Plain(input[1..]), RealtimeOf(input[1..]);
    assert Plain(input) == (if Realtime(input[0]) then [] else [input[0]]) + p;
    assert RealtimeOf(input) == (if Realtime(input[0]) then [input[0]] else []) + r;
    hide Plain, RealtimeOf;
    Assoc(q, [input[0]], p);
    Assoc(h, [input[0]], r);
  }

  lemma Assoc(a: seq<Byte>, b: seq<Byte>, c: seq<Byte>)
    ensures a + (b + c) == a + b + c && [] + c == c
  {
  }

  lemma PlainNone(q: seq<Byte>, h: seq<Byte>)
    ensures q + Plain([]) == q && h + RealtimeOf([]) == h
  {
  }

  // ---- Assembling lines --------------------------------------------------------------------------------

  // The line so far and _lastWasCR.
  datatype Assembly = Assembly(line: seq<Byte>, wasCR: bool)

  // The line is handed over as a C string.
  function CString(line: seq<Byte>): (r: seq<Byte>)
    ensures NUL !in r && r <= line && (NUL !in line ==> r == line)
    decreases |line|
  {
    if line == [] || line[0] == NUL then [] else [line[0]] + CString(line[1..])
  }

  lemma CStringStep(text: seq<Byte>, line: seq<Byte>, i: nat)
    requires i < |line| && line[i] != NUL
    ensures text + CString(line[i..]) == text + [line[i]] + CString(line[i + 1..])
  {
    assert line[i..][1..] == line[i + 1..];
  }

  lemma CStringEnd(text: seq<Byte>, line: seq<Byte>, i: nat)
    requires i <= |line| && (i == |line| || line[i] == NUL)
    ensures text + CString(line[i..]) == text
  {
  }

  // A byte that does not end a line: backspace erases, and what does not fit is dropped.
  function Type(line: seq<Byte>, b: Byte): (r: seq<Byte>)
    ensures |line| < MAX_LINE ==> |r| < MAX_LINE
  {
    if b == BACKSPACE then (if line == [] then [] else line[..|line| - 1])
    else if |line| < MAX_LINE - 1 then line + [b]
    else line
  }

  // lineComplete
  function Complete(a: Assembly, b: Byte): (Assembly, Option<seq<Byte>>) {
    if b == LF then (if a.wasCR then (a.(wasCR := false), None) else (a.(line := []), Some(CString(a.line))))
    else if b == CR then (Assembly([], true), Some(CString(a.line)))
    else (Assembly(Type(a.line, b), false), None)
  }

  datatype Lines = Lines(lines: seq<seq<Byte>>, rest: Assembly)

  // The lines of a whole text.
  function Split(a: Assembly, text: seq<Byte>): Lines
    decreases |text|
  {
    if text == [] then Lines([], a)
    else
      var (next, done) := Complete(a, text[0]);
      var tail := Split(next, text[1..]);
      if done.Some? then Lines([done.value] + tail.lines, tail.rest) else tail
  }

  lemma {:induction false} SplitAppend(a: Assembly, x: seq<Byte>, y: seq<Byte>)
    ensures var first := Split(a, x);
            var second := Split(first.rest, y);
            Split(a, x + y) == Lines(first.lines + second.lines, second.rest)
    decreases |x|
  {
    if x == [] {
      assert x + y == y;
    } else {
      assert (x + y)[1..] == x[1..] + y;
      SplitAppend(Complete(a, x[0]).0, x[1..], y);
    }
  }

  // What is delivered of `x` early stays delivered when `y` follows.
  lemma SplitChain(a: Assembly, x: seq<Byte>, out: seq<seq<Byte>>, b: Assembly, z: seq<Byte>, y: seq<Byte>)
    requires Split(a, x) == Lines(out + Split(b, z).lines, Split(b, z).rest)
    ensures Split(a, x + y) == Lines(out + Split(b, z + y).lines, Split(b, z + y).rest)
  {
    hide Split;
    SplitAppend(a, x, y);
    SplitAppend(b, z, y);
    var more := Split(Split(b, z).rest, y).lines;
    assert out + Split(b, z).lines + more == out + (Split(b, z).lines + more);
  }

  // ---- Typing ------------------------------------------------------------------------------------------

  // A byte that stands for itself in a line.
  predicate Ordinary(b: Byte) {
    b != 0 && b != 8 && b != 10 && b != 13
  }

  lemma OrdinaryStep(a: Assembly, text: seq<Byte>, more: seq<Byte>)
    requires text != [] && forall b :: b in text ==> Ordinary(b)
    ensures forall b :: b in text[1..] ==> Ordinary(b)
    ensures Split(a, text + more) ==
            Split(Assembly(if |a.line| < 254 then a.line + [text[0]] else a.line, false), text[1..] + more)
  {
    assert (text + more)[0] == text[0] && (text + more)[1..] == text[1..] + more && text[0] in text;
    assert Complete(a, text[0]) == (Assembly(Type(a.line, text[0]), false), None);
  }

  lemma {:induction false} TypedGrows(a: Assembly, text: seq<Byte>, more: seq<Byte>)
    requires text != [] && (forall b :: b in text ==> Ordinary(b)) && |a.line| + |text| < 255
    ensures Split(a, text + more) == Split(Assembly(a.line + text, false), more)
    decreases |text|
  {
    var next := Assembly(a.line + [text[0]], false);
    OrdinaryStep(a, text, more);
    hide Split;
    if |text| > 1 {
      TypedGrows(next, text[1..], more);
      assert a.line + [text[0]] + text[1..] == a.line + text;
    } else {
      assert text[1..] + more == more && a.line + text == next.line;
    }
  }

  /** A typed line that fits is delivered as it was typed, whether LF or CR ends it. */
  lemma TypedIsDelivered(text: seq<Byte>, end: Byte)
    requires (forall b :: b in text ==> Ordinary(b)) && |text| < 255 && (end == 10 || end == 13)
    ensures Split(Assembly([], false), text + [end]) == Lines([text], Assembly([], end == 13))
  {
    var a := Assembly(text, false);
    if text != [] {
      TypedGrows(Assembly([], false), text, [end]);
      assert [] + text == text;
    } else {
      assert text + [end] == [end];
    }
    assert NUL !in text;
    assert CString(text) == text;
    assert [end][1..] == [];
    assert Split(a, [end]) == Lines([text], Assembly([], end == 13));
  }

  /** A backspace takes back the byte before it, and nothing at the start of a line. */
  lemma BackspaceErases(a: Assembly, b: Byte, more: seq<Byte>)
    requires Ordinary(b) && |a.line| < 254
    ensures Split(a, [b, 8] + more) == Split(a.(wasCR := false), more)
    ensures a.line == [] ==> Split(a, [8] + more) == Split(a.(wasCR := false), more)
  {
    assert ([b, 8] + more)[1..] == [8] + more && ([8] + more)[1..] == more;
    assert (a.line + [b])[..|a.line + [b]| - 1] == a.line;
    assert Split(a, [b, 8] + more) == Split(Assembly(a.line + [b], false), [8] + more);
  }

  // Of a line too long the first 254 bytes are kept.
  lemma {:induction false} LongLineIsCut(line: seq<Byte>, text: seq<Byte>, more: seq<Byte>)
    requires |line| == 254 && text != [] && forall b :: b in text ==> Ordinary(b)
    ensures Split(Assembly(line, false), text + more) == Split(Assembly(line, false), more)
    decreases |text|
  {
    OrdinaryStep(Assembly(line, false), text, more);
    hide Split;
    if |text| > 1 {
      LongLineIsCut(line, text[1..], more);
    } else {
      assert text[1..] + more == more;
    }
  }

  // Of the ASCII bytes Ctrl-X, '!', '?' and '~' are realtime commands.
  lemma AsciiRealtime(b: Byte)
    requires b < 128
    ensures Realtime(b) <==> b in {24, 33, 63, 126}
  {
  }

  // ---- Polling -----------------------------------------------------------------------------------------

  datatype Chan = Chan(assembly: Assembly, queue: seq<Byte>, input: seq<Byte>, paused: bool, handled: seq<Byte>)

  // Bytes that will still go into lines.
  function Ahead(c: Chan): seq<Byte> {
    c.queue + Plain(c.input)
  }

  // pollLine(nullptr)
  function PollNull(c: Chan): Chan {
    if c.paused then c
    else c.(queue := c.queue + Plain(c.input), input := [], handled := c.handled + RealtimeOf(c.input))
  }

  // What pollLine(line) answers. A paused channel answers Ok, as for a line, and leaves the caller's
  // buffer as it was.
  datatype Answer = Line(text: seq<Byte>) | NoData | OkWithoutLine

  // pollLine(line): the queue first, then what read() gives.
  function PollBuf(c: Chan): (Chan, Answer)
    decreases |c.queue| + |c.input|
  {
    if c.paused then (c, OkWithoutLine)
    else if c.queue == [] && c.input == [] then (c, NoData)
    else
      var b := if c.queue != [] then c.queue[0] else c.input[0];
      var rest := if c.queue != [] then c.(queue := c.queue[1..]) else c.(input := c.input[1..]);
      if Realtime(b) then PollBuf(rest.(handled := rest.handled + [b]))
      else
        var (next, done) := Complete(c.assembly, b);
        if done.Some? then (rest.(assembly := next), Line(done.value)) else PollBuf(rest.(assembly := next))
  }

  // The queue holds no realtime bytes, and the line buffer has room for the terminator.
  predicate Tidy(c: Chan) {
    (forall b :: b in c.queue ==> !Realtime(b)) && |c.assembly.line| < MAX_LINE
  }

  lemma {:induction false} PlainIsAll(q: seq<Byte>)
    requires forall b :: b in q ==> !Realtime(b)
    ensures Plain(q) == q && RealtimeOf(q) == []
    decreases |q|
  {
    if q != [] {
      PlainIsAll(q[1..]);
    }
  }

  lemma {:induction false} PollBufTakes(c: Chan)
    requires Tidy(c) && !c.paused
    ensures var (end, line) := PollBuf(c);
            && Tidy(end) && !end.paused
            && Split(c.assembly, Ahead(c)) ==
               Lines((if line.Line? then [line.text] else []) + Split(end.assembly, Ahead(end)).lines,
                     Split(end.assembly, Ahead(end)).rest)
            && !line.OkWithoutLine? && (line.NoData? ==> end.queue == [] && end.input == [])
            && end.handled + RealtimeOf(end.input) == c.handled + RealtimeOf(c.input)
    decreases |c.queue| + |c.input|
  {
    if c.queue == [] && c.input == [] {
      assert Ahead(c) == [];
    } else {
      var b := if c.queue != [] then c.queue[0] else c.input[0];
      var rest := if c.queue != [] then c.(queue := c.queue[1..]) else c.(input := c.input[1..]);
      hide Split;
      if Realtime(b) {
        assert Ahead(rest) == Ahead(c);
        assert rest.handled + [b] + RealtimeOf(rest.input) == c.handled + RealtimeOf(c.input);
        hide Ahead, Plain, RealtimeOf;
        PollBufTakes(rest.(handled := rest.handled + [b]));
      } else {
        assert Ahead(c) == [b] + Ahead(rest) && Ahead(c)[1..] == Ahead(rest);
        var (next, done) := Complete(c.assembly, b);
        assert rest.handled + RealtimeOf(rest.input) == c.handled + RealtimeOf(c.input);
        hide Ahead, Plain, RealtimeOf;
        if done.None? {
          PollBufTakes(rest.(assembly := next));
        }
      }
    }
  }

  /** A poll with a buffer delivers the next line as soon as it is complete, and finds no data only
      when there is none. */
  lemma PollDelivers(c: Chan)
    requires Tidy(c) && !c.paused
    ensures var (end, line) := PollBuf(c);
            var lines := Split(c.assembly, Ahead(c)).lines;
            && (line.Line? <==> lines != [])
            && (line.Line? ==> line.text == lines[0] && Split(end.assembly, Ahead(end)).lines == lines[1..])
  {
    PollBufTakes(c);
    var (end, line) := PollBuf(c);
    if line.NoData? {
      assert Ahead(end) == [];
    }
  }

  // ---- Runs --------------------------------------------------------------------------------------------

  datatype Call = Arrive(byte: Byte) | Null | Buf | Pause | Resume

  // One call, and its answer if that is Ok to a caller with a buffer.
  function Do(c: Chan, call: Call): (Chan, seq<Answer>) {
    match call
    case Arrive(b) => (c.(input := c.input + [b]), [])
    case Null => (PollNull(c), [])
    case Buf => var (next, answer) := PollBuf(c); (next, if answer.NoData? then [] else [answer])
    case Pause => (c.(paused := true), [])
    case Resume => (c.(paused := false), [])
  }

  function Run(c: Chan, calls: seq<Call>): (Chan, seq<Answer>)
    decreases |calls|
  {
    if calls == [] then (c, [])
    else
      var (next, out) := Do(c, calls[0]);
      var (end, more) := Run(next, calls[1..]);
      (end, out + more)
  }

  // The lines among the answers.
  function Delivered(answers: seq<Answer>): seq<seq<Byte>>
    decreases |answers|
  {
    if answers == [] then [] else (if answers[0].Line? then [answers[0].text] else []) + Delivered(answers[1..])
  }

  lemma {:induction false} DeliveredAppend(a: seq<Answer>, b: seq<Answer>)
    ensures Delivered(a + b) == Delivered(a) + Delivered(b)
    decreases |a|
  {
    if a == [] {
      assert a + b == b;
    } else {
      assert (a + b)[1..] == a[1..] + b;
      DeliveredAppend(a[1..], b);
    }
  }

  // Some poll with a buffer comes between a pause and its resume.
  predicate PolledPaused(paused: bool, calls: seq<Call>)
    decreases |calls|
  {
    calls != [] &&
    ((paused && calls[0].Buf?) ||
     PolledPaused(if calls[0].Pause? then true else if calls[0].Resume? then false else paused, calls[1..]))
  }

  function Arrivals(calls: seq<Call>): seq<Byte>
    decreases |calls|
  {
    if calls == [] then [] else (if calls[0].Arrive? then [calls[0].byte] else []) + Arrivals(calls[1..])
  }

  lemma NullKeeps(c: Chan)
    requires Tidy(c)
    ensures Tidy(PollNull(c)) && Ahead(PollNull(c)) == Ahead(c)
    ensures PollNull(c).handled + RealtimeOf(PollNull(c).input) == c.handled + RealtimeOf(c.input)
  {
  }

  // One call: what it delivers, with what is still ahead, is what was ahead with what arrived.
  lemma DoSplits(c: Chan, call: Call)
    requires Tidy(c)
    ensures var (next, out) := Do(c, call);
            var came := Came(call);
            && Tidy(next)
            && Split(c.assembly, Ahead(c) + Plain(came)) ==
               Lines(Delivered(out) + Split(next.assembly, Ahead(next)).lines, Split(next.assembly, Ahead(next)).rest)
            && next.paused == (if call.Pause? then true else if call.Resume? then false else c.paused)
            && ((forall a :: a in out ==> a.Line?) <==> !(c.paused && call.Buf?))
            && next.handled + RealtimeOf(next.input) == c.handled + RealtimeOf(c.input + came)
  {
    if call.Arrive? {
      PlainSplit(c.input, [call.byte]);
      assert Ahead(c) + Plain([call.byte]) == Ahead(c.(input := c.input + [call.byte]));
    } else {
      assert Ahead(c) + Plain([]) == Ahead(c) && c.input + [] == c.input;
      if call.Null? {
        NullKeeps(c);
      } else if call.Buf? && !c.paused {
        PollBufTakes(c);
      }
    }
  }

  function Came(call: Call): seq<Byte> {
    if call.Arrive? then [call.byte] else []
  }

  lemma RunNone(c: Chan)
    ensures Run(c, []) == (c, []) && Arrivals([]) == [] && Delivered([]) == []
  {
  }

  lemma RunOne(c: Chan, calls: seq<Call>)
    requires calls != []
    ensures var (next, out) := Do(c, calls[0]);
            Run(c, calls) == (Run(next, calls[1..]).0, out + Run(next, calls[1..]).1)
    ensures Arrivals(calls) == Came(calls[0]) + Arrivals(calls[1..])
  {
    hide Do;
  }

  lemma LinesAssoc(a: seq<seq<Byte>>, b: seq<seq<Byte>>, c: seq<seq<Byte>>)
    ensures a + (b + c) == a + b + c
  {
  }

  lemma StepLines(c: Chan, call: Call, later: seq<Byte>, more: seq<Answer>, last: Lines)
    requires Tidy(c)
    requires var next := Do(c, call).0;
             Split(next.assembly, Ahead(next) + Plain(later)) == Lines(Delivered(more) + last.lines, last.rest)
    ensures Split(c.assembly, Ahead(c) + Plain(Came(call) + later)) ==
            Lines(Delivered(Do(c, call).1 + more) + last.lines, last.rest)
  {
    hide *;
    var (next, out) := Do(c, call);
    DoSplits(c, call);
    var came := Came(call);
    SplitChain(c.assembly, Ahead(c) + Plain(came), Delivered(out), next.assembly, Ahead(next), Plain(later));
    CameLater(c, came, later);
    assert Split(c.assembly, Ahead(c) + Plain(came + later)) == Lines(Delivered(out) + (Delivered(more) + last.lines), last.rest);
    DeliveredAppend(out, more);
    LinesAssoc(Delivered(out), Delivered(more), last.lines);
  }

  lemma StepHandled(c: Chan, call: Call, later: seq<Byte>)
    requires Tidy(c)
    ensures var next := Do(c, call).0;
            next.handled + RealtimeOf(next.input + later) == c.handled + RealtimeOf(c.input + (Came(call) + later))
  {
    var next := Do(c, call).0;
    DoSplits(c, call);
    hide *;
    CameLater(c, Came(call), later);
    CameLater(next, [], later);
    Assoc(next.handled, RealtimeOf(next.input), RealtimeOf(later));
    Assoc(c.handled, RealtimeOf(c.input + Came(call)), RealtimeOf(later));
    assert [] + later == later;
  }

  /** Any interleaving of arrivals, polls with and without a buffer, pauses and resumes: the lines
      delivered, followed by those still ahead, are the lines of the non-realtime bytes in the order
      they arrived, and realtime bytes are handled in the order they arrived. */
  lemma {:induction false} LinesInOrder(c: Chan, calls: seq<Call>)
    requires Tidy(c)
    ensures var (end, out) := Run(c, calls);
            var last := Split(end.assembly, Ahead(end));
            && Tidy(end)
            && Split(c.assembly, Ahead(c) + Plain(Arrivals(calls))) == Lines(Delivered(out) + last.lines, last.rest)
            && end.handled + RealtimeOf(end.input) == c.handled + RealtimeOf(c.input + Arrivals(calls))
    decreases |calls|
  {
    hide *;
    if calls == [] {
      NoneCame(c);
      RunNone(c);
    } else {
      var (next, out) := Do(c, calls[0]);
      RunOne(c, calls);
      DoSplits(c, calls[0]);
      LinesInOrder(next, calls[1..]);
      var (end, more) := Run(next, calls[1..]);
      StepLines(c, calls[0], Arrivals(calls[1..]), more, Split(end.assembly, Ahead(end)));
      StepHandled(c, calls[0], Arrivals(calls[1..]));
    }
  }

  /** The Ok answers, which callers take for lines, are the lines delivered if and only if no poll with a
      buffer comes while the channel is paused. */
  lemma {:induction false} OkAnswersExact(c: Chan, calls: seq<Call>)
    requires Tidy(c)
    ensures (forall a :: a in Run(c, calls).1 ==> a.Line?) <==> !PolledPaused(c.paused, calls)
    decreases |calls|
  {
    hide Do, Split, Ahead, Tidy, Plain, RealtimeOf;
    if calls != [] {
      DoSplits(c, calls[0]);
      OkAnswersExact(Do(c, calls[0]).0, calls[1..]);
    }
  }

  // A pause and a poll: an Ok answer and no line, whatever is waiting.
  lemma PausedPollAnswersOk(c: Chan)
    ensures Run(c, [Pause, Buf]).1 == [OkWithoutLine] && PolledPaused(c.paused, [Pause, Buf])
  {
    assert [Pause, Buf][1..] == [Buf] && [Buf][1..] == [];
  }

  lemma NoneCame(c: Chan)
    ensures Ahead(c) + Plain([]) == Ahead(c) && c.input + [] == c.input
  {
  }

  lemma CameLater(c: Chan, came: seq<Byte>, later: seq<Byte>)
    ensures Ahead(c) + Plain(came) + Plain(later) == Ahead(c) + Plain(came + later)
    ensures RealtimeOf(c.input + (came + later)) == RealtimeOf(c.input + came) + RealtimeOf(later)
    ensures [] + later == later && c.input + [] == c.input
  {
    PlainSplit(came, later);
    PlainSplit(c.input + came, later);
    assert c.input + came + later == c.input + (came + later);
  }

  // ---- Line ends ---------------------------------------------------------------------------------------

  predicate IsTerminator(t: seq<Byte>) {
    t == [LF] || t == [CR] || t == [CR, LF]
  }

  predicate NoEnds(line: seq<Byte>) {
    LF !in line && CR !in line
  }

  function Text(lines: seq<seq<Byte>>, end: seq<Byte>): seq<Byte>
    decreases |lines|
  {
    if lines == [] then [] else lines[0] + (end + Text(lines[1..], end))
  }

  // The line buffer after a line is typed.
  function Typed(line: seq<Byte>, bytes: seq<Byte>): seq<Byte>
    decreases |bytes|
  {
    if bytes == [] then line else Typed(Type(line, bytes[0]), bytes[1..])
  }

  function Received(lines: seq<seq<Byte>>): seq<seq<Byte>>
    decreases |lines|
  {
    if lines == [] then [] else [CString(Typed([], lines[0]))] + Received(lines[1..])
  }

  lemma {:induction false} TypeLine(a: Assembly, line: seq<Byte>)
    requires NoEnds(line)
    ensures Split(a, line) == Lines([], Assembly(Typed(a.line, line), a.wasCR && line == []))
    decreases |line|
  {
    if line != [] {
      assert Complete(a, line[0]) == (Assembly(Type(a.line, line[0]), false), None);
      TypeLine(Complete(a, line[0]).0, line[1..]);
    }
  }

  // A line and its end.
  lemma EndLine(wasCR: bool, line: seq<Byte>, end: seq<Byte>)
    requires NoEnds(line) && IsTerminator(end)
    ensures Split(Assembly([], wasCR), line + end) ==
            if wasCR && line == [] && end == [LF] then Lines([], Assembly([], false))
            else Lines([CString(Typed([], line))], Assembly([], end == [CR]))
  {
    var typed := Assembly(Typed([], line), wasCR && line == []);
    TypeLine(Assembly([], wasCR), line);
    SplitAppend(Assembly([], wasCR), line, end);
    assert end[1..] == if |end| == 2 then [LF] else [];
    if end == [LF] {
      assert Split(typed, end) == if typed.wasCR then Lines([], typed.(wasCR := false)) else Lines([CString(typed.line)], typed.(line := []));
    } else if end == [CR] {
      assert Split(typed, end) == Lines([CString(typed.line)], Assembly([], true));
    } else {
      assert Split(Assembly([], true), [LF]) == Lines([], Assembly([], false));
      assert Split(typed, end) == Lines([CString(typed.line)], Assembly([], false));
    }
  }

  lemma ReceivedLength(lines: seq<seq<Byte>>)
    ensures |Received(lines)| == |lines|
  {
  }

  /** The same lines sent with LF, CR or CR-LF throughout are received as the same lines; for LF that
      is so if and only if the text does not start with an empty line right after a CR. */
  lemma {:induction false} TerminatorsAgree(wasCR: bool, lines: seq<seq<Byte>>, end: seq<Byte>)
    requires IsTerminator(end) && forall l :: l in lines ==> NoEnds(l)
    ensures Split(Assembly([], wasCR), Text(lines, end)).lines == Received(lines)
            <==> !(end == [LF] && wasCR && lines != [] && lines[0] == [])
    ensures end == [LF] && wasCR && lines != [] && lines[0] == [] ==>
            Split(Assembly([], wasCR), Text(lines, end)).lines == Received(lines[1..])
    decreases |lines|
  {
    hide Split;
    if lines == [] {
      assert Split(Assembly([], wasCR), []).lines == [] by {
        SplitEmpty(Assembly([], wasCR));
      }
    } else {
      var tail := Text(lines[1..], end);
      assert lines[0] + (end + tail) == lines[0] + end + tail;
      EndLine(wasCR, lines[0], end);
      SplitAppend(Assembly([], wasCR), lines[0] + end, tail);
      TerminatorsAgree(end == [CR], lines[1..], end);
      ReceivedLength(lines);
      ReceivedLength(lines[1..]);
    }
  }

  lemma SplitEmpty(a: Assembly)
    ensures Split(a, []) == Lines([], a)
  {
  }

  // ---- The channel object ------------------------------------------------------------------------------

  class Channel {
    const line: array<Byte>
    var lineLen: nat
    var lastWasCR: bool
    var queue: seq<Byte>
    var paused: bool
    // what read() will give, and the realtime bytes handled so far
    var input: seq<Byte>
    ghost var handled: seq<Byte>

    ghost predicate Valid()
      reads this
    {
      line.Length == MAX_LINE && lineLen < MAX_LINE
    }

    ghost function State(): (c: Chan)
      requires Valid()
      reads this, line
    {
      Chan(Assembly(line[..lineLen], lastWasCR), queue, input, paused, handled)
    }

    constructor ()
      ensures Valid() && fresh(line) && State() == Chan(Assembly([], false), [], [], false, [])
    {
      line := new Byte[MAX_LINE](_ => 0);
      lineLen, lastWasCR, queue, paused, input, handled := 0, false, [], false, [], [];
    }

    // The line as strcpy copies it.
    method CopyLine() returns (text: seq<Byte>)
      requires Valid()
      modifies line
      ensures text == CString(old(line[..lineLen])) && line[..lineLen] == old(line[..lineLen])
    {
      hide CString;
      ghost var whole := line[..lineLen];
      line[lineLen] := NUL;
      assert line[..lineLen] == whole;
      text := [];
      var i := 0;
      assert whole[0..] == whole && text + CString(whole) == CString(whole);
      while line[i] != NUL
        invariant i <= lineLen && line[..lineLen] == whole && line[lineLen] == NUL
        invariant text + CString(whole[i..]) == CString(whole)
        decreases lineLen - i
      {
        assert line[i] == whole[i];
        CStringStep(text, whole, i);
        text := text + [line[i]];
        i := i + 1;
      }
      assert i < lineLen ==> line[i] == whole[i];
      CStringEnd(text, whole, i);
    }

    method LineComplete(b: Byte) returns (done: Option<seq<Byte>>)
      requires Valid()
      modifies this`lineLen, this`lastWasCR, line
      ensures Valid() && (State().assembly, done) == Complete(old(State()).assembly, b)
    {
      if b == LF {
        if lastWasCR {
          lastWasCR := false;
          return None;
        }
        var text := CopyLine();
        lineLen := 0;
        return Some(text);
      }
      lastWasCR := b == CR;
      if lastWasCR {
        var text := CopyLine();
        lineLen := 0;
        return Some(text);
      }
      if b == BACKSPACE {
        if lineLen > 0 {
          lineLen := lineLen - 1;
          assert line[..lineLen] == old(line[..lineLen])[..lineLen];
        }
        return None;
      }
      if lineLen < MAX_LINE - 1 {
        line[lineLen] := b;
        lineLen := lineLen + 1;
        assert line[..lineLen] == old(line[..lineLen]) + [b];
      }
      return None;
    }

    method HandleRealtimeCharacter(b: Byte)
      modifies this`handled
      ensures handled == old(handled) + [b]
    {
      handled := handled + [b];
    }

    method Push(b: Byte)
      requires Valid()
      modifies this`queue, this`handled
      ensures queue == old(queue) + Plain([b]) && handled == old(handled) + RealtimeOf([b])
    {
      if Realtime(b) {
        HandleRealtimeCharacter(b);
      } else {
        queue := queue + [b];
      }
    }

    method FlushRx()
      requires Valid()
      modifies this`lineLen, this`lastWasCR, this`queue
      ensures Valid() && State() == old(State()).(assembly := Assembly([], false), queue := [])
    {
      lineLen := 0;
      lastWasCR := false;
      while |queue| > 0
        invariant Valid() && lineLen == 0 && !lastWasCR
      {
        queue := queue[1..];
      }
    }

    // pollLine(nullptr)
    method PollLineNull()
      requires Valid()
      modifies this`queue, this`input, this`handled
      ensures Valid() && State() == PollNull(old(State()))
    {
      if paused {
        return;
      }
      ghost var c := State();
      hide Plain, RealtimeOf, Realtime;
      while input != []
        invariant Valid() && State().assembly == c.assembly && !paused
        invariant queue + Plain(input) == c.queue + Plain(c.input)
        invariant handled + RealtimeOf(input) == c.handled + RealtimeOf(c.input)
        decreases |input|
      {
        var b := input[0];
        PlainHead(queue, handled, input);
        input := input[1..];
        if Realtime(b) {
          HandleRealtimeCharacter(b);
        } else {
          queue := queue + [b];
        }
      }
      PlainNone(queue, handled);
    }

    /** pollLine with a line buffer; the line is in it if it is complete. */
    method PollLine() returns (answer: Answer)
      requires Valid()
      modifies this`queue, this`input, this`handled, this`lineLen, this`lastWasCR, line
      ensures Valid() && (State(), answer) == PollBuf(old(State()))
    {
      if paused {
        return OkWithoutLine;
      }
      while true
        invariant Valid() && !paused && PollBuf(State()) == PollBuf(old(State()))
        decreases |queue| + |input|
      {
        var b: Byte;
        if |queue| > 0 {
          b := queue[0];
          queue := queue[1..];
        } else {
          if input == [] {
            break;
          }
          b := input[0];
          input := input[1..];
        }
        if Realtime(b) {
          HandleRealtimeCharacter(b);
          continue;
        }
        var done := LineComplete(b);
        if done.Some? {
          return Line(done.value);
        }
      }
      answer := NoData;
    }
  }
}
