/** CONTINUE over the run of a job (FluidNC/src/Flowcontrol.cpp). It starts the next pass of its loop and
    passes over the rest of the body; but in the last pass of a REPEAT it takes the loop off the stack and
    the job goes on behind it, inside the body. */
module ContinueRuns {
  import opened Flowcontrol
  import opened FlowJob
  import opened Structured
  import opened FlowCorrectness

  // A live machine at a CONTINUE for the loop `e`, with any entries of the body above it.
  ghost predicate AtContinue(code: seq<Line>, m: Machine, base: seq<Entry>, e: Entry, inner: seq<Entry>, expr: string) {
    && Before(code, m, OWord(e.oLabel, Continue, expr)) && !m.skipBlocks
    && m.flow.context == base + [e] + inner && Live(m.flow.context) && e.file == m.flow.source && IsLoop(e.operation)
    && forall i :: 0 <= i < |inner| ==> inner[i].oLabel != e.oLabel
  }

  lemma {:induction false} PopsInner(base: seq<Entry>, e: Entry, inner: seq<Entry>)
    requires forall i :: 0 <= i < |inner| ==> inner[i].oLabel != e.oLabel
    ensures PopTo(base + [e] + inner, e.oLabel) == base + [e]
    decreases |inner|
  {
    if inner == [] {
      assert base + [e] + [] == base + [e];
    } else {
      var n := |inner| - 1;
      assert Pop(base + [e] + inner) == base + [e] + inner[..n];
      assert Top(base + [e] + inner) == inner[n];
      PopsInner(base, e, inner[..n]);
    }
  }

  /** CONTINUE of a REPEAT: in a pass that is not the last one it starts the next pass, as ENDREPEAT would,
      from the first line of the body; in the last pass it leaves the loop, and goes on with the line after
      itself. */
  lemma ContinueRepeat(env: Env, code: seq<Line>, m: Machine, base: seq<Entry>, e: Entry, inner: seq<Entry>, expr: string)
    requires AtContinue(code, m, base, e, inner, expr) && e.operation.Repeat?
    ensures Steps(env, code, m, 1) ==
            if e.repeats > 1 then At(m, base + [e.(repeats := e.repeats - 1)], e.filePos)
            else At(m, base, m.flow.position + 1)
  {
    PopsInner(base, e, inner);
    var flow := m.flow.(position := m.flow.position + 1);
    ContinueCloses(env, m.memory.store, flow, m.skipBlocks, e.oLabel, expr);
    OneStep(env, code, m);
    assert m.trace + [] == m.trace;
    PushPop(base, e, if e.repeats > 0 then e.(repeats := e.repeats - 1) else e);
    assert forall i :: 0 <= i < |base| ==> m.flow.context[i] == base[i];
    hide PopTo, ReactContinue;
  }

  /** CONTINUE of a WHILE tests the condition: if it holds, the next pass starts; if not, it leaves the loop
      and goes on with the line after itself. */
  lemma ContinueWhile(env: Env, code: seq<Line>, m: Machine, base: seq<Entry>, e: Entry, inner: seq<Entry>, expr: string)
    requires AtContinue(code, m, base, e, inner, expr) && e.operation.While?
    ensures var m' := Steps(env, code, m, 1);
            match env.eval(e.expr, m.memory.store)
            case Bad(err) => Stops(m, m', err)
            case Number(v) => m' == if v != 0.0 then At(m, base + [e], e.filePos) else At(m, base, m.flow.position + 1)
  {
    PopsInner(base, e, inner);
    var flow := m.flow.(position := m.flow.position + 1);
    ContinueCloses(env, m.memory.store, flow, m.skipBlocks, e.oLabel, expr);
    OneStep(env, code, m);
    assert m.trace + [] == m.trace;
    PushPop(base, e, e);
    assert m.flow.context[|base|] == e;
    assert forall i :: 0 <= i < |base| ==> m.flow.context[i] == base[i];
    hide PopTo, ReactContinue;
  }

  /** CONTINUE of a DO starts the next pass in any case. */
  lemma ContinueDo(env: Env, code: seq<Line>, m: Machine, base: seq<Entry>, e: Entry, inner: seq<Entry>, expr: string)
    requires AtContinue(code, m, base, e, inner, expr) && e.operation.Do?
    ensures Steps(env, code, m, 1) == At(m, base + [e], e.filePos)
  {
    PopsInner(base, e, inner);
    var flow := m.flow.(position := m.flow.position + 1);
    ContinueElse(env, m.memory.store, flow, m.skipBlocks, e.oLabel, expr);
    OneStep(env, code, m);
    assert m.trace + [] == m.trace;
    PushPop(base, e, e);
    hide PopTo, ReactContinue;
  }

  // ---- A whole loop ---------------------------------------------------------------------------------------

  // O l REPEAT c / before / O l CONTINUE / after / O l ENDREPEAT
  function LoopText(l: nat, c: string, before: Block, after: Block): seq<Line> {
    [OWord(l, Repeat, c)] + Flat(before) + ([OWord(l, Continue, "")] + Flat(after) + [OWord(l, EndRepeat, "")])
  }

  /** The passes of such a loop: each runs the part in front of the CONTINUE and nothing else, as the
      passes of a REPEAT with this body do; and after the last one the loop is off the stack. */
  lemma {:induction false} ContinuePasses(env: Env, code: seq<Line>, st: Stmt, fuel: nat, m: Machine, base: seq<Entry>, e: Entry, n: nat)
    returns (k: nat)
    requires st.RepeatS? && WellFormed(st.body, {}, false) && n > 0 && m.flow.position > 0
    requires Running(m) && !m.skipBlocks && m.flow.source != NO_JOB && m.flow.context == base + [e] && Live(base)
    requires e == NewEntry(st.oLabel, Repeat, m.flow.source, false).(filePos := m.flow.position, repeats := n)
    requires Occurs(code, m.flow.position, Flat(st.body)) && m.flow.position + |Flat(st.body)| < |code|
    requires code[m.flow.position + |Flat(st.body)|] == OWord(st.oLabel, Continue, "")
    requires EvalRepeat(env, fuel, st, n, m.memory, m.flow.position - 1).Normal?
    ensures var r := EvalRepeat(env, fuel, st, n, m.memory, m.flow.position - 1);
            Steps(env, code, m, k) == Update(At(m, base, m.flow.position + |Flat(st.body)| + 1), r.memory, r.events)
    decreases n
  {
    hide Step, Steps, PopTo, Flat;
    var p, q := m.flow.position, m.flow.position + |Flat(st.body)|;
    BreaksToLoops(env, fuel, st.body, m.memory, p, {}, false);
    var r := EvalBlock(env, fuel, st.body, m.memory, p);
    k := SimBlock(env, code, st.body, {}, false, fuel, m);
    var m1 := Steps(env, code, m, k);
    assert base + [e] + [] == base + [e];
    assert m1 == Update(At(m, base + [e], q), r.memory, r.events).(skipBlocks := false);
    ContinueRepeat(env, code, m1, base, e, [], "");
    StepsAdd(env, code, m, k, 1);
    k := k + 1;
    if n > 1 {
      var e' := e.(repeats := n - 1);
      var m2 := At(m1, base + [e'], p);
      var j := ContinuePasses(env, code, st, fuel, m2, base, e', n - 1);
      StepsAdd(env, code, m, k, j);
      k := k + j;
      var r' := EvalRepeat(env, fuel, st, n - 1, r.memory, p - 1);
      assert m.trace + r.events + r'.events == m.trace + (r.events + r'.events);
    }
  }

  /** So a job that is such a loop runs the part in front of the CONTINUE n times, then the part behind it
      once, and then always stops with a syntax error at its ENDREPEAT. */
  lemma ContinueInRepeatFails(env: Env, source: JobId, s: Store, fuel: nat, l: nat, c: string, before: Block, after: Block, n: nat)
    returns (k: nat)
    requires source != NO_JOB && 0 < n < 0x1_0000_0000 && env.eval(c, s) == Number(n as real)
    requires WellFormed(before, {}, false) && WellFormed(after, {}, false)
    requires EvalRepeat(env, fuel, RepeatS(l, c, before), n, Memory(s, 0), 0).Normal?
    requires var r := EvalRepeat(env, fuel, RepeatS(l, c, before), n, Memory(s, 0), 0);
             EvalBlock(env, fuel, after, r.memory, |Flat(before)| + 2).Normal?
    ensures var code := LoopText(l, c, before, after);
            var r := EvalRepeat(env, fuel, RepeatS(l, c, before), n, Memory(s, 0), 0);
            var r' := EvalBlock(env, fuel, after, r.memory, |Flat(before)| + 2);
            var m := Steps(env, code, Start(source, s), k);
            && m.status == FLOW_CONTROL_SYNTAX_ERROR && m.flow.position == |code|
            && m.memory == r'.memory && m.trace == r.events + r'.events
  {
    var code, st, p := LoopText(l, c, before, after), RepeatS(l, c, before), |Flat(before)| + 1;
    LoopPlaces(l, c, before, after);
    hide *;
    var m1, e := ContinueStarts(env, code, source, s, l, c, n);
    var r := EvalRepeat(env, fuel, st, n, Memory(s, 0), 0);
    var m2: Machine;
    k, m2 := ContinueMiddle(env, code, st, fuel, m1, e, n);
    var j := ContinueEnds(env, code, m2, after, fuel, l);
    StepsAdd(env, code, Start(source, s), 1, k);
    StepsAdd(env, code, Start(source, s), 1 + k, j);
    k := 1 + k + j;
  }

  // The passes, from an empty stack and an empty trace.
  lemma ContinueMiddle(env: Env, code: seq<Line>, st: Stmt, fuel: nat, m: Machine, e: Entry, n: nat) returns (k: nat, m': Machine)
    requires st.RepeatS? && WellFormed(st.body, {}, false) && n > 0 && m.flow.position == 1
    requires Running(m) && !m.skipBlocks && m.flow.source != NO_JOB && m.flow.context == [e] && m.trace == []
    requires e == NewEntry(st.oLabel, Repeat, m.flow.source, false).(filePos := 1, repeats := n)
    requires Occurs(code, 1, Flat(st.body)) && 1 + |Flat(st.body)| < |code|
    requires code[1 + |Flat(st.body)|] == OWord(st.oLabel, Continue, "")
    requires EvalRepeat(env, fuel, st, n, m.memory, 0).Normal?
    ensures var r := EvalRepeat(env, fuel, st, n, m.memory, 0);
            && m' == Steps(env, code, m, k) && Running(m') && !m'.skipBlocks && m'.flow.source == m.flow.source
            && m'.flow.context == [] && m'.flow.position == |Flat(st.body)| + 2 && m'.memory == r.memory && m'.trace == r.events
  {
    assert [] + [e] == [e];
    k := ContinuePasses(env, code, st, fuel, m, [], e, n);
    hide Steps, EvalRepeat;
    m' := Steps(env, code, m, k);
    var events := EvalRepeat(env, fuel, st, n, m.memory, 0).events;
    assert [] + events == events;
  }

  lemma ContinueStarts(env: Env, code: seq<Line>, source: JobId, s: Store, l: nat, c: string, n: nat) returns (m: Machine, e: Entry)
    requires source != NO_JOB && 0 < n < 0x1_0000_0000 && env.eval(c, s) == Number(n as real)
    requires code != [] && code[0] == OWord(l, Repeat, c)
    ensures m == Steps(env, code, Start(source, s), 1) && Running(m) && !m.skipBlocks && m.flow.source == source
    ensures m.flow.context == [e] && m.flow.position == 1 && m.memory == Memory(s, 0) && m.trace == []
    ensures e == NewEntry(l, Repeat, source, false).(filePos := 1, repeats := n)
  {
    assert (n as real).Floor == n;
    assert ToUint32(n as real) == n;
    var m0 := Start(source, s);
    StepRepeat(env, code, m0, l, c);
    e := NewEntry(l, Repeat, source, false).(filePos := 1, repeats := n);
    m := At(m0, [e], 1);
    assert [] + [e] == [e];
    hide Step, Steps;
  }

  // The part behind the CONTINUE, with the loop gone, and its ENDREPEAT.
  lemma ContinueEnds(env: Env, code: seq<Line>, m: Machine, after: Block, fuel: nat, l: nat) returns (j: nat)
    requires Running(m) && !m.skipBlocks && m.flow.source != NO_JOB && m.flow.context == [] && WellFormed(after, {}, false)
    requires Occurs(code, m.flow.position, Flat(after)) && m.flow.position + |Flat(after)| < |code|
    requires code[m.flow.position + |Flat(after)|] == OWord(l, EndRepeat, "")
    requires EvalBlock(env, fuel, after, m.memory, m.flow.position).Normal?
    ensures var r, m' := EvalBlock(env, fuel, after, m.memory, m.flow.position), Steps(env, code, m, j);
            && m'.status == FLOW_CONTROL_SYNTAX_ERROR && m'.flow.position == m.flow.position + |Flat(after)| + 1
            && m'.memory == r.memory && m'.trace == m.trace + r.events
  {
    hide Step, Steps, Flat, PopTo;
    j := SimBlock(env, code, after, {}, false, fuel, m);
    var m1 := Steps(env, code, m, j);
    StrayEndRepeat(env, code, m1, l);
    StepsAdd(env, code, m, j, 1);
    j := j + 1;
  }

  lemma LoopPlaces(l: nat, c: string, before: Block, after: Block)
    ensures var code, p := LoopText(l, c, before, after), |Flat(before)| + 1;
            && |code| == p + |Flat(after)| + 2 && code[0] == OWord(l, Repeat, c) && Occurs(code, 1, Flat(before))
            && code[p] == OWord(l, Continue, "") && Occurs(code, p + 1, Flat(after)) && code[p + 1 + |Flat(after)|] == OWord(l, EndRepeat, "")
  {
    hide Flat;
    TwoParts(OWord(l, Repeat, c), Flat(before), OWord(l, Continue, ""), Flat(after), OWord(l, EndRepeat, ""));
  }

  lemma TwoParts(first: Line, a: seq<Line>, middle: Line, b: seq<Line>, last: Line)
    ensures var code, p := [first] + a + ([middle] + b + [last]), |a| + 1;
            && |code| == p + |b| + 2 && code[0] == first && Occurs(code, 1, a)
            && code[p] == middle && Occurs(code, p + 1, b) && code[p + 1 + |b|] == last
  {
    var code, rest := [first] + a + ([middle] + b + [last]), [middle] + b + [last];
    assert code[1..|a| + 1] == a;
    assert code[|a| + 1..] == rest;
    assert rest[1..|b| + 1] == b;
    assert code[|a| + 2..|a| + 2 + |b|] == b;
  }

  lemma StrayEndRepeat(env: Env, code: seq<Line>, m: Machine, l: nat)
    requires Before(code, m, OWord(l, EndRepeat, "")) && m.flow.context == [] && !m.skipBlocks
    ensures Stops(m, Steps(env, code, m, 1), FLOW_CONTROL_SYNTAX_ERROR)
  {
    OneStep(env, code, m);
    assert m.trace + [] == m.trace;
  }
}
