/** The context stack executes structured programs: the flattened text of a well-formed program,
    run line by line, does what the big-step evaluator says. */
module FlowCorrectness {
  import opened Flowcontrol
  import opened FlowJob
  import opened Structured

  // ---- The simulation relation ------------------------------------------------------------------

  ghost predicate Live(context: seq<Entry>) {
    forall i :: 0 <= i < |context| ==> !context[i].skip && !context[i].brk
  }

  // Every loop a BREAK may name is on the stack, and is the innermost entry with its label.
  ghost predicate Targets(context: seq<Entry>, loops: set<nat>) {
    forall l :: l in loops ==> PopTo(context, l) != [] && IsLoop(Top(PopTo(context, l)).operation)
  }

  ghost predicate Ready(m: Machine, loops: set<nat>, inDo: bool) {
    && Running(m) && !m.skipBlocks && m.flow.source != NO_JOB
    && Live(m.flow.context) && Targets(m.flow.context, loops)
    && inDo == LastOp(m.flow.context).Do?
  }

  function BreakTo(context: seq<Entry>, l: nat): seq<Entry>
    requires PopTo(context, l) != []
  {
    SetTop(PopTo(context, l), Broken(Top(PopTo(context, l))))
  }

  function At(m: Machine, context: seq<Entry>, pos: nat): Machine {
    m.(flow := m.flow.(context := context, position := pos))
  }

  function Update(m: Machine, s: Memory, events: seq<Event>): Machine {
    m.(memory := s, trace := m.trace + events)
  }

  // What is left of the stack `base` where a job has stopped.
  predicate Leaves(m: Machine, base: seq<Entry>, left: Left) {
    match left
    case Cleared => m.flow.context == []
    case Kept => m.flow.context == base
    case Open => m.flow.context != []
  }

  // The job has ended at this line.
  predicate StoppedAt(m: Machine, error: ErrorCode, line: nat) {
    m.status == error && (error == OK ==> m.ended) && m.flow.position == line + 1
  }

  /** After `n` lines the machine `m` has done what `r` says, for program text that ends at `q`:
      finished it with the stack `base`; or broken out of it to an enclosing loop, which now skips;
      or stopped at the line given; or, on a timeout, is still running after at least `fuel` lines. */
  ghost predicate Simulates(env: Env, code: seq<Line>, m: Machine, base: seq<Entry>, q: nat, r: Result, fuel: nat, n: nat) {
    var m' := Steps(env, code, m, n);
    match r
    case Timeout => n >= fuel && !Halted(code, m')
    case Normal(s, e) => m' == Update(At(m, base, q), s, e).(skipBlocks := false)
    case Breaking(l, s, e) =>
      PopTo(base, l) != [] && m' == Update(At(m, BreakTo(base, l), q), s, e).(skipBlocks := true)
    case Stopped(err, s, e, k, left) =>
      StoppedAt(m', err, k) && m'.memory == s && m'.trace == m.trace + e && Leaves(m', base, left)
  }

  lemma EmptyEvents(m: Machine)
    ensures Update(m, m.memory, []) == m
  {
    assert m.trace + [] == m.trace;
  }

  lemma OneStep(env: Env, code: seq<Line>, m: Machine)
    requires !Halted(code, m)
    ensures Steps(env, code, m, 1) == Step(env, code, m)
  {
    assert Steps(env, code, Step(env, code, m), 0) == Step(env, code, m);
  }

  // Prefixing a run with `a` lines that add `e` to the trace.
  lemma Prefix(env: Env, code: seq<Line>, m: Machine, a: nat, m1: Machine, e: seq<Event>,
               base: seq<Entry>, q: nat, r: Result, fuel: nat, n: nat)
    requires Steps(env, code, m, a) == m1 && m1.trace == m.trace + e
    requires m1.flow.source == m.flow.source && m1.flow.elsewhere == m.flow.elsewhere && m1.status == m.status && m1.ended == m.ended
    requires Simulates(env, code, m1, base, q, r, fuel, n)
    ensures Simulates(env, code, m, base, q, After(e, r), fuel + a, a + n)
  {
    hide Steps, PopTo, BreakTo, Leaves, StoppedAt, Halted;
    StepsAdd(env, code, m, a, n);
    if !r.Timeout? {
      assert m.trace + e + r.events == m.trace + (e + r.events);
    }
  }

  // The same for lines that add nothing to the trace.
  lemma SilentPrefix(env: Env, code: seq<Line>, m: Machine, a: nat, m1: Machine,
                     base: seq<Entry>, q: nat, r: Result, fuel: nat, n: nat)
    requires Steps(env, code, m, a) == m1 && m1.trace == m.trace
    requires m1.flow.source == m.flow.source && m1.flow.elsewhere == m.flow.elsewhere && m1.status == m.status && m1.ended == m.ended
    requires Simulates(env, code, m1, base, q, r, fuel, n)
    ensures Simulates(env, code, m, base, q, r, fuel + a, a + n) && Simulates(env, code, m, base, q, r, fuel, a + n)
  {
    StepsAdd(env, code, m, a, n);
  }

  // ---- Facts about the stack --------------------------------------------------------------------

  lemma PushKeepsTargets(context: seq<Entry>, e: Entry, loops: set<nat>, l: nat)
    requires Targets(context, loops) && e.oLabel == l && l !in loops
    ensures Targets(context + [e], loops)
    ensures IsLoop(e.operation) ==> Targets(context + [e], loops + {l})
    ensures forall k :: k in loops ==> PopTo(context + [e], k) == PopTo(context, k)
  {
    forall k | k in loops ensures PopTo(context + [e], k) == PopTo(context, k) {
      assert Pop(context + [e]) == context;
    }
    assert PopTo(context + [e], l) == context + [e];
  }

  lemma BreakTops(context: seq<Entry>, l: nat)
    requires PopTo(context, l) != []
    ensures Skipping(BreakTo(context, l)) && Top(BreakTo(context, l)).oLabel == l
    ensures Top(BreakTo(context, l)) == Broken(Top(PopTo(context, l)))
  {
  }

  lemma PushPop(base: seq<Entry>, e: Entry, e': Entry)
    ensures Pop(base + [e]) == base && Top(base + [e]) == e && SetTop(base + [e], e') == base + [e']
  {
  }

  lemma OccursPart(code: seq<Line>, at: nat, a: seq<Line>, b: seq<Line>)
    requires Occurs(code, at, a + b)
    ensures Occurs(code, at, a) && Occurs(code, at + |a|, b)
  {
    assert code[at..at + |a|] == code[at..at + |a + b|][..|a|];
    assert code[at + |a|..at + |a + b|] == code[at..at + |a + b|][|a|..];
  }

  lemma OccursFrame(code: seq<Line>, at: nat, first: Line, body: seq<Line>, last: seq<Line>)
    requires Occurs(code, at, [first] + body + last)
    ensures at < |code| && code[at] == first
    ensures Occurs(code, at + 1, body) && Occurs(code, at + 1 + |body|, last)
  {
    OccursPart(code, at, [first] + body, last);
    OccursPart(code, at, [first], body);
    assert code[at..at + 1][0] == first;
  }

  function Opening(st: Stmt): Line
    requires st.IfS? || st.WhileS? || st.DoS? || st.RepeatS?
  {
    match st
    case IfS(l, c, _, _) => OWord(l, If, c)
    case WhileS(l, c, _) => OWord(l, While, c)
    case DoS(l, _, _) => OWord(l, Do, "")
    case RepeatS(l, c, _) => OWord(l, Repeat, c)
  }

  function Closer(st: Stmt): Line
    requires st.WhileS? || st.DoS? || st.RepeatS?
  {
    match st
    case WhileS(l, _, _) => OWord(l, EndWhile, "")
    case DoS(l, _, c) => OWord(l, While, c)
    case RepeatS(l, _, _) => OWord(l, EndRepeat, "")
  }

  function TailSize(t: Tail): nat {
    match t
    case NoElse => 0
    case ElseS(_) => 1
    case ElseIfS(_, _, t') => 1 + TailSize(t')
  }

  // Where the parts of a construct stand in the text.
  lemma LoopText(code: seq<Line>, p: nat, st: Stmt)
    requires (st.WhileS? || st.DoS? || st.RepeatS?) && Occurs(code, p, FlatStmt(st))
    ensures p < |code| && code[p] == Opening(st) && |FlatStmt(st)| == |Flat(st.body)| + 2
    ensures Occurs(code, p + 1, Flat(st.body)) && Occurs(code, p + 1 + |Flat(st.body)|, [Closer(st)])
  {
    OccursFrame(code, p, Opening(st), Flat(st.body), [Closer(st)]);
  }

  lemma IfText(code: seq<Line>, p: nat, st: Stmt)
    requires st.IfS? && Occurs(code, p, FlatStmt(st))
    ensures p < |code| && code[p] == Opening(st) && |FlatStmt(st)| == 1 + |Flat(st.body)| + |FlatTail(st.oLabel, st.tail)|
    ensures Occurs(code, p + 1, Flat(st.body)) && Occurs(code, p + 1 + |Flat(st.body)|, FlatTail(st.oLabel, st.tail))
  {
    OccursFrame(code, p, Opening(st), Flat(st.body), FlatTail(st.oLabel, st.tail));
  }

  function Rest(t: Tail): Tail
    requires !t.NoElse?
  {
    if t.ElseS? then NoElse else t.tail
  }

  lemma TailText(code: seq<Line>, p: nat, l: nat, t: Tail)
    requires Occurs(code, p, FlatTail(l, t))
    ensures p < |code|
    ensures t.NoElse? ==> code[p] == OWord(l, EndIf, "") && |FlatTail(l, t)| == 1
    ensures t.ElseS? ==> code[p] == OWord(l, Else, "")
    ensures t.ElseIfS? ==> code[p] == OWord(l, ElseIf, t.cond)
    ensures !t.NoElse? ==> |FlatTail(l, t)| == 1 + |Flat(t.body)| + |FlatTail(l, Rest(t))|
    ensures !t.NoElse? ==> Occurs(code, p + 1, Flat(t.body)) && Occurs(code, p + 1 + |Flat(t.body)|, FlatTail(l, Rest(t)))
  {
    if t.NoElse? {
      assert code[p] == code[p..p + 1][0];
    } else {
      OccursFrame(code, p, FlatTail(l, t)[0], Flat(t.body), FlatTail(l, Rest(t)));
    }
  }

  // Passing over the tail of an IF is passing over the blocks in it.
  lemma {:induction false} SkimTail(env: Env, l: nat, t: Tail, s: Memory, p: nat)
    ensures t.NoElse? ==> Skim(env, FlatTail(l, t), s, p) == Passed(s)
    ensures !t.NoElse? ==>
              var r := Skim(env, Flat(t.body), s, p + 1);
              Skim(env, FlatTail(l, t), s, p) ==
              if r.Halting? then r else Skim(env, FlatTail(l, Rest(t)), r.memory, p + 1 + |Flat(t.body)|)
  {
    if !t.NoElse? {
      var first := FlatTail(l, t)[0];
      assert FlatTail(l, t) == [first] + (Flat(t.body) + FlatTail(l, Rest(t)));
      SkimAppend(env, [first], Flat(t.body) + FlatTail(l, Rest(t)), s, p);
      SkimAppend(env, Flat(t.body), FlatTail(l, Rest(t)), s, p + 1);
      SkimWord(env, first, s, p);
    } else {
      SkimWord(env, OWord(l, EndIf, ""), s, p);
    }
  }

  lemma SkimWord(env: Env, line: Line, s: Memory, p: nat)
    requires line.OWord?
    ensures Skim(env, [line], s, p) == Passed(s)
  {
    assert [line][1..] == [];
  }

  // A BREAK to an outer loop passes over the rest of the text it is in.
  lemma BreakSkipsRest(env: Env, code: seq<Line>, m: Machine, base: seq<Entry>, p: nat, r: Result, fuel: nat, n: nat, rest: seq<Line>)
    requires r.Breaking? && Simulates(env, code, m, base, p, r, fuel, n)
    requires Running(m) && m.flow.source != NO_JOB
    requires Occurs(code, p, rest) && InertText(rest, r.oLabel)
    ensures Simulates(env, code, m, base, p + |rest|, PassOver(env, rest, p, r), fuel, n + |rest|)
  {
    var m1 := Steps(env, code, m, n);
    BreakTops(base, r.oLabel);
    SkipsText(env, code, m1, r.oLabel, p, rest);
    StepsAdd(env, code, m, n, |rest|);
  }

  // ---- One line at a time -----------------------------------------------------------------------

  // A live machine about to execute `line`, and one whose top entry skips.
  ghost predicate Before(code: seq<Line>, m: Machine, line: Line) {
    Running(m) && m.flow.source != NO_JOB && m.flow.position < |code| && code[m.flow.position] == line
  }

  // A line of flow control has reported an error.
  predicate Stops(m: Machine, m': Machine, err: ErrorCode) {
    StoppedAt(m', err, m.flow.position) && m'.memory == m.memory && m'.trace == m.trace && m'.flow.context == []
  }

  lemma StepIf(env: Env, code: seq<Line>, m: Machine, l: nat, c: string)
    requires Before(code, m, OWord(l, If, c)) && !m.skipBlocks && Live(m.flow.context)
    ensures var m' := Steps(env, code, m, 1);
            match env.eval(c, m.memory.store)
            case Bad(err) => Stops(m, m', err)
            case Number(v) =>
              var e := NewEntry(l, If, m.flow.source, v == 0.0).(handled := v != 0.0);
              m' == At(m, m.flow.context + [e], m.flow.position + 1).(skipBlocks := v == 0.0)
  {
    OneStep(env, code, m);
    EmptyEvents(m);
  }

  lemma StepEndIf(env: Env, code: seq<Line>, m: Machine, base: seq<Entry>, e: Entry)
    requires Before(code, m, OWord(e.oLabel, EndIf, "")) && m.flow.context == base + [e] && Live(base)
    requires e.operation.If? || e.operation.ElseIf? || e.operation.Else?
    ensures Steps(env, code, m, 1) == At(m, base, m.flow.position + 1).(skipBlocks := false)
  {
    OneStep(env, code, m);
    EmptyEvents(m);
    PushPop(base, e, e);
  }

  lemma StepElse(env: Env, code: seq<Line>, m: Machine, base: seq<Entry>, e: Entry)
    requires Before(code, m, OWord(e.oLabel, Else, "")) && m.flow.context == base + [e]
    requires e.operation.If? || e.operation.ElseIf?
    ensures var e' := if e.handled then e.(skip := true) else e.(skip := false, operation := Else);
            Steps(env, code, m, 1) == At(m, base + [e'], m.flow.position + 1).(skipBlocks := e.handled)
  {
    OneStep(env, code, m);
    EmptyEvents(m);
    PushPop(base, e, e.(skip := true));
    PushPop(base, e, e.(skip := false, operation := Else));
  }

  lemma StepElseIf(env: Env, code: seq<Line>, m: Machine, base: seq<Entry>, e: Entry, c: string)
    requires Before(code, m, OWord(e.oLabel, ElseIf, c)) && m.flow.context == base + [e]
    requires e.operation.If? || e.operation.ElseIf?
    ensures var m' := Steps(env, code, m, 1);
            var p := m.flow.position + 1;
            if e.handled then m' == At(m, base + [e.(skip := true)], p).(skipBlocks := true)
            else match env.eval(c, m.memory.store)
                 case Bad(err) => Stops(m, m', err)
                 case Number(v) =>
                   var e' := if v == 0.0 then e.(skip := true) else e.(skip := false, operation := ElseIf, handled := true);
                   m' == At(m, base + [e'], p).(skipBlocks := v == 0.0)
  {
    OneStep(env, code, m);
    EmptyEvents(m);
    PushPop(base, e, e.(skip := true));
    PushPop(base, e, e.(skip := false, operation := ElseIf, handled := true));
  }

  lemma StepWhile(env: Env, code: seq<Line>, m: Machine, l: nat, c: string)
    requires Before(code, m, OWord(l, While, c)) && !m.skipBlocks && Live(m.flow.context) && !LastOp(m.flow.context).Do?
    ensures var m' := Steps(env, code, m, 1);
            var p := m.flow.position + 1;
            match env.eval(c, m.memory.store)
            case Bad(err) => Stops(m, m', err)
            case Number(v) =>
              var e := NewEntry(l, While, m.flow.source, v == 0.0).(expr := c, filePos := if v != 0.0 then p else 0);
              m' == At(m, m.flow.context + [e], p).(skipBlocks := v == 0.0)
  {
    OneStep(env, code, m);
    EmptyEvents(m);
  }

  lemma StepEndWhile(env: Env, code: seq<Line>, m: Machine, base: seq<Entry>, e: Entry)
    requires Before(code, m, OWord(e.oLabel, EndWhile, "")) && m.flow.context == base + [e] && Live(base)
    requires e.operation.While? && e.file == m.flow.source && m.skipBlocks == e.skip
    ensures var m' := Steps(env, code, m, 1);
            var out := At(m, base, m.flow.position + 1).(skipBlocks := false);
            if e.skip then m' == out
            else match env.eval(e.expr, m.memory.store)
                 case Bad(err) => Stops(m, m', err)
                 case Number(v) => m' == if v == 0.0 then out else At(m, base + [e], e.filePos)
  {
    OneStep(env, code, m);
    EmptyEvents(m);
    PushPop(base, e, e);
  }

  lemma StepDo(env: Env, code: seq<Line>, m: Machine, l: nat)
    requires Before(code, m, OWord(l, Do, "")) && !m.skipBlocks && Live(m.flow.context)
    ensures var p := m.flow.position + 1;
            Steps(env, code, m, 1) == At(m, m.flow.context + [NewEntry(l, Do, m.flow.source, false).(filePos := p)], p)
  {
    OneStep(env, code, m);
    EmptyEvents(m);
  }

  // The WHILE that closes a DO.
  lemma StepDoWhile(env: Env, code: seq<Line>, m: Machine, base: seq<Entry>, e: Entry, c: string)
    requires Before(code, m, OWord(e.oLabel, While, c)) && m.flow.context == base + [e] && Live(base)
    requires e.operation.Do? && e.file == m.flow.source && m.skipBlocks == e.skip == e.brk
    ensures var m' := Steps(env, code, m, 1);
            var out := At(m, base, m.flow.position + 1).(skipBlocks := false);
            if e.brk then m' == out
            else match env.eval(c, m.memory.store)
                 case Bad(err) => Stops(m, m', err)
                 case Number(v) => m' == if v == 0.0 then out else At(m, base + [e], e.filePos)
  {
    OneStep(env, code, m);
    EmptyEvents(m);
    PushPop(base, e, e);
  }

  lemma StepRepeat(env: Env, code: seq<Line>, m: Machine, l: nat, c: string)
    requires Before(code, m, OWord(l, Repeat, c)) && !m.skipBlocks && Live(m.flow.context)
    ensures var m' := Steps(env, code, m, 1);
            var p := m.flow.position + 1;
            match env.eval(c, m.memory.store)
            case Bad(err) => Stops(m, m', err)
            case Number(v) =>
              var e := NewEntry(l, Repeat, m.flow.source, v == 0.0);
              var e' := if v != 0.0 then e.(filePos := p, repeats := ToUint32(v)) else e;
              m' == At(m, m.flow.context + [e'], p).(skipBlocks := v == 0.0)
  {
    OneStep(env, code, m);
    EmptyEvents(m);
  }

  lemma StepEndRepeat(env: Env, code: seq<Line>, m: Machine, base: seq<Entry>, e: Entry)
    requires Before(code, m, OWord(e.oLabel, EndRepeat, "")) && m.flow.context == base + [e] && Live(base)
    requires e.operation.Repeat? && e.file == m.flow.source && m.skipBlocks == e.skip && (e.skip ==> e.repeats <= 1)
    ensures Steps(env, code, m, 1) ==
            if e.repeats <= 1 then At(m, base, m.flow.position + 1).(skipBlocks := false)
            else At(m, base + [e.(repeats := e.repeats - 1)], e.filePos)
  {
    OneStep(env, code, m);
    EmptyEvents(m);
    PushPop(base, e, if e.repeats > 0 then e.(repeats := e.repeats - 1) else e);
  }

  lemma StepSimple(env: Env, code: seq<Line>, st: Stmt, loops: set<nat>, inDo: bool, fuel: nat, m: Machine)
    requires st.Command? || st.Signal? || st.BreakS?
    requires Ready(m, loops, inDo) && WellFormedStmt(st, loops, inDo) && Before(code, m, FlatStmt(st)[0])
    ensures Simulates(env, code, m, m.flow.context, m.flow.position + 1, EvalStmt(env, fuel, st, m.memory, m.flow.position), fuel, 1)
  {
    hide Steps, Skim, InertText, Occurs, EvalBlock, EvalRepeat, EvalWhile, Flat;
    OneStep(env, code, m);
    EmptyEvents(m);
  }

  // ---- Blocks and single lines ------------------------------------------------------------------

  // A block that is not empty: its first statement and the rest.
  lemma SeqParts(code: seq<Line>, b: Block, loops: set<nat>, inDo: bool, p: nat)
    requires b.Seq? && WellFormed(b, loops, inDo) && Occurs(code, p, Flat(b))
    ensures WellFormedStmt(b.first, loops, inDo) && WellFormed(b.rest, loops, inDo)
    ensures Occurs(code, p, FlatStmt(b.first)) && Occurs(code, p + |FlatStmt(b.first)|, Flat(b.rest))
    ensures |Flat(b)| == |FlatStmt(b.first)| + |Flat(b.rest)|
  {
    OccursPart(code, p, FlatStmt(b.first), Flat(b.rest));
  }

  lemma EvalSeq(env: Env, fuel: nat, b: Block, s: Memory, p: nat)
    requires b.Seq?
    ensures var r, q := EvalStmt(env, fuel, b.first, s, p), p + |FlatStmt(b.first)|;
            && (r.Normal? ==> EvalBlock(env, fuel, b, s, p) == After(r.events, EvalBlock(env, fuel, b.rest, r.memory, q)))
            && (r.Breaking? ==> EvalBlock(env, fuel, b, s, p) == PassOver(env, Flat(b.rest), q, r))
            && (r.Timeout? || r.Stopped? ==> EvalBlock(env, fuel, b, s, p) == r)
  {
    hide EvalStmt, FlatStmt, Flat, Skim;
  }

  // Where a statement that ends leaves the machine.
  lemma NormalEnd(env: Env, code: seq<Line>, m: Machine, loops: set<nat>, inDo: bool, q: nat, r: Result, fuel: nat, n: nat)
    requires Ready(m, loops, inDo) && r.Normal? && Simulates(env, code, m, m.flow.context, q, r, fuel, n)
    ensures var m1 := Steps(env, code, m, n);
            && Ready(m1, loops, inDo) && m1.flow == m.flow.(position := q) && m1.memory == r.memory
            && m1.trace == m.trace + r.events && m1.status == m.status && m1.ended == m.ended
  {
    hide Steps, Targets, Live;
  }

  lemma {:induction false} SimBlock(env: Env, code: seq<Line>, b: Block, loops: set<nat>, inDo: bool, fuel: nat, m: Machine)
    returns (n: nat)
    requires Ready(m, loops, inDo) && WellFormed(b, loops, inDo) && Occurs(code, m.flow.position, Flat(b))
    ensures Simulates(env, code, m, m.flow.context, m.flow.position + |Flat(b)|, EvalBlock(env, fuel, b, m.memory, m.flow.position), fuel, n)
    decreases fuel, b, 0
  {
    hide *;
    if b.Nil? {
      n := 0;
      SimNothing(env, code, b, loops, inDo, fuel, m);
    } else {
      var p, base, st, rest := m.flow.position, m.flow.context, b.first, b.rest;
      SeqParts(code, b, loops, inDo, p);
      EvalSeq(env, fuel, b, m.memory, p);
      var r := EvalStmt(env, fuel, st, m.memory, p);
      var q := p + |FlatStmt(st)|;
      n := SimStmt(env, code, st, loops, inDo, fuel, m);
      if r.Normal? {
        NormalEnd(env, code, m, loops, inDo, q, r, fuel, n);
        var m1 := Steps(env, code, m, n);
        var k := SimBlock(env, code, rest, loops, inDo, fuel, m1);
        Prefix(env, code, m, n, m1, r.events, base, q + |Flat(rest)|, EvalBlock(env, fuel, rest, r.memory, q), fuel, k);
        SimulatesLess(env, code, m, base, q + |Flat(rest)|, EvalBlock(env, fuel, b, m.memory, p), fuel, n, n + k);
        n := n + k;
      } else if r.Breaking? {
        StmtBreaksToLoops(env, fuel, st, m.memory, p, loops, inDo);
        LabelsAvoidLoops(rest, loops, inDo);
        FlatInert(rest, loops, inDo, r.oLabel);
        IsReady(m, loops, inDo);
        BreakSkipsRest(env, code, m, base, q, r, fuel, n, Flat(rest));
        n := n + |Flat(rest)|;
      } else {
        SimulatesAnywhere(env, code, m, base, q, p + |Flat(b)|, r, fuel, n);
      }
    }
  }

  lemma SimNothing(env: Env, code: seq<Line>, b: Block, loops: set<nat>, inDo: bool, fuel: nat, m: Machine)
    requires b.Nil? && Ready(m, loops, inDo)
    ensures Simulates(env, code, m, m.flow.context, m.flow.position + |Flat(b)|, EvalBlock(env, fuel, b, m.memory, m.flow.position), fuel, 0)
  {
    hide Targets, Live;
    EmptyEvents(m);
  }

  lemma SimulatesAnywhere(env: Env, code: seq<Line>, m: Machine, base: seq<Entry>, q: nat, q': nat, r: Result, fuel: nat, n: nat)
    requires Simulates(env, code, m, base, q, r, fuel, n) && (r.Timeout? || r.Stopped?)
    ensures Simulates(env, code, m, base, q', r, fuel, n)
  {
    hide Steps, Halted, StoppedAt, Leaves;
  }

  lemma IsReady(m: Machine, loops: set<nat>, inDo: bool)
    requires Ready(m, loops, inDo)
    ensures Running(m) && m.flow.source != NO_JOB
  {
  }

  lemma SimulatesLess(env: Env, code: seq<Line>, m: Machine, base: seq<Entry>, q: nat, r: Result, fuel: nat, more: nat, n: nat)
    requires Simulates(env, code, m, base, q, r, fuel + more, n)
    ensures Simulates(env, code, m, base, q, r, fuel, n)
  {
    hide Steps, Halted;
  }

  lemma {:induction false} SimStmt(env: Env, code: seq<Line>, st: Stmt, loops: set<nat>, inDo: bool, fuel: nat, m: Machine)
    returns (n: nat)
    requires Ready(m, loops, inDo) && WellFormedStmt(st, loops, inDo) && Occurs(code, m.flow.position, FlatStmt(st))
    ensures Simulates(env, code, m, m.flow.context, m.flow.position + |FlatStmt(st)|, EvalStmt(env, fuel, st, m.memory, m.flow.position), fuel, n)
    decreases fuel, st, 9
  {
    hide Step, Steps, PopTo, Targets, InertText, Skim;
    match st
    case Command(_) => n := 1; First(code, m, FlatStmt(st)); StepSimple(env, code, st, loops, inDo, fuel, m);
    case Signal(_, _, _) => n := 1; First(code, m, FlatStmt(st)); StepSimple(env, code, st, loops, inDo, fuel, m);
    case BreakS(_) => n := 1; First(code, m, FlatStmt(st)); StepSimple(env, code, st, loops, inDo, fuel, m);
    case IfS(_, _, _, _) => n := SimIf(env, code, st, loops, fuel, m);
    case WhileS(_, _, _) => n := SimWhile(env, code, st, loops, fuel, m);
    case DoS(_, _, _) => n := SimDo(env, code, st, loops, fuel, m);
    case RepeatS(_, _, _) => n := SimRepeat(env, code, st, loops, fuel, m);
  }

  lemma First(code: seq<Line>, m: Machine, text: seq<Line>)
    requires Occurs(code, m.flow.position, text) && text != []
    ensures code[m.flow.position] == text[0]
  {
    assert code[m.flow.position..m.flow.position + |text|][0] == text[0];
  }

  // A line that makes an entry skip, and the block after it.
  lemma SkipBlock(env: Env, code: seq<Line>, m: Machine, m1: Machine, l: nat, b: Block, loops: set<nat>, inDo: bool)
    requires Steps(env, code, m, 1) == m1 && SkippingAt(code, m1, l, m1.flow.position)
    requires WellFormed(b, loops, inDo) && l !in Labels(b) && Occurs(code, m1.flow.position, Flat(b))
    ensures PassedOver(m1, Steps(env, code, m, 1 + |Flat(b)|), Skim(env, Flat(b), m1.memory, m1.flow.position), m1.flow.position + |Flat(b)|)
  {
    hide Step, Steps, PopTo, Targets, InertText, Skim;
    FlatInert(b, loops, inDo, l);
    SkipsText(env, code, m1, l, m1.flow.position, Flat(b));
    StepsAdd(env, code, m, 1, |Flat(b)|);
  }

  // A BREAK past an entry is a BREAK from below it.
  lemma BreakPast(env: Env, code: seq<Line>, m: Machine, base: seq<Entry>, e: Entry, loops: set<nat>,
                  q: nat, r: Result, fuel: nat, n: nat, rest: seq<Line>)
    requires r.Breaking? && Simulates(env, code, m, base + [e], q, r, fuel, n) && r.oLabel != e.oLabel
    requires Running(m) && m.flow.source != NO_JOB
    requires Occurs(code, q, rest) && InertText(rest, r.oLabel)
    ensures Simulates(env, code, m, base, q + |rest|, PassOver(env, rest, q, r), fuel, n + |rest|)
  {
    hide Step, Steps, InertText, Skim;
    PushPop(base, e, e);
    assert PopTo(base + [e], r.oLabel) == PopTo(base, r.oLabel);
    BreakSkipsRest(env, code, m, base, q, r, fuel, n, rest);
  }

  // ---- IF ---------------------------------------------------------------------------------------

  lemma {:induction false} SimIf(env: Env, code: seq<Line>, st: Stmt, loops: set<nat>, fuel: nat, m: Machine) returns (n: nat)
    requires st.IfS? && WellFormedStmt(st, loops, false)
    requires Ready(m, loops, LastOp(m.flow.context).Do?)
    requires Occurs(code, m.flow.position, FlatStmt(st))
    ensures Simulates(env, code, m, m.flow.context, m.flow.position + |FlatStmt(st)|, EvalStmt(env, fuel, st, m.memory, m.flow.position), fuel, n)
    decreases fuel, st, 8
  {
    hide Step, Steps, PopTo, Targets, InertText, Flat, FlatStmt, FlatTail, Skim;
    var p, base, l := m.flow.position, m.flow.context, st.oLabel;
    var p1 := p + 1 + |Flat(st.body)|;
    IfText(code, p, st);
    StepIf(env, code, m, l, st.cond);
    EmptyEvents(m);
    n := 1;
    var v := env.eval(st.cond, m.memory.store);
    if v.Number? {
      hide Simulates, EvalBlock, EvalTail, Occurs;
      var e := NewEntry(l, If, m.flow.source, v.value == 0.0).(handled := v.value != 0.0);
      var m1 := At(m, base + [e], p + 1).(skipBlocks := v.value == 0.0);
      if v.value != 0.0 {
        var k := SimBranch(env, code, l, st.body, st.tail, loops, fuel, m1, base, e);
        SilentPrefix(env, code, m, 1, m1, base, p + |FlatStmt(st)|, EvalStmt(env, fuel, st, m.memory, m.flow.position), fuel, k);
        n := 1 + k;
      } else {
        n := SimNotTaken(env, code, st, loops, fuel, m, m1, e);
      }
    }
  }

  // The condition does not hold: the body is passed over.
  lemma {:induction false} SimNotTaken(env: Env, code: seq<Line>, st: Stmt, loops: set<nat>, fuel: nat, m: Machine, m1: Machine, e: Entry)
    returns (n: nat)
    requires st.IfS? && WellFormedStmt(st, loops, false)
    requires Ready(m, loops, LastOp(m.flow.context).Do?)
    requires Occurs(code, m.flow.position, FlatStmt(st)) && env.eval(st.cond, m.memory.store) == Number(0.0)
    requires e == NewEntry(st.oLabel, If, m.flow.source, true).(handled := false)
    requires m1 == At(m, m.flow.context + [e], m.flow.position + 1).(skipBlocks := true) && m1 == Steps(env, code, m, 1)
    ensures Simulates(env, code, m, m.flow.context, m.flow.position + |FlatStmt(st)|, EvalStmt(env, fuel, st, m.memory, m.flow.position), fuel, n)
    decreases fuel, st, 7
  {
    hide Step, Steps, PopTo, Targets, InertText, Flat, FlatStmt, FlatTail, Skim, EvalTail;
    var p, base, l := m.flow.position, m.flow.context, st.oLabel;
    var p1 := p + 1 + |Flat(st.body)|;
    IfText(code, p, st);
    SkipBlock(env, code, m, m1, l, st.body, loops, false);
    n := 1 + |Flat(st.body)|;
    var skipped := Skim(env, Flat(st.body), m.memory, p + 1);
    if skipped.Passed? {
      var m2 := At(m1, base + [e], p1).(memory := skipped.memory);
      var k := SimTail(env, code, l, st.tail, loops, fuel, m2, base, e);
      hide Simulates;
      SilentPrefix(env, code, m, n, m2, base, p + |FlatStmt(st)|, EvalTail(env, fuel, l, st.tail, skipped.memory, p1), fuel, k);
      n := n + k;
    } else {
      EmptyEvents(m);
    }
  }

  // The entry of an IF one of whose branches has been taken, or whose ELSE branch is running.
  predicate Closing(e: Entry, l: nat, t: Tail) {
    e.oLabel == l && !e.brk && if e.operation.Else? then t.NoElse? else e.handled && (e.operation.If? || e.operation.ElseIf?)
  }

  // The job has ended at a line of text that is passed over with an entry on the stack.
  predicate HaltsIn(m: Machine, m': Machine, r: Passing)
    requires r.Halting?
  {
    StoppedAt(m', r.error, r.line) && m'.memory == r.memory && m'.trace == m.trace && m'.flow.context != []
  }

  /** Once a branch has run, the rest of the IF is passed over, each line once. */
  lemma {:induction false} CloseIf(env: Env, code: seq<Line>, l: nat, t: Tail, loops: set<nat>, m: Machine, base: seq<Entry>, e: Entry)
    requires WellFormedTail(t, loops) && l !in TailLabels(t) && Closing(e, l, t) && Live(base)
    requires Running(m) && m.flow.source != NO_JOB && m.flow.context == base + [e] && m.skipBlocks == e.skip
    requires Occurs(code, m.flow.position, FlatTail(l, t))
    ensures var m' := Steps(env, code, m, |FlatTail(l, t)|);
            var r := Skim(env, FlatTail(l, t), m.memory, m.flow.position);
            if r.Passed? then m' == At(m, base, m.flow.position + |FlatTail(l, t)|).(skipBlocks := false, memory := r.memory)
            else HaltsIn(m, m', r)
    decreases TailSize(t)
  {
    hide Step, Steps, PopTo, Targets, InertText, Flat, FlatStmt, FlatTail, Skim;
    var p := m.flow.position;
    TailText(code, p, l, t);
    SkimTail(env, l, t, m.memory, p);
    if t.NoElse? {
      StepEndIf(env, code, m, base, e);
    } else {
      var e' := e.(skip := true);
      var m1 := At(m, base + [e'], p + 1).(skipBlocks := true);
      var skipped := Skim(env, Flat(t.body), m.memory, p + 1);
      if t.ElseS? {
        StepElse(env, code, m, base, e);
      } else {
        StepElseIf(env, code, m, base, e, t.cond);
      }
      SkipBlock(env, code, m, m1, l, t.body, loops, false);
      if skipped.Passed? {
        var m2 := At(m1, base + [e'], p + 1 + |Flat(t.body)|).(memory := skipped.memory);
        CloseIf(env, code, l, Rest(t), loops, m2, base, e');
        StepsAdd(env, code, m, 1 + |Flat(t.body)|, |FlatTail(l, Rest(t))|);
      } else {
        HaltedStays(env, code, m, 1 + |Flat(t.body)|, |FlatTail(l, t)|);
      }
    }
  }

  // A live branch, followed by the rest of its IF.
  lemma {:induction false} SimBranch(env: Env, code: seq<Line>, l: nat, b: Block, t: Tail, loops: set<nat>, fuel: nat,
                                     m: Machine, base: seq<Entry>, e: Entry) returns (n: nat)
    requires WellFormed(b, loops, false) && WellFormedTail(t, loops) && l !in TailLabels(t) && l !in loops
    requires Closing(e, l, t) && !e.skip && Live(base) && Targets(base, loops)
    requires Running(m) && !m.skipBlocks && m.flow.source != NO_JOB && m.flow.context == base + [e]
    requires Occurs(code, m.flow.position, Flat(b)) && Occurs(code, m.flow.position + |Flat(b)|, FlatTail(l, t))
    ensures Simulates(env, code, m, base, m.flow.position + |Flat(b)| + |FlatTail(l, t)|,
                      PassOver(env, FlatTail(l, t), m.flow.position + |Flat(b)|, Inside(EvalBlock(env, fuel, b, m.memory, m.flow.position))), fuel, n)
    decreases fuel, b, 5
  {
    hide Step, Steps, PopTo, Targets, InertText, Flat, FlatStmt, FlatTail, Skim;
    PushKeepsTargets(base, e, loops, l);
    BreaksToLoops(env, fuel, b, m.memory, m.flow.position, loops, false);
    n := SimBlock(env, code, b, loops, false, fuel, m);
    var r, q := EvalBlock(env, fuel, b, m.memory, m.flow.position), m.flow.position + |Flat(b)|;
    if r.Normal? {
      var m1 := Steps(env, code, m, n);
      CloseIf(env, code, l, t, loops, m1, base, e);
      StepsAdd(env, code, m, n, |FlatTail(l, t)|);
      n := n + |FlatTail(l, t)|;
    } else if r.Breaking? {
      TailLabelsAvoidLoops(t, loops);
      FlatTailInert(l, t, loops, r.oLabel);
      BreakPast(env, code, m, base, e, loops, q, r, fuel, n, FlatTail(l, t));
      n := n + |FlatTail(l, t)|;
    }
  }

  // The rest of an IF none of whose branches has been taken yet.
  lemma {:induction false} SimTail(env: Env, code: seq<Line>, l: nat, t: Tail, loops: set<nat>, fuel: nat,
                                   m: Machine, base: seq<Entry>, e: Entry) returns (n: nat)
    requires WellFormedTail(t, loops) && l !in TailLabels(t) && l !in loops && Live(base) && Targets(base, loops)
    requires e.oLabel == l && e.skip && !e.handled && !e.brk && (e.operation.If? || e.operation.ElseIf?)
    requires Running(m) && m.skipBlocks && m.flow.source != NO_JOB && m.flow.context == base + [e]
    requires Occurs(code, m.flow.position, FlatTail(l, t))
    ensures Simulates(env, code, m, base, m.flow.position + |FlatTail(l, t)|, EvalTail(env, fuel, l, t, m.memory, m.flow.position), fuel, n)
    decreases fuel, t, 6
  {
    hide Step, Steps, PopTo, Targets, InertText, Flat, FlatStmt, FlatTail, Skim;
    var p := m.flow.position;
    var q := p + |FlatTail(l, t)|;
    EmptyEvents(m);
    TailText(code, p, l, t);
    n := 1;
    match t
    case NoElse =>
      StepEndIf(env, code, m, base, e);
    case ElseS(b) =>
      var e' := e.(skip := false, operation := Else);
      StepElse(env, code, m, base, e);
      var m1 := At(m, base + [e'], p + 1).(skipBlocks := false);
      var k := SimBranch(env, code, l, b, NoElse, loops, fuel, m1, base, e');
      var r := Inside(EvalBlock(env, fuel, b, m.memory, p + 1));
      NothingToPass(env, l, p + 1 + |Flat(b)|, r);
      SilentPrefix(env, code, m, 1, m1, base, q, r, fuel, k);
      n := 1 + k;
    case ElseIfS(_, _, _) => n := SimElseIf(env, code, l, t, loops, fuel, m, base, e);
  }

  lemma {:induction false} SimElseIf(env: Env, code: seq<Line>, l: nat, t: Tail, loops: set<nat>, fuel: nat,
                                     m: Machine, base: seq<Entry>, e: Entry) returns (n: nat)
    requires t.ElseIfS? && WellFormedTail(t, loops) && l !in TailLabels(t) && l !in loops && Live(base) && Targets(base, loops)
    requires e.oLabel == l && e.skip && !e.handled && !e.brk && (e.operation.If? || e.operation.ElseIf?)
    requires Running(m) && m.skipBlocks && m.flow.source != NO_JOB && m.flow.context == base + [e]
    requires Occurs(code, m.flow.position, FlatTail(l, t))
    ensures Simulates(env, code, m, base, m.flow.position + |FlatTail(l, t)|, EvalTail(env, fuel, l, t, m.memory, m.flow.position), fuel, n)
    decreases fuel, t, 5
  {
    hide Step, Steps, PopTo, Targets, InertText, Flat, FlatStmt, FlatTail, Skim;
    var p, b := m.flow.position, t.body;
    var q := p + |FlatTail(l, t)|;
    EmptyEvents(m);
    TailText(code, p, l, t);
    StepElseIf(env, code, m, base, e, t.cond);
    n := 1;
    if env.eval(t.cond, m.memory.store).Number? {
      hide Leaves, StoppedAt, BreakTo;
      var v := env.eval(t.cond, m.memory.store).value;
      var e' := if v == 0.0 then e else e.(skip := false, operation := ElseIf, handled := true);
      var m1 := At(m, base + [e'], p + 1).(skipBlocks := v == 0.0);
      if v != 0.0 {
        var k := SimBranch(env, code, l, b, t.tail, loops, fuel, m1, base, e');
        SilentPrefix(env, code, m, 1, m1, base, q, EvalTail(env, fuel, l, t, m.memory, p), fuel, k);
        n := 1 + k;
      } else {
        SkipBlock(env, code, m, m1, l, b, loops, false);
        n := 1 + |Flat(b)|;
        var skipped := Skim(env, Flat(b), m.memory, p + 1);
        if skipped.Passed? {
          var m2 := At(m1, base + [e], p + 1 + |Flat(b)|).(memory := skipped.memory);
          var k := SimTail(env, code, l, t.tail, loops, fuel, m2, base, e);
          SilentPrefix(env, code, m, n, m2, base, q, EvalTail(env, fuel, l, t.tail, skipped.memory, p + 1 + |Flat(b)|), fuel, k);
          n := n + k;
        } else {
          HaltsSkipping(env, code, m, m1, base, q, skipped, fuel, n);
        }
      }
    }
  }

  // The job has ended in text that is passed over.
  lemma HaltsSkipping(env: Env, code: seq<Line>, m: Machine, m1: Machine, base: seq<Entry>, q: nat, r: Passing, fuel: nat, n: nat)
    requires r.Halting? && HaltedAt(m1, Steps(env, code, m, n), r) && m1.flow.context != [] && m1.trace == m.trace
    ensures Simulates(env, code, m, base, q, Stopped(r.error, r.memory, [], r.line, Open), fuel, n)
  {
    assert m.trace + [] == m.trace;
  }

  lemma NothingToPass(env: Env, l: nat, p: nat, r: Result)
    ensures PassOver(env, FlatTail(l, NoElse), p, r) == r
  {
    if r.Normal? || r.Breaking? {
      SkimTail(env, l, NoElse, r.memory, p);
    }
  }

  // ---- Loops ------------------------------------------------------------------------------------

  // A loop body with its loop's entry on top of the stack, up to the line that closes the loop.
  ghost predicate InBody(code: seq<Line>, m: Machine, b: Block, closing: Line, base: seq<Entry>, e: Entry, loops: set<nat>) {
    && Running(m) && !m.skipBlocks && m.flow.source != NO_JOB && m.flow.context == base + [e]
    && Live(base) && Targets(base, loops) && e.oLabel !in loops
    && IsLoop(e.operation) && !e.skip && !e.brk && e.file == m.flow.source && e.filePos == m.flow.position
    && WellFormed(b, loops + {e.oLabel}, e.operation.Do?)
    && Occurs(code, m.flow.position, Flat(b)) && Occurs(code, m.flow.position + |Flat(b)|, [closing])
    && closing.OWord? && closing.oLabel == e.oLabel && Inert(closing.op, closing.oLabel, closing.oLabel + 1)
  }

  // One pass of the body: it either reaches the closing line, or has left the loop for good.
  lemma {:induction false} SimBody(env: Env, code: seq<Line>, b: Block, closing: Line, loops: set<nat>, fuel: nat,
                                   m: Machine, base: seq<Entry>, e: Entry) returns (n: nat)
    requires InBody(code, m, b, closing, base, e, loops)
    ensures var r := EvalBlock(env, fuel, b, m.memory, m.flow.position);
            var q := m.flow.position + |Flat(b)|;
            && code[q] == closing && q < |code|
            && (r.Normal? ==> Steps(env, code, m, n) == Update(At(m, base + [e], q), r.memory, r.events))
            && (r.Breaking? && r.oLabel == e.oLabel ==>
                  Steps(env, code, m, n) == Update(At(m, base + [Broken(e)], q), r.memory, r.events).(skipBlocks := true))
            && (r.Timeout? || r.Stopped? || (r.Breaking? && r.oLabel != e.oLabel) ==>
                  Simulates(env, code, m, base, q + 1, Inside(r), fuel, n))
    decreases fuel, b, 5
  {
    hide Step, Steps;
    var q := m.flow.position + |Flat(b)|;
    assert code[q] == code[q..q + 1][0];
    PushKeepsTargets(base, e, loops, e.oLabel);
    BreaksToLoops(env, fuel, b, m.memory, m.flow.position, loops + {e.oLabel}, e.operation.Do?);
    PushPop(base, e, Broken(e));
    n := SimBlock(env, code, b, loops + {e.oLabel}, e.operation.Do?, fuel, m);
    var r := EvalBlock(env, fuel, b, m.memory, m.flow.position);
    if r.Breaking? {
      if r.oLabel == e.oLabel {
        assert PopTo(base + [e], r.oLabel) == base + [e];
      } else {
        BreakPast(env, code, m, base, e, loops, q, r, fuel, n, [closing]);
        SkimWord(env, closing, r.memory, q);
        n := n + 1;
      }
    }
  }

  // A WHILE that runs no pass: its body is skipped and ENDWHILE drops it.
  lemma SkipWhile(env: Env, code: seq<Line>, st: Stmt, loops: set<nat>, m: Machine, m1: Machine, base: seq<Entry>, e: Entry,
                  fuel: nat)
    requires st.WhileS? && WellFormedStmt(st, loops, false) && Live(base)
    requires e.oLabel == st.oLabel && e.operation.While? && e.skip && e.repeats == 0 && e.file == m1.flow.source
    requires Running(m) && m.flow.source != NO_JOB && m1 == At(m, base + [e], m.flow.position + 1).(skipBlocks := true)
    requires Steps(env, code, m, 1) == m1 && Occurs(code, m1.flow.position, Flat(st.body))
    requires Occurs(code, m1.flow.position + |Flat(st.body)|, [OWord(st.oLabel, EndWhile, "")])
    ensures Simulates(env, code, m, base, m1.flow.position + |Flat(st.body)| + 1,
                      PassOver(env, Flat(st.body), m1.flow.position, Normal(m.memory, [])), fuel, 1 + |Flat(st.body)| + 1)
  {
    hide Step, Steps, InertText, Skim, Flat;
    EmptyEvents(m);
    StmtLabelsAvoidLoops(st, loops, false);
    SkipBlock(env, code, m, m1, st.oLabel, st.body, loops + {st.oLabel}, false);
    var skipped := Skim(env, Flat(st.body), m1.memory, m1.flow.position);
    if skipped.Passed? {
      var m2 := At(m1, base + [e], m1.flow.position + |Flat(st.body)|).(memory := skipped.memory);
      First(code, m2, [OWord(st.oLabel, EndWhile, "")]);
      StepEndWhile(env, code, m2, base, e);
      StepsAdd(env, code, m, 1 + |Flat(st.body)|, 1);
    } else {
      HaltedStays(env, code, m, 1 + |Flat(st.body)|, 1 + |Flat(st.body)| + 1);
    }
  }

  // A loop whose first test fails, or is not a number.
  lemma LoopTests(env: Env, fuel: nat, st: Stmt, s: Memory, p: nat)
    requires st.WhileS? || st.RepeatS?
    ensures var v := env.eval(if st.WhileS? then st.cond else st.count, s.store);
            var r := EvalStmt(env, fuel, st, s, p);
            && (v.Bad? ==> r == Stopped(v.error, s, [], p, Cleared))
            && (v.Number? && v.value == 0.0 ==> r == PassOver(env, Flat(st.body), p + 1, Normal(s, [])))
            && (v.Number? && v.value != 0.0 && st.WhileS? ==> r == EvalWhile(env, fuel, st, s, p))
            && (v.Number? && v.value != 0.0 && st.RepeatS? ==> r == EvalRepeat(env, fuel, st, Passes(v.value), s, p))
  {
  }

  lemma {:induction false} SimWhile(env: Env, code: seq<Line>, st: Stmt, loops: set<nat>, fuel: nat, m: Machine) returns (n: nat)
    requires st.WhileS? && Ready(m, loops, false) && WellFormedStmt(st, loops, false)
    requires Occurs(code, m.flow.position, FlatStmt(st))
    ensures Simulates(env, code, m, m.flow.context, m.flow.position + |FlatStmt(st)|, EvalStmt(env, fuel, st, m.memory, m.flow.position), fuel, n)
    decreases fuel, st, 8
  {
    hide Step, Steps, EvalStmt, EvalWhile, EvalBlock, PopTo, Targets, InertText, Flat, FlatStmt, FlatTail, Skim;
    var p := m.flow.position;
    LoopText(code, p, st);
    StepWhile(env, code, m, st.oLabel, st.cond);
    LoopTests(env, fuel, st, m.memory, p);
    EmptyEvents(m);
    n := 1;
    if env.eval(st.cond, m.memory.store).Number? {
      if env.eval(st.cond, m.memory.store).value != 0.0 {
        n := LiveWhile(env, code, st, loops, fuel, m);
        hide Simulates;
      } else {
        var e := NewEntry(st.oLabel, While, m.flow.source, true).(expr := st.cond);
        var m1 := At(m, m.flow.context + [e], p + 1).(skipBlocks := true);
        SkipWhile(env, code, st, loops, m, m1, m.flow.context, e, fuel);
        n := 1 + |Flat(st.body)| + 1;
        hide WellFormedStmt, Occurs, Ready, Simulates;
      }
    }
  }

  // A WHILE whose condition holds at first.
  lemma {:induction false} LiveWhile(env: Env, code: seq<Line>, st: Stmt, loops: set<nat>, fuel: nat, m: Machine) returns (n: nat)
    requires st.WhileS? && Ready(m, loops, false) && WellFormedStmt(st, loops, false)
    requires Occurs(code, m.flow.position, FlatStmt(st))
    requires var v := env.eval(st.cond, m.memory.store); v.Number? && v.value != 0.0
    ensures Simulates(env, code, m, m.flow.context, m.flow.position + |FlatStmt(st)|, EvalStmt(env, fuel, st, m.memory, m.flow.position), fuel, n)
    decreases fuel, st, 7
  {
    var p, base := m.flow.position, m.flow.context;
    hide Step, Steps, EvalStmt, EvalWhile, EvalBlock, PopTo, Targets, InertText, Flat, FlatStmt, FlatTail, Skim, Simulates;
    LoopText(code, p, st);
    StepWhile(env, code, m, st.oLabel, st.cond);
    LoopTests(env, fuel, st, m.memory, p);
    var e := NewEntry(st.oLabel, While, m.flow.source, false).(expr := st.cond, filePos := p + 1);
    var m1 := At(m, base + [e], p + 1).(skipBlocks := false);
    assert InBody(code, m1, st.body, OWord(st.oLabel, EndWhile, ""), base, e, loops);
    hide InBody, Occurs, Live, WellFormedStmt, Ready;
    var k := WhilePass(env, code, st, loops, fuel, m1, base, e);
    SilentPrefix(env, code, m, 1, m1, base, p + |FlatStmt(st)|, EvalStmt(env, fuel, st, m.memory, p), fuel, k);
    n := 1 + k;
  }

  lemma {:induction false} WhilePass(env: Env, code: seq<Line>, st: Stmt, loops: set<nat>, fuel: nat,
                                     m: Machine, base: seq<Entry>, e: Entry) returns (n: nat)
    requires st.WhileS? && st.oLabel == e.oLabel && e.operation.While? && e.expr == st.cond
    requires m.flow.position > 0 && InBody(code, m, st.body, OWord(st.oLabel, EndWhile, ""), base, e, loops)
    ensures Simulates(env, code, m, base, m.flow.position + |Flat(st.body)| + 1, EvalWhile(env, fuel, st, m.memory, m.flow.position - 1), fuel, n)
    decreases fuel, st, 6
  {
    hide Step, Steps, PopTo, Targets, InertText, Flat, FlatStmt, FlatTail, Skim;
    var p, q := m.flow.position, m.flow.position + |Flat(st.body)|;
    var r := EvalBlock(env, fuel, st.body, m.memory, m.flow.position);
    n := SimBody(env, code, st.body, OWord(st.oLabel, EndWhile, ""), loops, fuel, m, base, e);
    var m1 := Steps(env, code, m, n);
    if r.Normal? {
      StepEndWhile(env, code, m1, base, e);
      StepsAdd(env, code, m, n, 1);
      match env.eval(st.cond, r.memory.store)
      case Bad(_) => n := n + 1;
      case Number(v) =>
        if v == 0.0 {
          n := n + 1;
        } else if fuel > 0 {
          var m2 := At(m1, base + [e], p);
          var k := WhilePass(env, code, st, loops, fuel - 1, m2, base, e);
          Prefix(env, code, m, n + 1, m2, r.events, base, q + 1, EvalWhile(env, fuel - 1, st, r.memory, p - 1), fuel - 1, k);
          n := n + 1 + k;
        }
    } else if r.Breaking? && r.oLabel == e.oLabel {
      StepEndWhile(env, code, m1, base, Broken(e));
      StepsAdd(env, code, m, n, 1);
      n := n + 1;
    }
  }

  lemma DoOpens(env: Env, code: seq<Line>, st: Stmt, loops: set<nat>, m: Machine) returns (m1: Machine, e: Entry)
    requires st.DoS? && Ready(m, loops, LastOp(m.flow.context).Do?) && WellFormedStmt(st, loops, false)
    requires Occurs(code, m.flow.position, FlatStmt(st))
    ensures m1 == Steps(env, code, m, 1) && m1.flow == m.flow.(context := m1.flow.context, position := m.flow.position + 1)
    ensures m1.memory == m.memory && m1.trace == m.trace && m1.status == m.status && m1.ended == m.ended
    ensures st.oLabel == e.oLabel && e.operation.Do? && |FlatStmt(st)| == |Flat(st.body)| + 2
    ensures InBody(code, m1, st.body, OWord(st.oLabel, While, st.cond), m.flow.context, e, loops)
  {
    hide Step, Steps, PopTo, Targets, InertText, Flat, FlatStmt, FlatTail, Skim;
    var p := m.flow.position;
    LoopText(code, p, st);
    StepDo(env, code, m, st.oLabel);
    e := NewEntry(st.oLabel, Do, m.flow.source, false).(filePos := p + 1);
    m1 := At(m, m.flow.context + [e], p + 1);
  }

  lemma {:induction false} SimDo(env: Env, code: seq<Line>, st: Stmt, loops: set<nat>, fuel: nat, m: Machine) returns (n: nat)
    requires st.DoS? && Ready(m, loops, LastOp(m.flow.context).Do?) && WellFormedStmt(st, loops, false)
    requires Occurs(code, m.flow.position, FlatStmt(st))
    ensures Simulates(env, code, m, m.flow.context, m.flow.position + |FlatStmt(st)|, EvalStmt(env, fuel, st, m.memory, m.flow.position), fuel, n)
    decreases fuel, st, 8
  {
    hide *;
    var p, base := m.flow.position, m.flow.context;
    var m1, e := DoOpens(env, code, st, loops, m);
    var k := DoPass(env, code, st, loops, fuel, m1, base, e);
    SilentPrefix(env, code, m, 1, m1, base, p + |FlatStmt(st)|, EvalStmt(env, fuel, st, m.memory, p), fuel, k);
    n := 1 + k;
  }

  lemma {:induction false} DoPass(env: Env, code: seq<Line>, st: Stmt, loops: set<nat>, fuel: nat,
                                  m: Machine, base: seq<Entry>, e: Entry) returns (n: nat)
    requires st.DoS? && st.oLabel == e.oLabel && e.operation.Do?
    requires m.flow.position > 0 && InBody(code, m, st.body, OWord(st.oLabel, While, st.cond), base, e, loops)
    ensures Simulates(env, code, m, base, m.flow.position + |Flat(st.body)| + 1, EvalStmt(env, fuel, st, m.memory, m.flow.position - 1), fuel, n)
    decreases fuel, st, 7
  {
    hide Step, Steps, PopTo, Targets, InertText, Flat, FlatStmt, FlatTail, Skim;
    var p, q := m.flow.position, m.flow.position + |Flat(st.body)|;
    var r := EvalBlock(env, fuel, st.body, m.memory, m.flow.position);
    n := SimBody(env, code, st.body, OWord(st.oLabel, While, st.cond), loops, fuel, m, base, e);
    var m1 := Steps(env, code, m, n);
    if r.Normal? {
      StepDoWhile(env, code, m1, base, e, st.cond);
      StepsAdd(env, code, m, n, 1);
      match env.eval(st.cond, r.memory.store)
      case Bad(_) => n := n + 1;
      case Number(v) =>
        if v == 0.0 {
          n := n + 1;
        } else if fuel > 0 {
          var m2 := At(m1, base + [e], p);
          var k := DoPass(env, code, st, loops, fuel - 1, m2, base, e);
          Prefix(env, code, m, n + 1, m2, r.events, base, q + 1, EvalStmt(env, fuel - 1, st, r.memory, p - 1), fuel - 1, k);
          n := n + 1 + k;
        }
    } else if r.Breaking? && r.oLabel == e.oLabel {
      StepDoWhile(env, code, m1, base, Broken(e), st.cond);
      StepsAdd(env, code, m, n, 1);
      n := n + 1;
    }
  }

  // A REPEAT that runs no pass: its body is skipped and ENDREPEAT drops it.
  lemma SkipRepeat(env: Env, code: seq<Line>, st: Stmt, loops: set<nat>, m: Machine, m1: Machine, base: seq<Entry>, e: Entry)
    requires st.RepeatS? && WellFormedStmt(st, loops, false) && Live(base)
    requires e.oLabel == st.oLabel && e.operation.Repeat? && e.skip && e.repeats == 0 && e.file == m1.flow.source
    requires Running(m1) && m1.flow.source != NO_JOB && m1.flow.context == base + [e] && m1.skipBlocks
    requires Steps(env, code, m, 1) == m1 && Occurs(code, m1.flow.position, Flat(st.body))
    requires Occurs(code, m1.flow.position + |Flat(st.body)|, [OWord(st.oLabel, EndRepeat, "")])
    ensures var m' := Steps(env, code, m, 1 + |Flat(st.body)| + 1);
            var r := Skim(env, Flat(st.body), m1.memory, m1.flow.position);
            if r.Passed? then m' == At(m1, base, m1.flow.position + |Flat(st.body)| + 1).(skipBlocks := false, memory := r.memory)
            else HaltsIn(m1, m', r)
  {
    hide Step, Steps, InertText, Skim;
    StmtLabelsAvoidLoops(st, loops, false);
    SkipBlock(env, code, m, m1, st.oLabel, st.body, loops + {st.oLabel}, false);
    var skipped := Skim(env, Flat(st.body), m1.memory, m1.flow.position);
    if skipped.Passed? {
      var m2 := At(m1, base + [e], m1.flow.position + |Flat(st.body)|).(memory := skipped.memory);
      First(code, m2, [OWord(st.oLabel, EndRepeat, "")]);
      StepEndRepeat(env, code, m2, base, e);
      StepsAdd(env, code, m, 1 + |Flat(st.body)|, 1);
    } else {
      HaltedStays(env, code, m, 1 + |Flat(st.body)|, 1 + |Flat(st.body)| + 1);
    }
  }

  lemma {:induction false} SimRepeat(env: Env, code: seq<Line>, st: Stmt, loops: set<nat>, fuel: nat, m: Machine) returns (n: nat)
    requires st.RepeatS? && Ready(m, loops, LastOp(m.flow.context).Do?) && WellFormedStmt(st, loops, false)
    requires Occurs(code, m.flow.position, FlatStmt(st))
    ensures Simulates(env, code, m, m.flow.context, m.flow.position + |FlatStmt(st)|, EvalStmt(env, fuel, st, m.memory, m.flow.position), fuel, n)
    decreases fuel, st, 8
  {
    hide Step, Steps, EvalStmt, EvalRepeat, EvalBlock, PopTo, Targets, InertText, Flat, FlatStmt, FlatTail, Skim, ToUint32;
    LoopText(code, m.flow.position, st);
    StepRepeat(env, code, m, st.oLabel, st.count);
    LoopTests(env, fuel, st, m.memory, m.flow.position);
    EmptyEvents(m);
    n := 1;
    if env.eval(st.count, m.memory.store).Number? {
      if env.eval(st.count, m.memory.store).value != 0.0 {
        n := LiveRepeat(env, code, st, loops, fuel, m);
        hide Simulates;
      } else {
        var p := m.flow.position;
        var e := NewEntry(st.oLabel, Repeat, m.flow.source, true);
        var m1 := At(m, m.flow.context + [e], p + 1).(skipBlocks := true);
        SkipRepeat(env, code, st, loops, m, m1, m.flow.context, e);
        n := 1 + |Flat(st.body)| + 1;
        hide WellFormedStmt, Occurs, Ready;
      }
    }
  }

  // A REPEAT whose count is not zero.
  lemma {:induction false} LiveRepeat(env: Env, code: seq<Line>, st: Stmt, loops: set<nat>, fuel: nat, m: Machine) returns (n: nat)
    requires st.RepeatS? && Ready(m, loops, LastOp(m.flow.context).Do?) && WellFormedStmt(st, loops, false)
    requires Occurs(code, m.flow.position, FlatStmt(st))
    requires var v := env.eval(st.count, m.memory.store); v.Number? && v.value != 0.0
    ensures Simulates(env, code, m, m.flow.context, m.flow.position + |FlatStmt(st)|, EvalStmt(env, fuel, st, m.memory, m.flow.position), fuel, n)
    decreases fuel, st, 7
  {
    var p, base, v := m.flow.position, m.flow.context, env.eval(st.count, m.memory.store).value;
    hide Step, Steps, EvalStmt, EvalRepeat, EvalBlock, PopTo, Targets, InertText, Flat, FlatStmt, FlatTail, Skim, ToUint32, Simulates;
    LoopText(code, p, st);
    StepRepeat(env, code, m, st.oLabel, st.count);
    LoopTests(env, fuel, st, m.memory, m.flow.position);
    var e := NewEntry(st.oLabel, Repeat, m.flow.source, false).(filePos := p + 1, repeats := ToUint32(v));
    var m1 := At(m, base + [e], p + 1).(skipBlocks := false);
    assert InBody(code, m1, st.body, OWord(st.oLabel, EndRepeat, ""), base, e, loops);
    hide InBody, Occurs, Live, WellFormedStmt, Ready;
    var k := RepeatPass(env, code, st, loops, fuel, m1, base, e, Passes(v));
    SilentPrefix(env, code, m, 1, m1, base, p + |FlatStmt(st)|, EvalStmt(env, fuel, st, m.memory, m.flow.position), fuel, k);
    n := 1 + k;
  }

  lemma {:induction false} RepeatPass(env: Env, code: seq<Line>, st: Stmt, loops: set<nat>, fuel: nat,
                                      m: Machine, base: seq<Entry>, e: Entry, passes: nat) returns (n: nat)
    requires st.RepeatS? && st.oLabel == e.oLabel && e.operation.Repeat?
    requires passes == if e.repeats == 0 then 1 else e.repeats
    requires m.flow.position > 0 && InBody(code, m, st.body, OWord(st.oLabel, EndRepeat, ""), base, e, loops)
    ensures Simulates(env, code, m, base, m.flow.position + |Flat(st.body)| + 1, EvalRepeat(env, fuel, st, passes, m.memory, m.flow.position - 1), fuel, n)
    decreases fuel, st, 7, passes
  {
    hide Step, Steps, PopTo, Targets, InertText, Flat, FlatStmt, FlatTail, Skim;
    var p, q := m.flow.position, m.flow.position + |Flat(st.body)|;
    var r := EvalBlock(env, fuel, st.body, m.memory, m.flow.position);
    n := SimBody(env, code, st.body, OWord(st.oLabel, EndRepeat, ""), loops, fuel, m, base, e);
    var m1 := Steps(env, code, m, n);
    if r.Normal? {
      if passes <= 1 {
        StepEndRepeat(env, code, m1, base, e);
        StepsAdd(env, code, m, n, 1);
        n := n + 1;
      } else {
        var e' := e.(repeats := e.repeats - 1);
        StepEndRepeat(env, code, m1, base, e);
        StepsAdd(env, code, m, n, 1);
        var m2 := At(m1, base + [e'], p);
        var k := RepeatPass(env, code, st, loops, fuel, m2, base, e', passes - 1);
        Prefix(env, code, m, n + 1, m2, r.events, base, q + 1, EvalRepeat(env, fuel, st, passes - 1, r.memory, p - 1), fuel, k);
        n := n + 1 + k;
      }
    } else if r.Breaking? && r.oLabel == e.oLabel {
      StepEndRepeat(env, code, m1, base, Broken(e));
      StepsAdd(env, code, m, n, 1);
      n := n + 1;
    }
  }
}
