/** What a job leaves behind where it ends: an error, M2 or M30, an alarm or a '%' stop a job anywhere in
    its text, and only an error of flow control itself clears the context stack. */
module JobEnds {
  import opened Flowcontrol
  import opened FlowJob
  import opened Structured
  import opened FlowCorrectness
  import opened FlowTheorems
  import Unrolling

  // ---- Where the stack is left as it was ----------------------------------------------------------------

  // The lines of a block at `p` that stand in none of its constructs.
  function TopLines(b: Block, p: nat): set<nat> {
    match b
    case Nil => {}
    case Seq(st, rest) => (if st.Command? || st.Signal? then {p} else {}) + TopLines(rest, p + |FlatStmt(st)|)
  }

  // Where a result says the job stops, and on what of the stack, against the text at `p`.
  predicate StopsIn(r: Result, text: seq<Line>, p: nat) {
    r.Stopped? ==>
      && p <= r.line < p + |text|
      && (r.left.Cleared? <==> r.error != OK && text[r.line - p].OWord?)
  }

  lemma StopsWithin(r: Result, a: seq<Line>, b: seq<Line>, p: nat)
    ensures StopsIn(r, a, p) ==> StopsIn(r, a + b, p)
    ensures StopsIn(r, b, p + |a|) ==> StopsIn(r, a + b, p)
  {
  }

  lemma {:induction false} SkimStops(env: Env, text: seq<Line>, s: Memory, p: nat)
    ensures var r := Skim(env, text, s, p); r.Halting? ==> p <= r.line < p + |text| && text[r.line - p].Plain?
    decreases |text|
  {
    if text != [] {
      var first := PassLine(env, text[0], s, p);
      if first.Passed? {
        SkimStops(env, text[1..], first.memory, p + 1);
      }
    }
  }

  lemma PassStops(env: Env, text: seq<Line>, p: nat, before: seq<Line>, q: nat, r: Result)
    requires StopsIn(r, before, q) && q + |before| == p
    ensures StopsIn(PassOver(env, text, p, r), before + text, q)
  {
    if r.Normal? || r.Breaking? {
      SkimStops(env, text, r.memory, p);
    }
  }

  lemma {:induction false} BlockStops(env: Env, fuel: nat, b: Block, s: Memory, p: nat)
    ensures StopsIn(EvalBlock(env, fuel, b, s, p), Flat(b), p)
    decreases fuel, b, 0
  {
    hide Skim, EvalStmt, FlatStmt;
    if b.Seq? {
      var st, rest := b.first, b.rest;
      var r, q := EvalStmt(env, fuel, st, s, p), p + |FlatStmt(st)|;
      StmtStops(env, fuel, st, s, p);
      if r.Normal? {
        BlockStops(env, fuel, rest, r.memory, q);
        StopsWithin(EvalBlock(env, fuel, rest, r.memory, q), FlatStmt(st), Flat(rest), p);
      } else {
        PassStops(env, Flat(rest), q, FlatStmt(st), p, r);
      }
    }
  }

  // A program stops on the stack it started with just where it stops outside of its constructs.
  lemma {:induction false} TopStops(env: Env, fuel: nat, b: Block, s: Memory, p: nat)
    requires WellFormed(b, {}, false)
    ensures var r := EvalBlock(env, fuel, b, s, p);
            r.Stopped? && !r.left.Cleared? ==> (r.left.Kept? <==> r.line in TopLines(b, p))
    decreases b
  {
    hide Skim, EvalStmt;
    if b.Seq? {
      var st, rest := b.first, b.rest;
      var r, q := EvalStmt(env, fuel, st, s, p), p + |FlatStmt(st)|;
      assert |FlatStmt(st)| > 0 && (st.Command? || st.Signal? ==> |FlatStmt(st)| == 1);
      hide FlatStmt;
      StmtStops(env, fuel, st, s, p);
      StmtBreaksToLoops(env, fuel, st, s, p, {}, false);
      TopLinesAt(rest, q);
      if r.Normal? {
        TopStops(env, fuel, rest, r.memory, q);
        BlockStops(env, fuel, rest, r.memory, q);
      }
    }
  }

  lemma {:induction false} TopLinesAt(b: Block, p: nat)
    ensures forall k :: k in TopLines(b, p) ==> p <= k < p + |Flat(b)|
  {
    if b.Seq? {
      TopLinesAt(b.rest, p + |FlatStmt(b.first)|);
    }
  }

  // A result from inside a construct whose first line is `first`, and then `last`.
  lemma FrameStops(r: Result, first: Line, body: seq<Line>, last: seq<Line>, p: nat)
    ensures StopsIn(r, body, p + 1) ==> StopsIn(r, [first] + body, p) && StopsIn(r, [first] + body + last, p)
  {
    StopsWithin(r, [first], body, p);
    StopsWithin(r, [first] + body, last, p);
  }

  lemma {:induction false} StmtStops(env: Env, fuel: nat, st: Stmt, s: Memory, p: nat)
    ensures var r := EvalStmt(env, fuel, st, s, p);
            StopsIn(r, FlatStmt(st), p) && (r.Stopped? && !r.left.Cleared? ==> (r.left.Kept? <==> st.Command? || st.Signal?))
    decreases fuel, st, 1
  {
    match st
    case Command(_) =>
    case Signal(_, _, _) =>
    case BreakS(_) =>
    case IfS(l, c, b, t) => IfStops(env, fuel, st, s, p);
    case WhileS(_, _, _) => LoopStops(env, fuel, st, s, p);
    case RepeatS(_, _, _) => LoopStops(env, fuel, st, s, p);
    case DoS(_, _, _) => DoStops(env, fuel, st, s, p);
  }

  lemma {:induction false} DoStops(env: Env, fuel: nat, st: Stmt, s: Memory, p: nat)
    requires st.DoS?
    ensures var r := EvalStmt(env, fuel, st, s, p); StopsIn(r, FlatStmt(st), p) && (r.Stopped? ==> !r.left.Kept?)
    decreases fuel, st, 0
  {
    hide Skim, Flat;
    BlockStops(env, fuel, st.body, s, p + 1);
    var r := EvalBlock(env, fuel, st.body, s, p + 1);
    FrameStops(r, Opening(st), Flat(st.body), [Closer(st)], p);
    assert FlatStmt(st)[1 + |Flat(st.body)|] == Closer(st);
    if r.Normal? && fuel > 0 {
      DoStops(env, fuel - 1, st, r.memory, p);
    }
  }

  lemma {:induction false} IfStops(env: Env, fuel: nat, st: Stmt, s: Memory, p: nat)
    requires st.IfS?
    ensures var r := EvalStmt(env, fuel, st, s, p); StopsIn(r, FlatStmt(st), p) && (r.Stopped? ==> !r.left.Kept?)
    decreases fuel, st, 0
  {
    hide Skim, FlatTail;
    var b, l, t, first := st.body, st.oLabel, st.tail, Opening(st);
    var q := p + 1 + |Flat(b)|;
    var v := env.eval(st.cond, s.store);
    if v.Bad? {
      assert FlatStmt(st)[0] == first;
    } else if v.value != 0.0 {
      BlockStops(env, fuel, b, s, p + 1);
      var r := Inside(EvalBlock(env, fuel, b, s, p + 1));
      FrameStops(r, first, Flat(b), [], p);
      PassStops(env, FlatTail(l, t), q, [first] + Flat(b), p, r);
    } else {
      SkimStops(env, Flat(b), s, p + 1);
      var skipped := Skim(env, Flat(b), s, p + 1);
      if skipped.Passed? {
        TailStops(env, fuel, l, t, skipped.memory, q);
        StopsWithin(EvalTail(env, fuel, l, t, skipped.memory, q), [first] + Flat(b), FlatTail(l, t), p);
      } else {
        FrameStops(Stopped(skipped.error, skipped.memory, [], skipped.line, Open), first, Flat(b), FlatTail(l, t), p);
      }
    }
  }

  lemma {:induction false} TailStops(env: Env, fuel: nat, l: nat, t: Tail, s: Memory, p: nat)
    ensures var r := EvalTail(env, fuel, l, t, s, p); StopsIn(r, FlatTail(l, t), p) && (r.Stopped? ==> !r.left.Kept?)
    decreases fuel, t, 1
  {
    hide Skim;
    match t
    case NoElse =>
    case ElseS(b) =>
      BlockStops(env, fuel, b, s, p + 1);
      FrameStops(Inside(EvalBlock(env, fuel, b, s, p + 1)), OWord(l, Else, ""), Flat(b), [OWord(l, EndIf, "")], p);
    case ElseIfS(_, _, _) => ElseIfStops(env, fuel, l, t, s, p);
  }

  lemma {:induction false} ElseIfStops(env: Env, fuel: nat, l: nat, t: Tail, s: Memory, p: nat)
    requires t.ElseIfS?
    ensures var r := EvalTail(env, fuel, l, t, s, p); StopsIn(r, FlatTail(l, t), p) && (r.Stopped? ==> !r.left.Kept?)
    decreases fuel, t, 0
  {
    var b, t', first := t.body, t.tail, OWord(l, ElseIf, t.cond);
    assert FlatTail(l, t) == [first] + Flat(b) + FlatTail(l, t');
    var text, last := FlatTail(l, t), FlatTail(l, t');
    hide Skim, FlatTail;
    var q := p + 1 + |Flat(b)|;
    var v := env.eval(t.cond, s.store);
    if v.Bad? {
      assert text[0] == first;
    } else if v.value != 0.0 {
      BlockStops(env, fuel, b, s, p + 1);
      var r := Inside(EvalBlock(env, fuel, b, s, p + 1));
      FrameStops(r, first, Flat(b), [], p);
      PassStops(env, last, q, [first] + Flat(b), p, r);
    } else {
      SkimStops(env, Flat(b), s, p + 1);
      var skipped := Skim(env, Flat(b), s, p + 1);
      if skipped.Passed? {
        TailStops(env, fuel, l, t', skipped.memory, q);
        StopsWithin(EvalTail(env, fuel, l, t', skipped.memory, q), [first] + Flat(b), last, p);
      } else {
        FrameStops(Stopped(skipped.error, skipped.memory, [], skipped.line, Open), first, Flat(b), last, p);
      }
    }
  }

  lemma {:induction false} LoopStops(env: Env, fuel: nat, st: Stmt, s: Memory, p: nat)
    requires st.WhileS? || st.RepeatS?
    ensures var r := EvalStmt(env, fuel, st, s, p); StopsIn(r, FlatStmt(st), p) && (r.Stopped? ==> !r.left.Kept?)
    decreases fuel, st, 0
  {
    var first, b := Opening(st), Flat(st.body);
    assert FlatStmt(st) == [first] + b + [Closer(st)] && FlatStmt(st)[0] == first;
    var v := env.eval(if st.WhileS? then st.cond else st.count, s.store);
    LoopTests(env, fuel, st, s, p);
    hide EvalStmt, EvalWhile, EvalRepeat, Skim, Flat, FlatStmt;
    if v.Number? && v.value == 0.0 {
      SkimStops(env, b, s, p + 1);
      FrameStops(PassOver(env, b, p + 1, Normal(s, [])), first, b, [Closer(st)], p);
    } else if v.Number? && st.WhileS? {
      WhileStops(env, fuel, st, s, p);
    } else if v.Number? {
      RepeatStops(env, fuel, st, Passes(v.value), s, p);
    }
  }

  lemma {:induction false} WhileStops(env: Env, fuel: nat, st: Stmt, s: Memory, p: nat)
    requires st.WhileS?
    ensures var r := EvalWhile(env, fuel, st, s, p); StopsIn(r, FlatStmt(st), p) && (r.Stopped? ==> !r.left.Kept?)
    decreases fuel, st.body, 2
  {
    hide Skim, Flat;
    BlockStops(env, fuel, st.body, s, p + 1);
    var r := EvalBlock(env, fuel, st.body, s, p + 1);
    FrameStops(r, Opening(st), Flat(st.body), [Closer(st)], p);
    assert FlatStmt(st)[1 + |Flat(st.body)|] == Closer(st);
    if r.Normal? && fuel > 0 {
      WhileStops(env, fuel - 1, st, r.memory, p);
    }
  }

  lemma {:induction false} RepeatStops(env: Env, fuel: nat, st: Stmt, passes: nat, s: Memory, p: nat)
    requires st.RepeatS?
    ensures var r := EvalRepeat(env, fuel, st, passes, s, p); StopsIn(r, FlatStmt(st), p) && (r.Stopped? ==> !r.left.Kept?)
    decreases fuel, st.body, 2, passes
  {
    hide Skim, Flat;
    BlockStops(env, fuel, st.body, s, p + 1);
    var r := EvalBlock(env, fuel, st.body, s, p + 1);
    FrameStops(r, Opening(st), Flat(st.body), [Closer(st)], p);
    if r.Normal? && passes > 1 {
      RepeatStops(env, fuel, st, passes - 1, r.memory, p);
    }
  }

  /** When a job of a well-formed program has ended, the stack is empty and the skip flag down if and only
      if it has come to the end of its text, or flow control has reported an error, or the line it has
      stopped at stands in none of its constructs. */
  lemma StackAtEndExact(env: Env, prog: Block, source: JobId, s: Store, n: nat)
    requires WellFormed(prog, {}, false) && source != NO_JOB
    requires Halted(Flat(prog), Steps(env, Flat(prog), Start(source, s), n))
    ensures var m, code := Steps(env, Flat(prog), Start(source, s), n), Flat(prog);
            m.flow.context == [] && !m.skipBlocks <==>
            || Running(m)
            || (m.status != OK && 0 < m.flow.position <= |code| && code[m.flow.position - 1].OWord?)
            || m.flow.position - 1 in TopLines(prog, 0)
  {
    HaltedJobIsProgram(env, prog, source, s, n);
    BlockStops(env, n + 1, prog, Memory(s, 0), 0);
    TopStops(env, n + 1, prog, Memory(s, 0), 0);
    RunsStayConsistent(env, Flat(prog), Start(source, s), n);
    hide Steps, Flat, EvalBlock, TopLines, OnlyTopSkips, WellFormed;
  }

  // ---- Jobs that end inside a construct -----------------------------------------------------------------

  // A line that ends the job, under an IF that is taken, and a line after it.
  function EndedUnderIf(l: nat, c: string, last: string, next: string): seq<Line> {
    [OWord(l, If, c), Plain(last), OWord(l, EndIf, ""), Plain(next)]
  }

  /** M2 under an IF: the line after the ENDIF does not run, and the IF stays on the stack. */
  lemma EndUnderIfLeavesEntry(env: Env, source: JobId, s: Store, l: nat, c: string, last: string, next: string, s': Store, events: seq<Event>)
    requires source != NO_JOB && env.eval(c, s).Number? && env.eval(c, s).value != 0.0
    requires last != "" && !env.percent(last) && env.exec(last, s) == Ended(s', events)
    ensures var code := EndedUnderIf(l, c, last, next);
            var m := Steps(env, code, Start(source, s), 2);
            && Halted(code, m) && m.status == OK && m.flow.position == 2 && m.memory.store == s' && m.trace == events
            && |m.flow.context| == 1 && m.flow.context[0].operation == If && !m.skipBlocks
  {
    var code, m0 := EndedUnderIf(l, c, last, next), Start(source, s);
    StepIf(env, code, m0, l, c);
    hide Control;
    var m1 := Steps(env, code, m0, 1);
    OneStep(env, code, m1);
    StepsAdd(env, code, m0, 1, 1);
    assert [] + events == events;
  }

  /** ALARM ends the job: the line after it does not run, and outside of constructs nothing is left behind. */
  lemma AlarmEndsJob(env: Env, source: JobId, s: Store, l: nat, expr: string, next: string)
    requires source != NO_JOB && env.eval(expr, s).Number?
    ensures var code := [OWord(l, RaiseAlarm, expr), Plain(next)];
            var m := Steps(env, code, Start(source, s), 1);
            Halted(code, m) && m.status == OK && m.flow.position == 1 && m.trace == [Alarm(env.eval(expr, s).value)]
            && m.memory.store == s && m.flow.context == []
  {
    var code := [OWord(l, RaiseAlarm, expr), Plain(next)];
    OneStep(env, code, Start(source, s));
  }

  /** A '%' under an IF that is not taken ends the job with the IF on the stack, and still skipping. */
  lemma PercentUnderIfLeavesSkipping(env: Env, source: JobId, s: Store, l: nat, c: string, last: string, next: string)
    requires source != NO_JOB && env.eval(c, s) == Number(0.0) && last != "" && env.percent(last)
    ensures var code := EndedUnderIf(l, c, last, next);
            var m := Steps(env, code, Start(source, s), 2);
            && Halted(code, m) && m.status == OK && m.flow.position == 2 && m.memory.store == s && m.trace == []
            && m.skipBlocks && |m.flow.context| == 1 && Skipping(m.flow.context) && Top(m.flow.context).oLabel == l
  {
    var code, m0 := EndedUnderIf(l, c, last, next), Start(source, s);
    StepIf(env, code, m0, l, c);
    hide Control;
    var m1 := Steps(env, code, m0, 1);
    OneStep(env, code, m1);
    StepsAdd(env, code, m0, 1, 1);
  }

  // The next job starts with its own file, on the stack and with the flag as they were left.
  function NextJob(m: Machine, source: JobId): Machine {
    Machine(Flow(m.flow.context, source, 0, m.flow.elsewhere), m.skipBlocks, Memory(m.memory.store, 0), [], OK, false)
  }

  /** After a job that was left skipping, no line of the next one is executed, unless it uses the label of
      the entry left: the job runs over its whole text, or stops at a line that cannot be read or a '%',
      and neither the parameters nor anything else has changed. */
  lemma NextJobIsSkipped(env: Env, m: Machine, prog: Block, source: JobId, loops: set<nat>, inDo: bool)
    requires m.skipBlocks && Skipping(m.flow.context) && source != NO_JOB
    requires WellFormed(prog, loops, inDo) && Top(m.flow.context).oLabel !in Labels(prog)
    ensures var end := Steps(env, Flat(prog), NextJob(m, source), |Flat(prog)|);
            && Halted(Flat(prog), end) && end.memory.store == m.memory.store && end.trace == []
            && end.flow.context == m.flow.context
            && (Running(end) <==> Skim(env, Flat(prog), Memory(m.memory.store, 0), 0).Passed?)
  {
    var code, l, next := Flat(prog), Top(m.flow.context).oLabel, NextJob(m, source);
    FlatInert(prog, loops, inDo, l);
    assert code[0..|code|] == code;
    hide Flat, Steps, InertText;
    SkipsText(env, code, next, l, 0, code);
    Unrolling.SkimKeepsStore(env, code, next.memory, 0);
  }

  // ---- Blank lines in loops ------------------------------------------------------------------------------

  // O l REPEAT c / blank / blank / O l ENDREPEAT / a '%' / next
  function BlankLoop(l: nat, c: string, percent: string, next: Block): Block {
    Seq(RepeatS(l, c, Seq(Command(""), Seq(Command(""), Nil))), Seq(Command(percent), next))
  }

  /** A '%' that is not on the first line is taken for the mark of a start of file when blank lines have
      been read again in a loop: two blank lines, run n times, hide a '%' on line 5 if and only if n is 2. */
  lemma PercentAfterBlankLoop(env: Env, fuel: nat, s: Store, l: nat, c: string, n: nat, percent: string, next: Block)
    requires 0 < n < 0x1_0000_0000 && env.eval(c, s) == Number(n as real) && percent != "" && env.percent(percent)
    ensures Meaning(env, fuel, BlankLoop(l, c, percent, next), s) ==
            if n == 2 then EvalBlock(env, fuel, next, Memory(s, 4), 5) else Stopped(OK, Memory(s, 2 * n), [], 4, Kept)
  {
    var body := Seq(Command(""), Seq(Command(""), Nil));
    var st := RepeatS(l, c, body);
    assert (n as real).Floor == n;
    assert ToUint32(n as real) == n;
    assert |Flat(body)| == 2 && |FlatStmt(st)| == 4;
    BlankPasses(env, fuel, st, n, Memory(s, 0), 0);
    assert EvalStmt(env, fuel, st, Memory(s, 0), 0) == Normal(Memory(s, 2 * n), []);
    var rest := Seq(Command(percent), next);
    assert EvalBlock(env, fuel, rest, Memory(s, 2 * n), 4) ==
           if n == 2 then EvalBlock(env, fuel, next, Memory(s, 4), 5) else Stopped(OK, Memory(s, 2 * n), [], 4, Kept) by {
      Unrolling.AfterNothing(EvalBlock(env, fuel, next, Memory(s, 4), 5));
    }
    Unrolling.AfterNothing(EvalBlock(env, fuel, rest, Memory(s, 2 * n), 4));
  }

  lemma {:induction false} BlankPasses(env: Env, fuel: nat, st: Stmt, n: nat, s: Memory, p: nat)
    requires st.RepeatS? && st.body == Seq(Command(""), Seq(Command(""), Nil)) && n > 0
    ensures EvalRepeat(env, fuel, st, n, s, p) == Normal(s.(blanks := s.blanks + 2 * n), [])
    decreases n
  {
    var two := s.(blanks := s.blanks + 2);
    assert EvalBlock(env, fuel, st.body, s, p + 1) == Normal(two, []) by {
      assert EvalBlock(env, fuel, Seq(Command(""), Nil), CountBlank(s), p + 2) == Normal(two, []);
    }
    if n > 1 {
      BlankPasses(env, fuel, st, n - 1, two, p);
    }
  }
}
