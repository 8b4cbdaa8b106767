/** What the simulation gives for whole jobs. */
module FlowTheorems {
  import opened Flowcontrol
  import opened FlowJob
  import opened Structured
  import opened FlowCorrectness

  // The machine has ended the job the way the evaluator says.
  predicate Agrees(code: seq<Line>, m: Machine, r: Result) {
    match r
    case Normal(s, e) =>
      Running(m) && m.flow.position == |code| && m.flow.context == [] && !m.skipBlocks && m.memory == s && m.trace == e
    case Stopped(err, s, e, k, left) => StoppedAt(m, err, k) && m.memory == s && m.trace == e && Leaves(m, [], left)
    case _ => false
  }

  // What a program means that is a job of its own.
  function Meaning(env: Env, fuel: nat, prog: Block, s: Store): Result {
    EvalBlock(env, fuel, prog, Memory(s, 0), 0)
  }

  /** The job of a well-formed program ends where the program does, with the memory, the trace and the
      error the program means: at the end of its text with an empty stack, or at the line where an
      error, M2, an alarm or a '%' stops it, with what the program says is left of the stack; and as long
      as the evaluator wants more passes than `fuel` allows, the job is still running after `fuel` lines. */
  lemma JobFollowsProgram(env: Env, prog: Block, source: JobId, s: Store, fuel: nat) returns (n: nat)
    requires WellFormed(prog, {}, false) && source != NO_JOB
    ensures var m := Steps(env, Flat(prog), Start(source, s), n);
            var r := Meaning(env, fuel, prog, s);
            if r.Timeout? then n >= fuel && !Halted(Flat(prog), m)
            else Halted(Flat(prog), m) && Agrees(Flat(prog), m, r)
  {
    hide Step, Steps, PopTo, Flat, EvalBlock;
    var code, m := Flat(prog), Start(source, s);
    assert code[0..|code|] == code;
    n := SimBlock(env, code, prog, {}, false, fuel, m);
    BreaksToLoops(env, fuel, prog, Memory(s, 0), 0, {}, false);
    var r := Meaning(env, fuel, prog, s);
    if r.Normal? || r.Stopped? {
      assert [] + r.events == r.events;
    }
  }

  /** Conversely, a job that has halted is explained by the evaluator. */
  lemma HaltedJobIsProgram(env: Env, prog: Block, source: JobId, s: Store, n: nat)
    requires WellFormed(prog, {}, false) && source != NO_JOB
    requires Halted(Flat(prog), Steps(env, Flat(prog), Start(source, s), n))
    ensures Agrees(Flat(prog), Steps(env, Flat(prog), Start(source, s), n), Meaning(env, n + 1, prog, s))
  {
    hide Step, Steps, Flat, Meaning;
    var k := JobFollowsProgram(env, prog, source, s, n + 1);
    var code, m := Flat(prog), Start(source, s);
    if n <= k {
      HaltedStays(env, code, m, n, k);
    } else {
      HaltedStays(env, code, m, k, n);
    }
  }

  ghost predicate JobHalts(env: Env, prog: Block, source: JobId, s: Store) {
    exists n: nat :: Halted(Flat(prog), Steps(env, Flat(prog), Start(source, s), n))
  }

  ghost predicate ProgramEnds(env: Env, prog: Block, s: Store) {
    exists fuel: nat :: !Meaning(env, fuel, prog, s).Timeout?
  }

  lemma JobHaltsIffProgramEnds(env: Env, prog: Block, source: JobId, s: Store)
    requires WellFormed(prog, {}, false) && source != NO_JOB
    ensures JobHalts(env, prog, source, s) <==> ProgramEnds(env, prog, s)
  {
    hide Step, Steps, Flat, Meaning;
    if n: nat :| Halted(Flat(prog), Steps(env, Flat(prog), Start(source, s), n)) {
      HaltedJobIsProgram(env, prog, source, s, n);
      assert !Meaning(env, n + 1, prog, s).Timeout?;
    }
    if fuel: nat :| !Meaning(env, fuel, prog, s).Timeout? {
      var n := JobFollowsProgram(env, prog, source, s, fuel);
    }
  }

  // ---- Jobs of IF, REPEAT and BREAK -------------------------------------------------------------

  // No WHILE and no DO anywhere in the program.
  predicate Counted(b: Block) {
    b.Seq? ==> CountedStmt(b.first) && Counted(b.rest)
  }

  predicate CountedStmt(st: Stmt) {
    match st
    case WhileS(_, _, _) => false
    case DoS(_, _, _) => false
    case RepeatS(_, _, b) => Counted(b)
    case IfS(_, _, b, t) => Counted(b) && CountedTail(t)
    case Command(_) => true
    case Signal(_, _, _) => true
    case BreakS(_) => true
  }

  predicate CountedTail(t: Tail) {
    match t
    case NoElse => true
    case ElseS(b) => Counted(b)
    case ElseIfS(_, b, t') => Counted(b) && CountedTail(t')
  }

  lemma {:induction false} CountedEnds(env: Env, b: Block, s: Memory, p: nat)
    requires Counted(b)
    ensures !EvalBlock(env, 0, b, s, p).Timeout?
    decreases b, 0
  {
    if b.Seq? {
      CountedStmtEnds(env, b.first, s, p);
      var r := EvalStmt(env, 0, b.first, s, p);
      if r.Normal? {
        CountedEnds(env, b.rest, r.memory, p + |FlatStmt(b.first)|);
      }
    }
  }

  lemma {:induction false} CountedStmtEnds(env: Env, st: Stmt, s: Memory, p: nat)
    requires CountedStmt(st)
    ensures !EvalStmt(env, 0, st, s, p).Timeout?
    decreases st, 1
  {
    match st
    case IfS(l, _, b, t) =>
      CountedEnds(env, b, s, p + 1);
      var skipped := Skim(env, Flat(b), s, p + 1);
      if skipped.Passed? {
        CountedTailEnds(env, l, t, skipped.memory, p + 1 + |Flat(b)|);
      }
    case RepeatS(_, c, _) =>
      var v := env.eval(c, s.store);
      if v.Number? {
        CountedRepeatEnds(env, st, Passes(v.value), s, p);
      }
    case Command(_) =>
    case Signal(_, _, _) =>
    case BreakS(_) =>
  }

  lemma {:induction false} CountedTailEnds(env: Env, l: nat, t: Tail, s: Memory, p: nat)
    requires CountedTail(t)
    ensures !EvalTail(env, 0, l, t, s, p).Timeout?
    decreases t, 1
  {
    match t
    case NoElse =>
    case ElseS(b) => CountedEnds(env, b, s, p + 1);
    case ElseIfS(_, b, t') =>
      CountedEnds(env, b, s, p + 1);
      var skipped := Skim(env, Flat(b), s, p + 1);
      if skipped.Passed? {
        CountedTailEnds(env, l, t', skipped.memory, p + 1 + |Flat(b)|);
      }
  }

  lemma {:induction false} CountedRepeatEnds(env: Env, st: Stmt, passes: nat, s: Memory, p: nat)
    requires st.RepeatS? && CountedStmt(st)
    ensures !EvalRepeat(env, 0, st, passes, s, p).Timeout?
    decreases st, 0, passes
  {
    CountedEnds(env, st.body, s, p + 1);
    var r := EvalBlock(env, 0, st.body, s, p + 1);
    if r.Normal? && passes > 1 {
      CountedRepeatEnds(env, st, passes - 1, r.memory, p);
    }
  }

  /** A job built from IF, REPEAT and BREAK reaches its end, or an error, in finitely many lines. */
  lemma CountedJobHalts(env: Env, prog: Block, source: JobId, s: Store)
    requires WellFormed(prog, {}, false) && Counted(prog) && source != NO_JOB
    ensures JobHalts(env, prog, source, s)
  {
    CountedEnds(env, prog, Memory(s, 0), 0);
    assert !Meaning(env, 0, prog, s).Timeout?;
    JobHaltsIffProgramEnds(env, prog, source, s);
  }

  // ---- A WHILE directly inside a DO -------------------------------------------------------------

  /** Why well-formed programs have no WHILE whose innermost enclosing construct is a DO: with a live
      DO on top of the stack such a WHILE is evaluated but opens nothing, whatever its value. */
  lemma WhileInsideDoOpensNothing(env: Env, code: seq<Line>, m: Machine, l: nat, c: string)
    requires Running(m) && m.flow.source != NO_JOB && m.flow.position < |code| && !m.skipBlocks
    requires LastOp(m.flow.context).Do? && Live(m.flow.context) && l != Top(m.flow.context).oLabel
    requires env.eval(c, m.memory.store).Number? && code[m.flow.position] == OWord(l, While, c)
    ensures Steps(env, code, m, 1) == m.(flow := m.flow.(position := m.flow.position + 1))
  {
    OneStep(env, code, m);
    EmptyEvents(m);
  }

  /** So the job `DO, WHILE c, ENDWHILE, WHILE d` always ends at its third line with a syntax error,
      whatever the conditions are, as long as the first one is a number. */
  lemma WhileInsideDoFails(env: Env, source: JobId, s: Store, k: nat, l: nat, c: string, d: string)
    requires source != NO_JOB && k != l && env.eval(c, s).Number?
    ensures var code := [OWord(k, Do, ""), OWord(l, While, c), OWord(l, EndWhile, ""), OWord(k, While, d)];
            var m := Steps(env, code, Start(source, s), 3);
            m.status == FLOW_CONTROL_SYNTAX_ERROR && m.flow.position == 3 && m.memory.store == s && m.trace == []
  {
    var code := [OWord(k, Do, ""), OWord(l, While, c), OWord(l, EndWhile, ""), OWord(k, While, d)];
    var m0 := Start(source, s);
    StepDo(env, code, m0, k);
    var m1 := Steps(env, code, m0, 1);
    WhileInsideDoOpensNothing(env, code, m1, l, c);
    var m2 := Steps(env, code, m1, 1);
    OneStep(env, code, m2);
    StepsAdd(env, code, m0, 1, 1);
    StepsAdd(env, code, m0, 2, 1);
    assert m2.trace + [] == [];
  }
}
