/** Structured G-code: the programs a user writes with IF/ELSEIF/ELSE, WHILE, DO, REPEAT and BREAK,
    their meaning as a big-step evaluator that knows nothing of stacks, labels in skipped text or
    jumps, and the text they are written as. Of text that is not executed the meaning knows that its
    plain lines are read, its blank lines counted and its '%' lines obeyed; `Unread` is the environment
    in which reading never fails. The position of a line tells a '%' at the start from one at the end. */
module Structured {
  import opened Flowcontrol
  import opened FlowJob

  datatype Block = Nil | Seq(first: Stmt, rest: Block)

  datatype Stmt =
    | Command(text: string)
    | Signal(oLabel: nat, op: Op, expr: string)
    | IfS(oLabel: nat, cond: string, body: Block, tail: Tail)
    | WhileS(oLabel: nat, cond: string, body: Block)
    | DoS(oLabel: nat, body: Block, cond: string)
    | RepeatS(oLabel: nat, count: string, body: Block)
    | BreakS(oLabel: nat)

  datatype Tail = NoElse | ElseS(body: Block) | ElseIfS(cond: string, body: Block, tail: Tail)

  // ---- Text -----------------------------------------------------------------------------------

  function Flat(b: Block): seq<Line> {
    match b
    case Nil => []
    case Seq(st, rest) => FlatStmt(st) + Flat(rest)
  }

  function FlatStmt(st: Stmt): seq<Line> {
    match st
    case Command(text) => [Plain(text)]
    case Signal(l, op, e) => [OWord(l, op, e)]
    case IfS(l, c, b, t) => [OWord(l, If, c)] + Flat(b) + FlatTail(l, t)
    case WhileS(l, c, b) => [OWord(l, While, c)] + Flat(b) + [OWord(l, EndWhile, "")]
    case DoS(l, b, c) => [OWord(l, Do, "")] + Flat(b) + [OWord(l, While, c)]
    case RepeatS(l, c, b) => [OWord(l, Repeat, c)] + Flat(b) + [OWord(l, EndRepeat, "")]
    case BreakS(l) => [OWord(l, Break, "")]
  }

  function FlatTail(l: nat, t: Tail): seq<Line>
    decreases t
  {
    match t
    case NoElse => [OWord(l, EndIf, "")]
    case ElseS(b) => [OWord(l, Else, "")] + Flat(b) + [OWord(l, EndIf, "")]
    case ElseIfS(c, b, t') => [OWord(l, ElseIf, c)] + Flat(b) + FlatTail(l, t')
  }

  // ---- Well-formed programs -------------------------------------------------------------------

  function Labels(b: Block): set<nat> {
    match b
    case Nil => {}
    case Seq(st, rest) => StmtLabels(st) + Labels(rest)
  }

  function StmtLabels(st: Stmt): set<nat> {
    match st
    case IfS(l, _, b, t) => {l} + Labels(b) + TailLabels(t)
    case WhileS(l, _, b) => {l} + Labels(b)
    case DoS(l, b, _) => {l} + Labels(b)
    case RepeatS(l, _, b) => {l} + Labels(b)
    case Command(_) => {}
    case Signal(_, _, _) => {}
    case BreakS(_) => {}
  }

  function TailLabels(t: Tail): set<nat> {
    match t
    case NoElse => {}
    case ElseS(b) => Labels(b)
    case ElseIfS(_, b, t') => Labels(b) + TailLabels(t')
  }

  // `loops` holds the labels of the enclosing loops, `inDo` says the innermost construct is a DO.
  predicate WellFormed(b: Block, loops: set<nat>, inDo: bool) {
    match b
    case Nil => true
    case Seq(st, rest) => WellFormedStmt(st, loops, inDo) && WellFormed(rest, loops, inDo)
  }

  predicate WellFormedStmt(st: Stmt, loops: set<nat>, inDo: bool) {
    match st
    case Command(_) => true
    case Signal(_, op, _) => op.RaiseAlarm? || op.RaiseError? || op.Return?
    case IfS(l, _, b, t) =>
      l !in loops && l !in Labels(b) + TailLabels(t) && WellFormed(b, loops, false) && WellFormedTail(t, loops)
    case WhileS(l, _, b) => l !in loops && !inDo && WellFormed(b, loops + {l}, false)
    case DoS(l, b, _) => l !in loops && WellFormed(b, loops + {l}, true)
    case RepeatS(l, _, b) => l !in loops && WellFormed(b, loops + {l}, false)
    case BreakS(l) => l in loops
  }

  predicate WellFormedTail(t: Tail, loops: set<nat>) {
    match t
    case NoElse => true
    case ElseS(b) => WellFormed(b, loops, false)
    case ElseIfS(_, b, t') => WellFormed(b, loops, false) && WellFormedTail(t', loops)
  }

  // ---- Meaning --------------------------------------------------------------------------------

  // What a job that stops leaves of the stack: nothing, what was there before the text, or more.
  datatype Left = Cleared | Kept | Open

  // How a program ends, with the memory and the events it leaves. Timeout: some WHILE or DO still
  // wanted another pass after `fuel` of them. Stopped: the job ends at `line`, with an error or, by M2,
  // an alarm or a '%', without.
  datatype Result =
    | Timeout
    | Normal(memory: Memory, events: seq<Event>)
    | Breaking(oLabel: nat, memory: Memory, events: seq<Event>)
    | Stopped(error: ErrorCode, memory: Memory, events: seq<Event>, line: nat, left: Left)

  function After(events: seq<Event>, r: Result): Result {
    match r
    case Timeout => Timeout
    case Normal(s, e) => Normal(s, events + e)
    case Breaking(l, s, e) => Breaking(l, s, events + e)
    case Stopped(err, s, e, k, left) => Stopped(err, s, events + e, k, left)
  }

  // The number of passes a REPEAT makes for a count that is not zero.
  function Passes(count: real): nat {
    if ToUint32(count) == 0 then 1 else ToUint32(count)
  }

  // A result on whose way the text at `p` is passed over.
  function PassOver(env: Env, text: seq<Line>, p: nat, r: Result): Result {
    match r
    case Normal(s, e) =>
      (match Skim(env, text, s, p)
       case Passed(s') => Normal(s', e)
       case Halting(err, s', k) => Stopped(err, s', e, k, Open))
    case Breaking(l, s, e) =>
      (match Skim(env, text, s, p)
       case Passed(s') => Breaking(l, s', e)
       case Halting(err, s', k) => Stopped(err, s', e, k, Open))
    case _ => r
  }

  // A result from inside a construct: where the job stops the construct is still on the stack.
  function Inside(r: Result): Result {
    if r.Stopped? && r.left.Kept? then r.(left := Open) else r
  }

  // A BREAK that names this loop ends it; any other result passes through.
  function LeaveLoop(l: nat, r: Result): Result {
    if r.Breaking? && r.oLabel == l then Normal(r.memory, r.events) else Inside(r)
  }

  // Lines that are passed over are not read.
  function Unread(env: Env): (r: Env)
    ensures AllReadable(r)
  {
    env.(first := (text, s) => OK)
  }

  ghost predicate AllReadable(env: Env) {
    forall text, s :: env.first(text, s) == OK
  }

  function EvalCommand(env: Env, text: string, s: Memory, p: nat): Result {
    if text == "" then Normal(CountBlank(s), [])
    else if env.percent(text) then (if EndsFile(s, p + 1) then Stopped(OK, s, [], p, Kept) else Normal(s, []))
    else match env.exec(text, s.store)
         case Done(store, e) => Normal(s.(store := store), e)
         case Rejected(err) => Stopped(err, s, [], p, Kept)
         case Ended(store, e) => Stopped(OK, s.(store := store), e, p, Kept)
  }

  function EvalSignal(env: Env, op: Op, expr: string, s: Memory, p: nat): Result {
    match env.eval(expr, s.store)
    case Number(v) =>
      if op.RaiseAlarm? then Stopped(OK, s, [Alarm(v)], p, Kept)
      else if op.RaiseError? && ToErrorCode(v) != OK then Stopped(ToErrorCode(v), s, [], p, Cleared)
      else Normal(s, [])
    case Bad(_) => Normal(s, [])
  }

  // The block whose text stands at `p`.
  function EvalBlock(env: Env, fuel: nat, b: Block, s: Memory, p: nat): Result
    decreases fuel, b, 0
  {
    match b
    case Nil => Normal(s, [])
    case Seq(st, rest) =>
      match EvalStmt(env, fuel, st, s, p)
      case Normal(s', e) => After(e, EvalBlock(env, fuel, rest, s', p + |FlatStmt(st)|))
      case r => PassOver(env, Flat(rest), p + |FlatStmt(st)|, r)
  }

  function EvalStmt(env: Env, fuel: nat, st: Stmt, s: Memory, p: nat): Result
    decreases fuel, st, 1
  {
    match st
    case Command(text) => EvalCommand(env, text, s, p)
    case Signal(_, op, expr) => EvalSignal(env, op, expr, s, p)
    case IfS(l, c, b, t) =>
      (match env.eval(c, s.store)
       case Bad(err) => Stopped(err, s, [], p, Cleared)
       case Number(v) =>
         if v != 0.0 then PassOver(env, FlatTail(l, t), p + 1 + |Flat(b)|, Inside(EvalBlock(env, fuel, b, s, p + 1)))
         else match Skim(env, Flat(b), s, p + 1)
              case Halting(err, s', k) => Stopped(err, s', [], k, Open)
              case Passed(s') => EvalTail(env, fuel, l, t, s', p + 1 + |Flat(b)|))
    case WhileS(l, c, b) =>
      (match env.eval(c, s.store)
       case Bad(err) => Stopped(err, s, [], p, Cleared)
       case Number(v) =>
         if v == 0.0 then PassOver(env, Flat(b), p + 1, Normal(s, []))
         else EvalWhile(env, fuel, st, s, p))
    case DoS(l, b, c) =>
      (match EvalBlock(env, fuel, b, s, p + 1)
       case Normal(s', e) =>
         (match env.eval(c, s'.store)
          case Bad(err) => Stopped(err, s', e, p + 1 + |Flat(b)|, Cleared)
          case Number(v) =>
            if v == 0.0 then Normal(s', e)
            else if fuel == 0 then Timeout
            else After(e, EvalStmt(env, fuel - 1, st, s', p)))
       case r => LeaveLoop(l, r))
    case RepeatS(l, c, b) =>
      (match env.eval(c, s.store)
       case Bad(err) => Stopped(err, s, [], p, Cleared)
       case Number(v) =>
         if v == 0.0 then PassOver(env, Flat(b), p + 1, Normal(s, [])) else EvalRepeat(env, fuel, st, Passes(v), s, p))
    case BreakS(l) => Breaking(l, s, [])
  }

  // The rest of an IF none of whose branches has been taken.
  function EvalTail(env: Env, fuel: nat, l: nat, t: Tail, s: Memory, p: nat): Result
    decreases fuel, t, 1
  {
    match t
    case NoElse => Normal(s, [])
    case ElseS(b) => Inside(EvalBlock(env, fuel, b, s, p + 1))
    case ElseIfS(c, b, t') =>
      match env.eval(c, s.store)
      case Bad(err) => Stopped(err, s, [], p, Cleared)
      case Number(v) =>
        if v != 0.0 then PassOver(env, FlatTail(l, t'), p + 1 + |Flat(b)|, Inside(EvalBlock(env, fuel, b, s, p + 1)))
        else match Skim(env, Flat(b), s, p + 1)
             case Halting(err, s', k) => Stopped(err, s', [], k, Open)
             case Passed(s') => EvalTail(env, fuel, l, t', s', p + 1 + |Flat(b)|)
  }

  // A WHILE whose condition holds: a pass of the body, and the condition again.
  function EvalWhile(env: Env, fuel: nat, st: Stmt, s: Memory, p: nat): Result
    requires st.WhileS?
    decreases fuel, st, 0
  {
    match EvalBlock(env, fuel, st.body, s, p + 1)
    case Normal(s', e) =>
      (match env.eval(st.cond, s'.store)
       case Bad(err) => Stopped(err, s', e, p + 1 + |Flat(st.body)|, Cleared)
       case Number(v) =>
         if v == 0.0 then Normal(s', e)
         else if fuel == 0 then Timeout
         else After(e, EvalWhile(env, fuel - 1, st, s', p)))
    case r => LeaveLoop(st.oLabel, r)
  }

  function EvalRepeat(env: Env, fuel: nat, st: Stmt, passes: nat, s: Memory, p: nat): Result
    requires st.RepeatS?
    decreases fuel, st, 0, passes
  {
    match EvalBlock(env, fuel, st.body, s, p + 1)
    case Normal(s', e) => if passes <= 1 then Normal(s', e) else After(e, EvalRepeat(env, fuel, st, passes - 1, s', p))
    case r => LeaveLoop(st.oLabel, r)
  }

  // A well-formed program breaks only to the loops around it.
  lemma {:induction false} BreaksToLoops(env: Env, fuel: nat, b: Block, s: Memory, p: nat, loops: set<nat>, inDo: bool)
    requires WellFormed(b, loops, inDo)
    ensures var r := EvalBlock(env, fuel, b, s, p); r.Breaking? ==> r.oLabel in loops
    decreases fuel, b, 0
  {
    if b.Seq? {
      StmtBreaksToLoops(env, fuel, b.first, s, p, loops, inDo);
      var r := EvalStmt(env, fuel, b.first, s, p);
      if r.Normal? {
        BreaksToLoops(env, fuel, b.rest, r.memory, p + |FlatStmt(b.first)|, loops, inDo);
      }
    }
  }

  lemma {:induction false} StmtBreaksToLoops(env: Env, fuel: nat, st: Stmt, s: Memory, p: nat, loops: set<nat>, inDo: bool)
    requires WellFormedStmt(st, loops, inDo)
    ensures var r := EvalStmt(env, fuel, st, s, p); r.Breaking? ==> r.oLabel in loops
    decreases fuel, st, 1
  {
    match st
    case IfS(l, c, b, t) =>
      BreaksToLoops(env, fuel, b, s, p + 1, loops, false);
      var skipped := Skim(env, Flat(b), s, p + 1);
      if skipped.Passed? {
        TailBreaksToLoops(env, fuel, l, t, skipped.memory, p + 1 + |Flat(b)|, loops);
      }
    case WhileS(_, _, _) => WhileBreaksToLoops(env, fuel, st, s, p, loops);
    case DoS(l, b, _) =>
      BreaksToLoops(env, fuel, b, s, p + 1, loops + {l}, true);
      var r := EvalBlock(env, fuel, b, s, p + 1);
      if r.Normal? && fuel > 0 {
        StmtBreaksToLoops(env, fuel - 1, st, r.memory, p, loops, inDo);
      }
    case RepeatS(_, c, _) =>
      var v := env.eval(c, s.store);
      if v.Number? {
        RepeatBreaksToLoops(env, fuel, st, Passes(v.value), s, p, loops);
      }
    case Command(_) =>
    case Signal(_, _, _) =>
    case BreakS(_) =>
  }

  lemma {:induction false} TailBreaksToLoops(env: Env, fuel: nat, l: nat, t: Tail, s: Memory, p: nat, loops: set<nat>)
    requires WellFormedTail(t, loops)
    ensures var r := EvalTail(env, fuel, l, t, s, p); r.Breaking? ==> r.oLabel in loops
    decreases fuel, t, 1
  {
    match t
    case NoElse =>
    case ElseS(b) => BreaksToLoops(env, fuel, b, s, p + 1, loops, false);
    case ElseIfS(_, b, t') =>
      BreaksToLoops(env, fuel, b, s, p + 1, loops, false);
      var skipped := Skim(env, Flat(b), s, p + 1);
      if skipped.Passed? {
        TailBreaksToLoops(env, fuel, l, t', skipped.memory, p + 1 + |Flat(b)|, loops);
      }
  }

  lemma {:induction false} WhileBreaksToLoops(env: Env, fuel: nat, st: Stmt, s: Memory, p: nat, loops: set<nat>)
    requires st.WhileS? && WellFormedStmt(st, loops, false)
    ensures var r := EvalWhile(env, fuel, st, s, p); r.Breaking? ==> r.oLabel in loops
    decreases fuel, st, 0
  {
    BreaksToLoops(env, fuel, st.body, s, p + 1, loops + {st.oLabel}, false);
    var r := EvalBlock(env, fuel, st.body, s, p + 1);
    if r.Normal? && fuel > 0 {
      WhileBreaksToLoops(env, fuel - 1, st, r.memory, p, loops);
    }
  }

  lemma {:induction false} RepeatBreaksToLoops(env: Env, fuel: nat, st: Stmt, passes: nat, s: Memory, p: nat, loops: set<nat>)
    requires st.RepeatS? && WellFormedStmt(st, loops, false)
    ensures var r := EvalRepeat(env, fuel, st, passes, s, p); r.Breaking? ==> r.oLabel in loops
    decreases fuel, st, 0, passes
  {
    BreaksToLoops(env, fuel, st.body, s, p + 1, loops + {st.oLabel}, false);
    var r := EvalBlock(env, fuel, st.body, s, p + 1);
    if r.Normal? && passes > 1 {
      RepeatBreaksToLoops(env, fuel, st, passes - 1, r.memory, p, loops);
    }
  }

  // ---- What skipped program text looks like -----------------------------------------------------

  lemma {:induction false} LabelsAvoidLoops(b: Block, loops: set<nat>, inDo: bool)
    requires WellFormed(b, loops, inDo)
    ensures Labels(b) !! loops
  {
    if b.Seq? {
      StmtLabelsAvoidLoops(b.first, loops, inDo);
      LabelsAvoidLoops(b.rest, loops, inDo);
    }
  }

  lemma {:induction false} StmtLabelsAvoidLoops(st: Stmt, loops: set<nat>, inDo: bool)
    requires WellFormedStmt(st, loops, inDo)
    ensures StmtLabels(st) !! loops
    ensures (st.WhileS? || st.DoS? || st.RepeatS?) ==> st.oLabel !in Labels(st.body)
  {
    match st
    case IfS(l, _, b, t) => LabelsAvoidLoops(b, loops, false); TailLabelsAvoidLoops(t, loops);
    case WhileS(l, _, b) => LabelsAvoidLoops(b, loops + {l}, false);
    case DoS(l, b, _) => LabelsAvoidLoops(b, loops + {l}, true);
    case RepeatS(l, _, b) => LabelsAvoidLoops(b, loops + {l}, false);
    case Command(_) =>
    case Signal(_, _, _) =>
    case BreakS(_) =>
  }

  lemma {:induction false} TailLabelsAvoidLoops(t: Tail, loops: set<nat>)
    requires WellFormedTail(t, loops)
    ensures TailLabels(t) !! loops
  {
    match t
    case NoElse =>
    case ElseS(b) => LabelsAvoidLoops(b, loops, false);
    case ElseIfS(_, b, t') => LabelsAvoidLoops(b, loops, false); TailLabelsAvoidLoops(t', loops);
  }

  /** The text of any well-formed program is inert for an entry whose label it does not use. */
  lemma {:induction false} FlatInert(b: Block, loops: set<nat>, inDo: bool, l: nat)
    requires WellFormed(b, loops, inDo) && l !in Labels(b)
    ensures InertText(Flat(b), l)
  {
    if b.Seq? {
      FlatStmtInert(b.first, loops, inDo, l);
      FlatInert(b.rest, loops, inDo, l);
    }
  }

  lemma {:induction false} FlatStmtInert(st: Stmt, loops: set<nat>, inDo: bool, l: nat)
    requires WellFormedStmt(st, loops, inDo) && l !in StmtLabels(st)
    ensures InertText(FlatStmt(st), l)
  {
    match st
    case IfS(_, _, b, t) => FlatInert(b, loops, false, l); FlatTailInert(st.oLabel, t, loops, l);
    case WhileS(k, _, b) => FlatInert(b, loops + {k}, false, l);
    case DoS(k, b, _) => FlatInert(b, loops + {k}, true, l);
    case RepeatS(k, _, b) => FlatInert(b, loops + {k}, false, l);
    case Command(_) =>
    case Signal(_, _, _) =>
    case BreakS(_) =>
  }

  lemma {:induction false} FlatTailInert(k: nat, t: Tail, loops: set<nat>, l: nat)
    requires WellFormedTail(t, loops) && l !in TailLabels(t) && l != k
    ensures InertText(FlatTail(k, t), l)
    decreases t
  {
    match t
    case NoElse =>
    case ElseS(b) => FlatInert(b, loops, false, l);
    case ElseIfS(_, b, t') => FlatInert(b, loops, false, l); FlatTailInert(k, t', loops, l);
  }
}
