/** O-word flow control: the context stack of FluidNC/src/Flowcontrol.cpp.

    `Control` is what one call of `flowcontrol()` does to the interpreter's state;
    the class `Interpreter` is the code, updating its fields in place, and its
    method `Flowcontrol` is proved to do exactly what `Control` says. */
module Flowcontrol {

  type ErrorCode = nat

  const OK: ErrorCode := 0
  const FLOW_CONTROL_SYNTAX_ERROR: ErrorCode := 176
  const FLOW_CONTROL_NOT_EXECUTING_MACRO: ErrorCode := 177
  // Not an error of the firmware (those are below 256): the C++ calls top() on an empty std::stack.
  const UNDEFINED_BEHAVIOR: ErrorCode := 256

  type Failure = e: ErrorCode | e != OK witness 1

  // NoOp stands for a keyword that is not in the command table.
  datatype Op =
    | NoOp | If | ElseIf | Else | EndIf | Do | Continue | Break | While | EndWhile
    | Repeat | EndRepeat | Return | RaiseAlarm | RaiseError

  type Store = map<string, real>

  datatype Value = Number(value: real) | Bad(error: Failure)

  datatype Event = Gcode(text: string) | Alarm(code: real)

  // A line that is accepted may also end the job it is in, as M2 and M30 do.
  datatype Executed = Done(store: Store, events: seq<Event>) | Rejected(error: Failure) | Ended(store: Store, events: seq<Event>)

  // The parts of the firmware flow control is built on: expression(), the rest of the parser, what the
  // parser reads of a line before it tests whether lines are skipped, and which lines are a lone '%'.
  datatype Env = Env(
    eval: (string, Store) -> Value,
    exec: (string, Store) -> Executed,
    first: (string, Store) -> ErrorCode,
    percent: string -> bool)

  // Identity of a JobSource; NO_JOB is the null pointer.
  type JobId = nat
  const NO_JOB: JobId := 0

  datatype Entry = Entry(oLabel: nat, operation: Op, file: JobId, filePos: nat, expr: string,
                         repeats: nat, skip: bool, handled: bool, brk: bool)

  // `position` is the read position of the current source, `elsewhere` that of the suspended ones.
  datatype Flow = Flow(context: seq<Entry>, source: JobId, position: nat, elsewhere: map<JobId, nat>)

  datatype Reaction = Reaction(flow: Flow, status: ErrorCode, alarms: seq<Event>)

  datatype Outcome = Outcome(flow: Flow, status: ErrorCode, skip: bool, alarms: seq<Event>)

  function Top(context: seq<Entry>): Entry
    requires context != []
  {
    context[|context| - 1]
  }

  function Pop(context: seq<Entry>): seq<Entry>
    requires context != []
  {
    context[..|context| - 1]
  }

  function SetTop(context: seq<Entry>, e: Entry): seq<Entry>
    requires context != []
  {
    Pop(context) + [e]
  }

  predicate Skipping(context: seq<Entry>) {
    context != [] && Top(context).skip
  }

  function LastOp(context: seq<Entry>): Op {
    if context == [] then NoOp else Top(context).operation
  }

  predicate IsLoop(op: Op) {
    op == Do || op == While || op == Repeat
  }

  function NewEntry(oLabel: nat, op: Op, file: JobId, skip: bool): Entry {
    Entry(oLabel, op, file, 0, "", 0, skip, false, false)
  }

  // The conversion (uint32_t)value for a value in range; outside it C++ gives no result.
  function ToUint32(v: real): nat {
    if v < 0.0 then 0 else v.Floor % 0x1_0000_0000
  }

  // The conversion (Error)value, for Error an enum over uint8_t.
  function ToErrorCode(v: real): ErrorCode {
    if v < 0.0 then 0 else v.Floor % 0x100
  }

  function SetPosition(st: Flow, file: JobId, pos: nat): Flow {
    if file == st.source then st.(position := pos) else st.(elsewhere := st.elsewhere[file := pos])
  }

  // Unwinding to the innermost entry with this label, as BREAK and CONTINUE do.
  function PopTo(context: seq<Entry>, oLabel: nat): (r: seq<Entry>)
    ensures r <= context
    ensures r != [] ==> Top(r).oLabel == oLabel
  {
    if context == [] || Top(context).oLabel == oLabel then context else PopTo(Pop(context), oLabel)
  }

  function Broken(e: Entry): Entry {
    e.(repeats := 0, brk := true, skip := true, handled := true)
  }

  // One more pass of a REPEAT, or leaving it.
  function NextRepeat(st: Flow): Flow
    requires st.context != []
  {
    var top := Top(st.context);
    if top.repeats > 1 then
      SetPosition(st.(context := SetTop(st.context, top.(repeats := top.repeats - 1))), top.file, top.filePos)
    else st.(context := Pop(st.context))
  }

  function ReactIf(env: Env, store: Store, st: Flow, oLabel: nat, expr: string): Reaction {
    if Skipping(st.context) then Reaction(st, OK, [])
    else match env.eval(expr, store)
         case Bad(e) => Reaction(st, e, [])
         case Number(v) =>
           Reaction(st.(context := st.context + [NewEntry(oLabel, If, st.source, v == 0.0).(handled := v != 0.0)]), OK, [])
  }

  function ReactElseIf(env: Env, store: Store, st: Flow, oLabel: nat, expr: string): Reaction {
    if LastOp(st.context) == If || LastOp(st.context) == ElseIf then
      var top := Top(st.context);
      if oLabel != top.oLabel then Reaction(st, OK, [])
      else if top.handled then Reaction(st.(context := SetTop(st.context, top.(skip := true))), OK, [])
      else match env.eval(expr, store)
           case Bad(e) => Reaction(st.(context := SetTop(st.context, top.(skip := false))), e, [])
           case Number(v) =>
             var e := if v == 0.0 then top.(skip := true)
                      else top.(skip := false, operation := ElseIf, handled := true);
             Reaction(st.(context := SetTop(st.context, e)), OK, [])
    else Reaction(st, if Skipping(st.context) then OK else FLOW_CONTROL_SYNTAX_ERROR, [])
  }

  function ReactElse(st: Flow, oLabel: nat): Reaction {
    if LastOp(st.context) == If || LastOp(st.context) == ElseIf then
      var top := Top(st.context);
      if oLabel != top.oLabel then Reaction(st, OK, [])
      else if top.handled then Reaction(st.(context := SetTop(st.context, top.(skip := true))), OK, [])
      else Reaction(st.(context := SetTop(st.context, top.(skip := false, operation := Else))), OK, [])
    else Reaction(st, if Skipping(st.context) then OK else FLOW_CONTROL_SYNTAX_ERROR, [])
  }

  function ReactEndIf(st: Flow, oLabel: nat): Reaction {
    if LastOp(st.context) == If || LastOp(st.context) == ElseIf || LastOp(st.context) == Else then
      Reaction(if oLabel == Top(st.context).oLabel then st.(context := Pop(st.context)) else st, OK, [])
    else Reaction(st, if Skipping(st.context) then OK else FLOW_CONTROL_SYNTAX_ERROR, [])
  }

  function ReactDo(st: Flow, oLabel: nat): Reaction {
    if Skipping(st.context) then Reaction(st, OK, [])
    else Reaction(st.(context := st.context + [NewEntry(oLabel, Do, st.source, false).(filePos := st.position)]), OK, [])
  }

  function ReactWhile(env: Env, store: Store, st: Flow, oLabel: nat, expr: string): Reaction {
    if st.context != [] && Top(st.context).brk then
      Reaction(if LastOp(st.context) == Do && oLabel == Top(st.context).oLabel then st.(context := Pop(st.context)) else st, OK, [])
    else if Skipping(st.context) then Reaction(st, OK, [])
    else match env.eval(expr, store)
         case Bad(e) => Reaction(st, e, [])
         case Number(v) =>
           if LastOp(st.context) == Do then
             var top := Top(st.context);
             if oLabel != top.oLabel then Reaction(st, OK, [])
             else if v != 0.0 then Reaction(SetPosition(st, top.file, top.filePos), OK, [])
             else Reaction(st.(context := Pop(st.context)), OK, [])
           else
             var e := NewEntry(oLabel, While, st.source, v == 0.0).(expr := expr, filePos := if v != 0.0 then st.position else 0);
             Reaction(st.(context := st.context + [e]), OK, [])
  }

  // Testing the stored condition of the WHILE on top of the stack once more.
  function RetestWhile(env: Env, store: Store, st: Flow): Reaction
    requires st.context != []
  {
    var top := Top(st.context);
    match env.eval(top.expr, store)
    case Bad(e) => Reaction(st, e, [])
    case Number(v) =>
      Reaction(if v != 0.0 then SetPosition(st, top.file, top.filePos) else st.(context := Pop(st.context)), OK, [])
  }

  function ReactEndWhile(env: Env, store: Store, st: Flow, oLabel: nat): Reaction {
    if LastOp(st.context) == While then
      if oLabel != Top(st.context).oLabel then Reaction(st, OK, [])
      else if Skipping(st.context) then Reaction(st.(context := Pop(st.context)), OK, [])
      else RetestWhile(env, store, st)
    else Reaction(st, if Skipping(st.context) then OK else FLOW_CONTROL_SYNTAX_ERROR, [])
  }

  function ReactRepeat(env: Env, store: Store, st: Flow, oLabel: nat, expr: string): Reaction {
    if Skipping(st.context) then Reaction(st, OK, [])
    else match env.eval(expr, store)
         case Bad(e) => Reaction(st, e, [])
         case Number(v) =>
           var e := NewEntry(oLabel, Repeat, st.source, v == 0.0);
           var e' := if v != 0.0 then e.(filePos := st.position, repeats := ToUint32(v)) else e;
           Reaction(st.(context := st.context + [e']), OK, [])
  }

  function ReactEndRepeat(st: Flow, oLabel: nat): Reaction {
    if LastOp(st.context) == Repeat then
      Reaction(if oLabel == Top(st.context).oLabel then NextRepeat(st) else st, OK, [])
    else Reaction(st, if Skipping(st.context) then OK else FLOW_CONTROL_SYNTAX_ERROR, [])
  }

  function ReactBreak(st: Flow, oLabel: nat): Reaction {
    if Skipping(st.context) then Reaction(st, OK, [])
    else
      var rest := PopTo(st.context, oLabel);
      if rest == [] then Reaction(st.(context := []), UNDEFINED_BEHAVIOR, [])
      else if IsLoop(Top(rest).operation) then Reaction(st.(context := SetTop(rest, Broken(Top(rest)))), OK, [])
      else Reaction(st.(context := rest), FLOW_CONTROL_SYNTAX_ERROR, [])
  }

  function ReactContinue(env: Env, store: Store, st: Flow, oLabel: nat): Reaction {
    if Skipping(st.context) then Reaction(st, OK, [])
    else
      var rest := PopTo(st.context, oLabel);
      var st' := st.(context := rest);
      if rest == [] then Reaction(st', UNDEFINED_BEHAVIOR, [])
      else match Top(rest).operation
           case Repeat => Reaction(NextRepeat(st'), OK, [])
           case Do => Reaction(SetPosition(st', Top(rest).file, Top(rest).filePos), OK, [])
           case While => if Top(rest).skip then Reaction(st'.(context := Pop(rest)), OK, []) else RetestWhile(env, store, st')
           case _ => Reaction(st', FLOW_CONTROL_SYNTAX_ERROR, [])
  }

  function React(env: Env, store: Store, st: Flow, oLabel: nat, op: Op, expr: string): Reaction {
    if op.Do? || op.Continue? || op.Break? || op.While? || op.EndWhile? || op.Repeat? || op.EndRepeat? || op.Return? then
      if st.source == NO_JOB then Reaction(st, FLOW_CONTROL_NOT_EXECUTING_MACRO, [])
      else match op
           case Do => ReactDo(st, oLabel)
           case Continue => ReactContinue(env, store, st, oLabel)
           case Break => ReactBreak(st, oLabel)
           case While => ReactWhile(env, store, st, oLabel, expr)
           case EndWhile => ReactEndWhile(env, store, st, oLabel)
           case Repeat => ReactRepeat(env, store, st, oLabel, expr)
           case EndRepeat => ReactEndRepeat(st, oLabel)
           case _ => Reaction(st, OK, [])
    else match op
         case If => ReactIf(env, store, st, oLabel, expr)
         case ElseIf => ReactElseIf(env, store, st, oLabel, expr)
         case Else => ReactElse(st, oLabel)
         case EndIf => ReactEndIf(st, oLabel)
         case RaiseAlarm =>
           if Skipping(st.context) then Reaction(st, OK, [])
           else (match env.eval(expr, store)
                 case Number(v) => Reaction(st, OK, [Alarm(v)])
                 case Bad(_) => Reaction(st, OK, []))
         case RaiseError =>
           if Skipping(st.context) then Reaction(st, OK, [])
           else (match env.eval(expr, store)
                 case Number(v) => Reaction(st, ToErrorCode(v), [])
                 case Bad(_) => Reaction(st, OK, []))
         case _ => Reaction(st, FLOW_CONTROL_SYNTAX_ERROR, [])
  }

  // One call of flowcontrol(); `skip` is the caller's skip_blocks flag before the call.
  function Control(env: Env, store: Store, st: Flow, skip: bool, oLabel: nat, op: Op, expr: string): Outcome {
    if op.NoOp? then Outcome(st, FLOW_CONTROL_SYNTAX_ERROR, skip, [])
    else
      var r := React(env, store, st, oLabel, op, expr);
      if r.status != OK then Outcome(r.flow.(context := []), r.status, false, r.alarms)
      else Outcome(r.flow, OK, Skipping(r.flow.context), r.alarms)
  }

  // ---------------------------------------------------------------------------------------------

  /** Only the entry on top of the stack may be skipping. Every nested construct relies on this:
      the code looks at the top entry alone to decide whether a line is live. */
  predicate OnlyTopSkips(context: seq<Entry>) {
    forall i :: 0 <= i < |context| - 1 ==> !context[i].skip
  }

  lemma PopToKeepsOnlyTopSkips(context: seq<Entry>, oLabel: nat)
    requires OnlyTopSkips(context) && !Skipping(context)
    ensures OnlyTopSkips(PopTo(context, oLabel)) && !Skipping(PopTo(context, oLabel))
  {
  }

  lemma RetestKeepsOnlyTopSkips(env: Env, store: Store, st: Flow)
    requires st.context != [] && OnlyTopSkips(st.context)
    ensures OnlyTopSkips(RetestWhile(env, store, st).flow.context)
    ensures OnlyTopSkips(NextRepeat(st).context)
  {
  }

  lemma ContinueKeepsOnlyTopSkips(env: Env, store: Store, st: Flow, oLabel: nat)
    requires OnlyTopSkips(st.context)
    ensures OnlyTopSkips(ReactContinue(env, store, st, oLabel).flow.context)
  {
    if !Skipping(st.context) {
      PopToKeepsOnlyTopSkips(st.context, oLabel);
      var rest := PopTo(st.context, oLabel);
      if rest != [] {
        RetestKeepsOnlyTopSkips(env, store, st.(context := rest));
      }
    }
  }

  lemma LoopKeepsOnlyTopSkips(env: Env, store: Store, st: Flow, oLabel: nat, expr: string)
    requires OnlyTopSkips(st.context)
    ensures OnlyTopSkips(ReactWhile(env, store, st, oLabel, expr).flow.context)
    ensures OnlyTopSkips(ReactEndWhile(env, store, st, oLabel).flow.context)
    ensures OnlyTopSkips(ReactRepeat(env, store, st, oLabel, expr).flow.context)
    ensures OnlyTopSkips(ReactEndRepeat(st, oLabel).flow.context)
  {
    if st.context != [] {
      RetestKeepsOnlyTopSkips(env, store, st);
    }
  }

  lemma BreakKeepsOnlyTopSkips(st: Flow, oLabel: nat)
    requires OnlyTopSkips(st.context)
    ensures OnlyTopSkips(ReactBreak(st, oLabel).flow.context)
  {
    if !Skipping(st.context) {
      PopToKeepsOnlyTopSkips(st.context, oLabel);
    }
  }

  lemma ConditionalKeepsOnlyTopSkips(env: Env, store: Store, st: Flow, oLabel: nat, expr: string)
    requires OnlyTopSkips(st.context)
    ensures OnlyTopSkips(ReactIf(env, store, st, oLabel, expr).flow.context)
    ensures OnlyTopSkips(ReactElseIf(env, store, st, oLabel, expr).flow.context)
    ensures OnlyTopSkips(ReactElse(st, oLabel).flow.context)
    ensures OnlyTopSkips(ReactEndIf(st, oLabel).flow.context)
  {
  }

  lemma ControlKeepsOnlyTopSkips(env: Env, store: Store, st: Flow, skip: bool, oLabel: nat, op: Op, expr: string)
    requires OnlyTopSkips(st.context)
    ensures OnlyTopSkips(Control(env, store, st, skip, oLabel, op, expr).flow.context)
  {
    ContinueKeepsOnlyTopSkips(env, store, st, oLabel);
    LoopKeepsOnlyTopSkips(env, store, st, oLabel, expr);
    BreakKeepsOnlyTopSkips(st, oLabel);
    ConditionalKeepsOnlyTopSkips(env, store, st, oLabel, expr);
    assert OnlyTopSkips(ReactDo(st, oLabel).flow.context);
    hide OnlyTopSkips, ReactIf, ReactElseIf, ReactElse, ReactEndIf, ReactDo, ReactWhile, ReactEndWhile;
    hide ReactRepeat, ReactEndRepeat, ReactBreak, ReactContinue;
    assert OnlyTopSkips(React(env, store, st, oLabel, op, expr).flow.context);
  }

  // The text of a line that a skipping entry labelled `label` passes over.
  predicate Inert(op: Op, lineLabel: nat, oLabel: nat) {
    && !op.NoOp?
    && (lineLabel == oLabel ==> op.If? || op.Do? || op.Repeat? || op.Break? || op.Continue? || op.Return? || op.RaiseAlarm? || op.RaiseError?)
  }

  /** While the top entry skips, a line that does not close or continue that entry changes nothing:
      the stack, the read position and the flag stay, nothing is raised, and the result is the same
      for every evaluator, so no expression is evaluated. */
  lemma SkippedLineIsInert(env: Env, store: Store, st: Flow, oLabel: nat, op: Op, expr: string)
    requires Skipping(st.context) && st.source != NO_JOB
    requires Inert(op, oLabel, Top(st.context).oLabel)
    ensures Control(env, store, st, true, oLabel, op, expr) == Outcome(st, OK, true, [])
  {
  }

  /** The stack is popped past nothing but entries with other labels, so a BREAK whose label is on
      the stack never reaches undefined behaviour, and one whose label is not always does. */
  lemma {:induction false} PopToFinds(context: seq<Entry>, oLabel: nat)
    ensures PopTo(context, oLabel) == [] <==> forall i :: 0 <= i < |context| ==> context[i].oLabel != oLabel
    ensures forall i :: |PopTo(context, oLabel)| <= i < |context| ==> context[i].oLabel != oLabel
  {
    if context != [] && Top(context).oLabel != oLabel {
      PopToFinds(Pop(context), oLabel);
      if PopTo(context, oLabel) != [] {
        var r := PopTo(context, oLabel);
        assert context[|r| - 1] == Top(r);
      }
    }
  }

  /** CONTINUE does what the line that closes its loop does once the stack is unwound to it: ENDREPEAT for a
      REPEAT, ENDWHILE for a WHILE. */
  lemma ContinueCloses(env: Env, store: Store, st: Flow, skip: bool, oLabel: nat, expr: string)
    requires st.source != NO_JOB && !Skipping(st.context) && OnlyTopSkips(st.context) && PopTo(st.context, oLabel) != []
    ensures var rest := st.(context := PopTo(st.context, oLabel));
            var op := Top(rest.context).operation;
            && (op.Repeat? ==> Control(env, store, st, skip, oLabel, Continue, expr) == Control(env, store, rest, skip, oLabel, EndRepeat, ""))
            && (op.While? ==> Control(env, store, st, skip, oLabel, Continue, expr) == Control(env, store, rest, skip, oLabel, EndWhile, ""))
  {
    PopToKeepsOnlyTopSkips(st.context, oLabel);
  }

  /** In a DO it goes back to the first line of the body, without looking at the condition; and without a
      loop of that label it is an error. */
  lemma ContinueElse(env: Env, store: Store, st: Flow, skip: bool, oLabel: nat, expr: string)
    requires st.source != NO_JOB && !Skipping(st.context) && OnlyTopSkips(st.context)
    ensures var rest := PopTo(st.context, oLabel);
            var r := Control(env, store, st, skip, oLabel, Continue, expr);
            && (LastOp(rest).Do? ==> r == Outcome(SetPosition(st.(context := rest), Top(rest).file, Top(rest).filePos), OK, false, []))
            && (rest != [] && !IsLoop(LastOp(rest)) ==> r.status == FLOW_CONTROL_SYNTAX_ERROR && r.flow.context == [])
  {
    PopToKeepsOnlyTopSkips(st.context, oLabel);
  }

  // ERROR with the number of an error reports that error.
  lemma ErrorReports(env: Env, store: Store, st: Flow, skip: bool, oLabel: nat, expr: string, n: nat)
    requires !Skipping(st.context) && env.eval(expr, store) == Number(n as real) && n < 256
    ensures var r := Control(env, store, st, skip, oLabel, RaiseError, expr);
            r.status == n && r.alarms == [] && r.flow == if n == 0 then st else st.(context := [])
  {
    assert (n as real).Floor == n;
  }

  // ---------------------------------------------------------------------------------------------

  class Interpreter {
    var context: seq<Entry>
    var source: JobId
    var position: nat
    var elsewhere: map<JobId, nat>

    constructor (source: JobId)
      ensures State() == Flow([], source, 0, map[])
    {
      context := [];
      this.source := source;
      position := 0;
      elsewhere := map[];
    }

    function State(): Flow
      reads this
    {
      Flow(context, source, position, elsewhere)
    }

    method StackPush(oLabel: nat, op: Op, skip: bool)
      modifies this
      ensures State() == old(State()).(context := old(context) + [NewEntry(oLabel, op, source, skip)])
    {
      context := context + [Entry(oLabel, op, source, 0, "", 0, skip, false, false)];
    }

    method StackPull() returns (pulled: bool)
      modifies this
      ensures pulled <==> old(context) != []
      ensures State() == old(State()).(context := if old(context) == [] then [] else Pop(old(context)))
    {
      if context == [] {
        return false;
      }
      context := context[..|context| - 1];
      return true;
    }

    // unwind_stack(): drops the top run of entries that belong to one source, and no more.
    method UnwindStack()
      modifies this
      ensures State() == old(State()).(context := context)
      ensures context <= old(context)
      ensures forall i :: |context| <= i < |old(context)| ==> old(context)[i].file == Top(old(context)).file
      ensures context != [] ==> Top(context).file != Top(old(context)).file
    {
      if context == [] {
        return;
      }
      var file := Top(context).file;
      while context != [] && Top(context).file == file
        invariant State() == old(State()).(context := context)
        invariant context <= old(context)
        invariant forall i :: |context| <= i < |old(context)| ==> old(context)[i].file == file
        decreases |context|
      {
        var _ := StackPull();
      }
    }

    method Init()
      modifies this
      ensures State() == old(State()).(context := [])
    {
      while context != []
        invariant State() == old(State()).(context := context)
        decreases |context|
      {
        var _ := StackPull();
      }
    }

    method UpdateTop(e: Entry)
      requires context != []
      modifies this
      ensures State() == old(State()).(context := SetTop(old(context), e))
    {
      context := context[..|context| - 1] + [e];
    }

    method SetSourcePosition(file: JobId, pos: nat)
      modifies this
      ensures State() == SetPosition(old(State()), file, pos)
    {
      if file == source {
        position := pos;
      } else {
        elsewhere := elsewhere[file := pos];
      }
    }

    // The unwinding loop of BREAK and CONTINUE; false when it runs off the bottom of the stack.
    method UnwindTo(oLabel: nat) returns (found: bool)
      modifies this
      ensures State() == old(State()).(context := PopTo(old(context), oLabel))
      ensures found <==> context != []
    {
      while context != [] && oLabel != Top(context).oLabel
        invariant State() == old(State()).(context := context)
        invariant PopTo(context, oLabel) == PopTo(old(context), oLabel)
        decreases |context|
      {
        var _ := StackPull();
      }
      found := context != [];
    }

    method RepeatAgain()
      requires context != []
      modifies this
      ensures State() == NextRepeat(old(State()))
    {
      var top := Top(context);
      if top.repeats > 0 && top.repeats - 1 > 0 {
        UpdateTop(top.(repeats := top.repeats - 1));
        SetSourcePosition(top.file, top.filePos);
      } else {
        var _ := StackPull();
      }
    }

    method WhileAgain(env: Env, store: Store) returns (status: ErrorCode)
      requires context != [] && !Top(context).skip
      modifies this
      ensures Reaction(State(), status, []) == RetestWhile(env, store, old(State()))
    {
      status := OK;
      var top := Top(context);
      match env.eval(top.expr, store) {
        case Bad(e) => status := e;
        case Number(v) =>
          if v != 0.0 {
            SetSourcePosition(top.file, top.filePos);
          } else {
            var _ := StackPull();
          }
      }
    }

    method Conditional(env: Env, store: Store, oLabel: nat, op: Op, expr: string) returns (status: ErrorCode)
      requires op.If? || op.ElseIf? || op.Else? || op.EndIf?
      modifies this
      ensures Reaction(State(), status, []) == React(env, store, old(State()), oLabel, op, expr)
    {
      status := OK;
      var skipping := Skipping(context);
      var lastOp := LastOp(context);
      match op {
        case If =>
          if !skipping {
            match env.eval(expr, store) {
              case Bad(e) => status := e;
              case Number(v) =>
                StackPush(oLabel, op, v == 0.0);
                UpdateTop(Top(context).(handled := v != 0.0));
            }
          }
        case ElseIf =>
          if lastOp == If || lastOp == ElseIf {
            if oLabel == Top(context).oLabel {
              UpdateTop(Top(context).(skip := Top(context).handled));
              if !Top(context).handled {
                match env.eval(expr, store) {
                  case Bad(e) => status := e;
                  case Number(v) =>
                    UpdateTop(Top(context).(skip := v == 0.0));
                    if v != 0.0 {
                      UpdateTop(Top(context).(operation := op, handled := true));
                    }
                }
              }
            }
          } else if !skipping {
            status := FLOW_CONTROL_SYNTAX_ERROR;
          }
        case Else =>
          if lastOp == If || lastOp == ElseIf {
            if oLabel == Top(context).oLabel {
              UpdateTop(Top(context).(skip := Top(context).handled));
              if !Top(context).skip {
                UpdateTop(Top(context).(operation := op));
              }
            }
          } else if !skipping {
            status := FLOW_CONTROL_SYNTAX_ERROR;
          }
        case EndIf =>
          if lastOp == If || lastOp == ElseIf || lastOp == Else {
            if oLabel == Top(context).oLabel {
              var _ := StackPull();
            }
          } else if !skipping {
            status := FLOW_CONTROL_SYNTAX_ERROR;
          }
      }
    }

    method Loop(env: Env, store: Store, oLabel: nat, op: Op, expr: string) returns (status: ErrorCode)
      requires op.Do? || op.While? || op.EndWhile? || op.Repeat? || op.EndRepeat?
      requires source != NO_JOB
      modifies this
      ensures Reaction(State(), status, []) == React(env, store, old(State()), oLabel, op, expr)
    {
      status := OK;
      var skipping := Skipping(context);
      var lastOp := LastOp(context);
      match op {
        case Do =>
          if !skipping {
            StackPush(oLabel, op, false);
            UpdateTop(Top(context).(filePos := position));
          }
        case While =>
          if context != [] && Top(context).brk {
            if lastOp == Do && oLabel == Top(context).oLabel {
              var _ := StackPull();
            }
          } else if !skipping {
            match env.eval(expr, store) {
              case Bad(e) => status := e;
              case Number(v) =>
                if lastOp == Do {
                  if oLabel == Top(context).oLabel {
                    if v != 0.0 {
                      SetSourcePosition(Top(context).file, Top(context).filePos);
                    } else {
                      var _ := StackPull();
                    }
                  }
                } else {
                  StackPush(oLabel, op, v == 0.0);
                  UpdateTop(Top(context).(expr := expr, file := source));
                  if v != 0.0 {
                    UpdateTop(Top(context).(filePos := position));
                  }
                }
            }
          }
        case EndWhile =>
          if lastOp == While {
            if !skipping && oLabel == Top(context).oLabel {
              status := WhileAgain(env, store);
            } else if skipping && oLabel == Top(context).oLabel {
              var _ := StackPull();
            }
          } else if !skipping {
            status := FLOW_CONTROL_SYNTAX_ERROR;
          }
        case Repeat =>
          if !skipping {
            match env.eval(expr, store) {
              case Bad(e) => status := e;
              case Number(v) =>
                StackPush(oLabel, op, v == 0.0);
                if v != 0.0 {
                  UpdateTop(Top(context).(file := source, filePos := position, repeats := ToUint32(v)));
                }
            }
          }
        case EndRepeat =>
          if lastOp == Repeat {
            if oLabel == Top(context).oLabel {
              RepeatAgain();
            }
          } else if !skipping {
            status := FLOW_CONTROL_SYNTAX_ERROR;
          }
      }
    }

    method Jump(env: Env, store: Store, oLabel: nat, op: Op) returns (status: ErrorCode)
      requires op.Break? || op.Continue?
      requires source != NO_JOB
      modifies this
      ensures Reaction(State(), status, []) == React(env, store, old(State()), oLabel, op, "")
    {
      status := OK;
      if Skipping(context) {
        return;
      }
      var found := UnwindTo(oLabel);
      if !found {
        return UNDEFINED_BEHAVIOR;
      }
      var top := Top(context);
      if op == Break {
        if IsLoop(top.operation) {
          UpdateTop(top.(repeats := 0, brk := true, skip := true, handled := true));
        } else {
          status := FLOW_CONTROL_SYNTAX_ERROR;
        }
      } else {
        match top.operation {
          case Repeat => RepeatAgain();
          case Do => SetSourcePosition(top.file, top.filePos);
          case While =>
            if top.skip {
              var _ := StackPull();
            } else {
              status := WhileAgain(env, store);
            }
          case _ => status := FLOW_CONTROL_SYNTAX_ERROR;
        }
      }
    }

    method Flowcontrol(env: Env, store: Store, skip: bool, oLabel: nat, op: Op, expr: string)
      returns (status: ErrorCode, skip': bool, alarms: seq<Event>)
      modifies this
      ensures Outcome(State(), status, skip', alarms) == Control(env, store, old(State()), skip, oLabel, op, expr)
    {
      alarms := [];
      if op.NoOp? {
        return FLOW_CONTROL_SYNTAX_ERROR, skip, alarms;
      }
      status := OK;
      if op.If? || op.ElseIf? || op.Else? || op.EndIf? {
        status := Conditional(env, store, oLabel, op, expr);
      } else if op.RaiseAlarm? || op.RaiseError? {
        if !Skipping(context) {
          var v := env.eval(expr, store);
          if v.Number? {
            if op.RaiseAlarm? {
              alarms := [Alarm(v.value)];
            } else {
              status := ToErrorCode(v.value);
            }
          }
        }
      } else if source == NO_JOB {
        status := FLOW_CONTROL_NOT_EXECUTING_MACRO;
      } else if op.Break? || op.Continue? {
        status := Jump(env, store, oLabel, op);
      } else if !op.Return? {
        status := Loop(env, store, oLabel, op, expr);
      }
      if status != OK {
        Init();
        skip' := false;
      } else {
        skip' := Skipping(context);
      }
    }
  }
}
