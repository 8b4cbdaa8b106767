/** What is read of a line that is skipped, and what that means for jobs: execute_line() of
    FluidNC/src/ProcessSettings.cpp and the head of gc_execute_line() (FluidNC/src/GCode.cpp). The first
    word of a skipped line is read, with its number, before the line is passed over. */
module SkippedLines {
  import opened Flowcontrol
  import opened FlowJob
  import opened Structured
  import opened FlowCorrectness
  import opened FlowTheorems
  import CollapseLine
  import Expression
  import Operands
  import Unrolling

  const EXPECTED_COMMAND_LETTER: ErrorCode := 1
  const BAD_NUMBER_FORMAT: ErrorCode := 2
  const LINE_LENGTH_EXCEEDED: ErrorCode := 14
  const MAX_LINE := 127

  // ---- Reading the first word ------------------------------------------------------------------------

  function Unindented(text: string): string {
    if text != "" && CollapseLine.IsSpace(text[0]) then Unindented(text[1..]) else text
  }

  predicate IsDigit(c: char) { '0' <= c <= '9' }

  // Digits with at most one point: read_float() wants one digit.
  predicate Digits(text: string, point: bool) {
    text != "" && (IsDigit(text[0]) || (text[0] == '.' && !point && Digits(text[1..], true)))
  }

  predicate Literal(text: string) {
    Digits(if text != "" && (text[0] == '-' || text[0] == '+') then text[1..] else text, false)
  }

  // A number is a literal, or a parameter or expression, which `readable` may find readable in a store.
  predicate ReadsNumber(readable: (string, Store) -> bool, text: string, s: Store) {
    if text != "" && (text[0] == '#' || text[0] == '[') then readable(text, s) else Literal(text)
  }

  function ReadWord(readable: (string, Store) -> bool, line: string, s: Store): ErrorCode {
    if line == "" || line[0] == '#' then OK
    else if !('A' <= line[0] <= 'Z') then EXPECTED_COMMAND_LETTER
    else if !ReadsNumber(readable, line[1..], s) then BAD_NUMBER_FORMAT
    else OK
  }

  // The status of a skipped line.
  function ReadStatus(readable: (string, Store) -> bool, text: string, s: Store): ErrorCode {
    var line := Unindented(text);
    if line == "" || line[0] == '$' || line[0] == '[' then OK
    else if |line| > MAX_LINE then LINE_LENGTH_EXCEEDED
    else ReadWord(readable, CollapseLine.Collapse(line), s)
  }

  // The lines collapseGCode() takes for a lone '%'.
  predicate IsPercent(text: string) {
    var line := Unindented(text);
    line != "" && line[0] != '$' && line[0] != '[' && |line| <= MAX_LINE && CollapseLine.LonePercent(line)
  }

  // An environment reads lines as the firmware does, with these parameters and expressions readable.
  ghost predicate Reads(env: Env, readable: (string, Store) -> bool) {
    (forall t, s :: env.first(t, s) == ReadStatus(readable, t, s)) && forall t :: env.percent(t) == IsPercent(t)
  }

  // A line whose first word is a letter with a literal number, or that has no word to read and is no '%'.
  predicate Numbered(text: string) {
    var line := Unindented(text);
    line == "" || line[0] == '$' || line[0] == '[' ||
    (|line| <= MAX_LINE && !CollapseLine.LonePercent(line) &&
     var word := CollapseLine.Collapse(line);
     word == "" || word[0] == '#' ||
     ('A' <= word[0] <= 'Z' && Literal(word[1..]) && (|word| > 1 ==> word[1] != '#' && word[1] != '[')))
  }

  // An environment that reads so.
  function Reader(readable: (string, Store) -> bool): (env: Env)
    ensures Reads(env, readable)
  {
    Env((e, s) => Bad(BAD_NUMBER_FORMAT), (t, s) => Done(s, []), (t, s) => ReadStatus(readable, t, s), t => IsPercent(t))
  }

  /** A skipped line is passed over wherever it stands and whatever parameters there are, if and only if
      it is no lone '%' and its first number is a literal or it has none. */
  lemma NumberedExact(text: string)
    ensures Numbered(text) <==>
            forall readable: (string, Store) -> bool, s, p: nat :: PassLine(Reader(readable), Plain(text), s, p).Passed?
  {
    hide CollapseLine.LonePercent, CollapseLine.Collapse, Literal;
    PercentIsEmpty(Unindented(text));
    if forall readable: (string, Store) -> bool, s, p: nat :: PassLine(Reader(readable), Plain(text), s, p).Passed? {
      var none := (t: string, s: Store) => false;
      var s := Memory(map[], 0);
      assert PassLine(Reader(none), Plain(text), s, 1).Passed?;
      assert EndsFile(s, 2);
    }
  }

  lemma PercentIsEmpty(line: string)
    ensures CollapseLine.LonePercent(line) ==> CollapseLine.Collapse(line) == ""
  {
  }

  // ---- Jobs whose skipped lines can be read ------------------------------------------------------------

  function Texts(text: seq<Line>): set<string> {
    set line | line in text && line.Plain? :: line.text
  }

  // Some line gives this error in some store.
  ghost predicate Unreadable(env: Env, texts: set<string>, error: ErrorCode) {
    error != OK && exists t, s :: t in texts && env.first(t, s) == error
  }

  ghost predicate Readable(env: Env, texts: set<string>) {
    forall t, s :: t in texts ==> env.first(t, s) == OK
  }

  lemma TextsAppend(a: seq<Line>, b: seq<Line>)
    ensures Texts(a + b) == Texts(a) + Texts(b)
  {
  }

  // Lines that cannot be read are all that `Unread` leaves out.
  lemma {:induction false} SkimUnreadable(env: Env, text: seq<Line>, s: Memory, p: nat)
    ensures var r := Skim(env, text, s, p);
            r == Skim(Unread(env), text, s, p) || (r.Halting? && Unreadable(env, Texts(text), r.error))
    decreases |text|
  {
    if text != [] {
      var first := PassLine(env, text[0], s, p);
      if first == PassLine(Unread(env), text[0], s, p) && first.Passed? {
        SkimUnreadable(env, text[1..], first.memory, p + 1);
      }
      assert text[0] in text && forall line :: line in text[1..] ==> line in text;
    }
  }

  // The two results are the same, or the first one is the error of a line that cannot be read.
  ghost predicate SameOrUnreadable(env: Env, texts: set<string>, r: Result, r0: Result) {
    r == r0 || (r.Stopped? && Unreadable(env, texts, r.error))
  }

  lemma PassedSame(env: Env, text: seq<Line>, p: nat, texts: set<string>, r: Result, r0: Result)
    requires SameOrUnreadable(env, texts, r, r0) && Texts(text) <= texts
    ensures SameOrUnreadable(env, texts, PassOver(env, text, p, r), PassOver(Unread(env), text, p, r0))
  {
    hide Skim;
    if r.Normal? || r.Breaking? {
      SkimUnreadable(env, text, r.memory, p);
    }
  }

  lemma BlockTexts(st: Stmt, rest: Block)
    ensures Texts(Flat(Seq(st, rest))) == Texts(FlatStmt(st)) + Texts(Flat(rest))
  {
    TextsAppend(FlatStmt(st), Flat(rest));
  }

  lemma StmtTexts(st: Stmt)
    ensures st.IfS? ==> Texts(FlatStmt(st)) == Texts(Flat(st.body)) + Texts(FlatTail(st.oLabel, st.tail))
    ensures st.WhileS? || st.DoS? || st.RepeatS? ==> Texts(FlatStmt(st)) == Texts(Flat(st.body))
  {
    if st.IfS? || st.WhileS? || st.DoS? || st.RepeatS? {
      TextsAppend([Opening(st)], Flat(st.body));
      if st.IfS? {
        TextsAppend([Opening(st)] + Flat(st.body), FlatTail(st.oLabel, st.tail));
      } else {
        TextsAppend([Opening(st)] + Flat(st.body), [Closer(st)]);
      }
    }
  }

  lemma TailTexts(l: nat, t: Tail)
    ensures !t.NoElse? ==> Texts(FlatTail(l, t)) == Texts(Flat(t.body)) + Texts(FlatTail(l, Rest(t)))
  {
    if !t.NoElse? {
      var first := FlatTail(l, t)[0];
      assert FlatTail(l, t) == [first] + Flat(t.body) + FlatTail(l, Rest(t));
      TextsAppend([first] + Flat(t.body), FlatTail(l, Rest(t)));
      TextsAppend([first], Flat(t.body));
    }
  }

  /** What a program does differs from its meaning without the reading of skipped lines only by stopping
      with the error of one of its plain lines. */
  lemma {:induction false} MeaningOrUnreadable(env: Env, fuel: nat, b: Block, s: Memory, p: nat, texts: set<string>)
    requires Texts(Flat(b)) <= texts
    ensures SameOrUnreadable(env, texts, EvalBlock(env, fuel, b, s, p), EvalBlock(Unread(env), fuel, b, s, p))
    decreases fuel, b, 0
  {
    hide Texts, Unreadable, Flat, FlatStmt, FlatTail, Skim;
    if b.Seq? {
      BlockTexts(b.first, b.rest);
      StmtOrUnreadable(env, fuel, b.first, s, p, texts);
      var r, r0, q := EvalStmt(env, fuel, b.first, s, p), EvalStmt(Unread(env), fuel, b.first, s, p), p + |FlatStmt(b.first)|;
      PassedSame(env, Flat(b.rest), q, texts, r, r0);
      if r.Normal? && r == r0 {
        MeaningOrUnreadable(env, fuel, b.rest, r.memory, q, texts);
      }
    }
  }

  lemma {:induction false} StmtOrUnreadable(env: Env, fuel: nat, st: Stmt, s: Memory, p: nat, texts: set<string>)
    requires Texts(FlatStmt(st)) <= texts
    ensures SameOrUnreadable(env, texts, EvalStmt(env, fuel, st, s, p), EvalStmt(Unread(env), fuel, st, s, p))
    decreases fuel, st, 1
  {
    hide Texts, Unreadable, Flat, FlatStmt, FlatTail, Skim;
    StmtTexts(st);
    match st
    case IfS(_, _, _, _) => IfOrUnreadable(env, fuel, st, s, p, texts);
    case WhileS(_, _, b) =>
      WhileOrUnreadable(env, fuel, st, s, p, texts);
      PassedSame(env, Flat(b), p + 1, texts, Normal(s, []), Normal(s, []));
    case DoS(_, b, c) =>
      MeaningOrUnreadable(env, fuel, b, s, p + 1, texts);
      var r := EvalBlock(env, fuel, b, s, p + 1);
      if r.Normal? && fuel > 0 {
        StmtOrUnreadable(env, fuel - 1, st, r.memory, p, texts);
      }
    case RepeatS(_, c, b) =>
      var v := env.eval(c, s.store);
      if v.Number? {
        RepeatOrUnreadable(env, fuel, st, Passes(v.value), s, p, texts);
      }
      PassedSame(env, Flat(b), p + 1, texts, Normal(s, []), Normal(s, []));
    case Command(_) =>
    case Signal(_, _, _) =>
    case BreakS(_) =>
  }

  lemma {:induction false} IfOrUnreadable(env: Env, fuel: nat, st: Stmt, s: Memory, p: nat, texts: set<string>)
    requires st.IfS? && Texts(Flat(st.body)) + Texts(FlatTail(st.oLabel, st.tail)) <= texts
    ensures SameOrUnreadable(env, texts, EvalStmt(env, fuel, st, s, p), EvalStmt(Unread(env), fuel, st, s, p))
    decreases fuel, st, 0
  {
    hide Texts, Unreadable, Flat, FlatStmt, FlatTail, Skim;
    var b, l, t, q := st.body, st.oLabel, st.tail, p + 1 + |Flat(st.body)|;
    MeaningOrUnreadable(env, fuel, b, s, p + 1, texts);
    PassedSame(env, FlatTail(l, t), q, texts, Inside(EvalBlock(env, fuel, b, s, p + 1)), Inside(EvalBlock(Unread(env), fuel, b, s, p + 1)));
    SkimUnreadable(env, Flat(b), s, p + 1);
    var skipped := Skim(env, Flat(b), s, p + 1);
    if skipped.Passed? {
      TailOrUnreadable(env, fuel, l, t, skipped.memory, q, texts);
    } else {
      UnreadableGrows(env, Texts(Flat(b)), texts, skipped.error);
    }
  }

  lemma UnreadableGrows(env: Env, a: set<string>, b: set<string>, error: ErrorCode)
    requires a <= b
    ensures Unreadable(env, a, error) ==> Unreadable(env, b, error)
  {
  }

  lemma {:induction false} TailOrUnreadable(env: Env, fuel: nat, l: nat, t: Tail, s: Memory, p: nat, texts: set<string>)
    requires Texts(FlatTail(l, t)) <= texts
    ensures SameOrUnreadable(env, texts, EvalTail(env, fuel, l, t, s, p), EvalTail(Unread(env), fuel, l, t, s, p))
    decreases fuel, t, 1
  {
    hide Texts, Unreadable, Flat, FlatStmt, FlatTail, Skim;
    TailTexts(l, t);
    match t
    case NoElse =>
    case ElseS(b) => MeaningOrUnreadable(env, fuel, b, s, p + 1, texts);
    case ElseIfS(_, b, t') =>
      var q := p + 1 + |Flat(b)|;
      MeaningOrUnreadable(env, fuel, b, s, p + 1, texts);
      PassedSame(env, FlatTail(l, t'), q, texts, Inside(EvalBlock(env, fuel, b, s, p + 1)), Inside(EvalBlock(Unread(env), fuel, b, s, p + 1)));
      SkimUnreadable(env, Flat(b), s, p + 1);
      var skipped := Skim(env, Flat(b), s, p + 1);
      if skipped.Passed? {
        TailOrUnreadable(env, fuel, l, t', skipped.memory, q, texts);
      } else {
        UnreadableGrows(env, Texts(Flat(b)), texts, skipped.error);
      }
  }

  lemma {:induction false} WhileOrUnreadable(env: Env, fuel: nat, st: Stmt, s: Memory, p: nat, texts: set<string>)
    requires st.WhileS? && Texts(Flat(st.body)) <= texts
    ensures SameOrUnreadable(env, texts, EvalWhile(env, fuel, st, s, p), EvalWhile(Unread(env), fuel, st, s, p))
    decreases fuel, st, 0
  {
    hide Texts, Unreadable, Flat, FlatStmt, FlatTail, Skim;
    MeaningOrUnreadable(env, fuel, st.body, s, p + 1, texts);
    var r := EvalBlock(env, fuel, st.body, s, p + 1);
    if r.Normal? && fuel > 0 {
      WhileOrUnreadable(env, fuel - 1, st, r.memory, p, texts);
    }
  }

  lemma {:induction false} RepeatOrUnreadable(env: Env, fuel: nat, st: Stmt, passes: nat, s: Memory, p: nat, texts: set<string>)
    requires st.RepeatS? && Texts(Flat(st.body)) <= texts
    ensures SameOrUnreadable(env, texts, EvalRepeat(env, fuel, st, passes, s, p), EvalRepeat(Unread(env), fuel, st, passes, s, p))
    decreases fuel, st, 0, passes
  {
    hide Texts, Unreadable, Flat, FlatStmt, FlatTail, Skim;
    MeaningOrUnreadable(env, fuel, st.body, s, p + 1, texts);
    var r := EvalBlock(env, fuel, st.body, s, p + 1);
    if r.Normal? && passes > 1 {
      RepeatOrUnreadable(env, fuel, st, passes - 1, r.memory, p, texts);
    }
  }

  /** The job of a well-formed program all of whose plain lines start with a letter and a literal number, or
      with nothing to read, and are no lone '%', does what the program means when skipped text is not
      looked at: no text can then stop the job while it is passed over. */
  lemma NumberedJobFollowsMeaning(env: Env, readable: (string, Store) -> bool, prog: Block, source: JobId, s: Store, fuel: nat)
    returns (n: nat)
    requires WellFormed(prog, {}, false) && source != NO_JOB && Reads(env, readable)
    requires forall t :: t in Texts(Flat(prog)) ==> Numbered(t)
    ensures var m := Steps(env, Flat(prog), Start(source, s), n);
            var r := Meaning(Unread(env), fuel, prog, s);
            if r.Timeout? then n >= fuel && !Halted(Flat(prog), m)
            else Halted(Flat(prog), m) && Agrees(Flat(prog), m, r)
    ensures forall text: seq<Line>, s, p: nat :: Texts(text) <= Texts(Flat(prog)) ==> Skim(Unread(env), text, s, p).Passed?
  {
    var texts := Texts(Flat(prog));
    forall t, s | t in texts ensures env.first(t, s) == OK && !env.percent(t) {
      NumberedReads(readable, t, s);
    }
    MeaningOrUnreadable(env, fuel, prog, Memory(s, 0), 0, texts);
    forall text: seq<Line>, s, p: nat | Texts(text) <= texts ensures Skim(Unread(env), text, s, p).Passed? {
      forall i | 0 <= i < |text| && text[i].Plain? ensures !env.percent(text[i].text) {
        assert text[i].text in Texts(text);
      }
      Unrolling.SkimReadable(Unread(env), text, s, p);
    }
    assert Meaning(env, fuel, prog, s) == Meaning(Unread(env), fuel, prog, s);
    n := JobFollowsProgram(env, prog, source, s, fuel);
  }

  lemma NumberedReads(readable: (string, Store) -> bool, t: string, s: Store)
    requires Numbered(t)
    ensures ReadStatus(readable, t, s) == OK && !IsPercent(t)
  {
    hide CollapseLine.LonePercent, CollapseLine.Collapse, Literal;
  }

  lemma {:induction false} TimesTexts(b: Block, n: nat)
    ensures Texts(Flat(Unrolling.Times(b, n))) <= Texts(Flat(b))
    decreases n
  {
    if n > 0 {
      TimesTexts(b, n - 1);
      Unrolling.FlatAppend(b, Unrolling.Times(b, n - 1));
      TextsAppend(Flat(b), Flat(Unrolling.Times(b, n - 1)));
      hide Texts;
    }
  }

  /** A BREAK out of a REPEAT and of whatever is around it is the same BREAK out of the body written n
      times, if the plain lines of the body can be read: the copies left are then passed over. */
  lemma BreakOutUnrolls(env: Env, fuel: nat, st: Stmt, n: nat, s: Memory, p: nat, q: nat)
    requires st.RepeatS? && 0 < n < 0x1_0000_0000 && env.eval(st.count, s.store) == Number(n as real)
    requires Unrolling.NoPercent(env, Flat(st.body)) && Readable(env, Texts(Flat(st.body)))
    requires EvalStmt(env, fuel, st, s, p).Breaking?
    ensures var r, u := EvalStmt(env, fuel, st, s, p), EvalBlock(env, fuel, Unrolling.Times(st.body, n), s, q);
            u.Breaking? && u.oLabel == r.oLabel && (r.oLabel != st.oLabel ==> u.memory.store == r.memory.store && u.events == r.events)
  {
    hide EvalBlock, EvalStmt, Texts, Flat, FlatStmt;
    var texts := Texts(Flat(st.body));
    StmtTexts(st);
    StmtOrUnreadable(env, fuel, st, s, p, texts);
    TimesTexts(st.body, n);
    MeaningOrUnreadable(env, fuel, Unrolling.Times(st.body, n), s, q, texts);
    Unrolling.RepeatIsUnrolled(env, fuel, st, n, s, p, q);
    Unrolling.RepeatIsUnrolled(Unread(env), fuel, st, n, s, p, q);
  }

  // ---- A job that stops at a skipped line --------------------------------------------------------------

  // O l IF c / text / O l ENDIF
  function Guarded(l: nat, c: string, text: string): Block {
    Seq(IfS(l, c, Seq(Command(text), Nil), NoElse), Nil)
  }

  /** An IF that is not taken lets its job end as if it were not there if and only if the line under it is
      blank, or is no lone '%' and its first word can be read in the store at hand. Otherwise the job stops
      at that line: with the reading error, or at a '%' without one. */
  lemma SkippedLineExact(env: Env, source: JobId, s: Store, l: nat, c: string, text: string)
    requires source != NO_JOB && env.eval(c, s) == Number(0.0)
    ensures var prog := Guarded(l, c, text);
            && WellFormed(prog, {}, false)
            && exists n: nat ::
                 var m := Steps(env, Flat(prog), Start(source, s), n);
                 && Halted(Flat(prog), m) && m.memory.store == s && m.trace == []
                 && (m.flow.context == [] && !m.skipBlocks && Running(m) <==>
                     text == "" || (!env.percent(text) && env.first(text, s) == OK))
                 && (text != "" && !env.percent(text) ==> m.status == env.first(text, s))
                 && (text != "" && env.percent(text) ==> m.status == OK && m.ended && m.flow.position == 2)
  {
    var prog := Guarded(l, c, text);
    GuardedWellFormed(l, c, text);
    GuardedMeaning(env, s, l, c, text);
    hide Steps, Flat, EvalBlock;
    var n := JobFollowsProgram(env, prog, source, s, 0);
    var m := Steps(env, Flat(prog), Start(source, s), n);
    assert Halted(Flat(prog), m);
  }

  lemma GuardedWellFormed(l: nat, c: string, text: string)
    ensures WellFormed(Guarded(l, c, text), {}, false)
  {
    var body, tail := Seq(Command(text), Nil), NoElse;
    var st := IfS(l, c, body, tail);
    assert Labels(body) == StmtLabels(Command(text)) + Labels(Nil) == {};
    assert TailLabels(tail) == {};
    assert WellFormed(body, {}, false);
    assert WellFormedTail(tail, {});
    assert WellFormedStmt(st, {}, false);
  }

  lemma GuardedMeaning(env: Env, s: Store, l: nat, c: string, text: string)
    requires env.eval(c, s) == Number(0.0)
    ensures var r := PassLine(env, Plain(text), Memory(s, 0), 1);
            Meaning(env, 0, Guarded(l, c, text), s) ==
            if r.Passed? then Normal(r.memory, []) else Stopped(r.error, r.memory, [], r.line, Open)
  {
    var body := Seq(Command(text), Nil);
    var start := Memory(s, 0);
    assert Flat(body) == [Plain(text)];
    assert [Plain(text)][1..] == [];
    var r := PassLine(env, Plain(text), start, 1);
    assert Skim(env, Flat(body), start, 1) == r;
    var st := IfS(l, c, body, NoElse);
    var r' := EvalStmt(env, 0, st, start, 0);
    assert r' == if r.Passed? then EvalTail(env, 0, l, NoElse, r.memory, 2) else Stopped(r.error, r.memory, [], r.line, Open);
    assert EvalBlock(env, 0, Seq(st, Nil), start, 0) == if r'.Normal? then After([], Normal(r.memory, [])) else r';
  }

  /** A '%' under an IF that is not taken ends the job there, without an error and with the IF still
      skipping. */
  lemma SkippedPercentEnds(env: Env, readable: (string, Store) -> bool, source: JobId, s: Store, l: nat, c: string)
    requires source != NO_JOB && env.eval(c, s) == Number(0.0) && Reads(env, readable)
    ensures var m := Steps(env, Flat(Guarded(l, c, "%")), Start(source, s), 2);
            m.status == OK && m.ended && m.flow.position == 2 && m.skipBlocks && Skipping(m.flow.context)
  {
    assert env.percent("%") by {
      PercentLine();
    }
    hide IsPercent, ReadStatus;
    var code := Flat(Guarded(l, c, "%"));
    var body := Seq(Command("%"), Nil);
    assert Flat(body) == [Plain("%")];
    assert FlatStmt(IfS(l, c, body, NoElse)) == [OWord(l, If, c), Plain("%"), OWord(l, EndIf, "")];
    assert code == FlatStmt(IfS(l, c, body, NoElse));
    var m0 := Start(source, s);
    StepIf(env, code, m0, l, c);
    hide Control, Flat;
    var m1 := Steps(env, code, m0, 1);
    OneStep(env, code, m1);
    StepsAdd(env, code, m0, 1, 1);
  }

  lemma PercentLine()
    ensures IsPercent("%")
  {
    assert CollapseLine.Bare("%");
    CollapseLine.BareIsKept("%");
  }

  const DIVISION := "[1/0]"

  // 1/0 cannot be read, as dividing by zero is an error of the expression.
  lemma DivisionIsUnreadable(env: Operands.Env)
    requires Expression.Advances(env.float, DIVISION)
    requires env.float(DIVISION, 1) == Expression.Operand(1.0, 2) && env.float(DIVISION, 3) == Expression.Operand(0.0, 4)
    ensures Operands.Bracket(env.math, Operands.ReadNumber(env, DIVISION), DIVISION, 0) == Expression.NoOperand
  {
    var read := Operands.ReadNumber(env, DIVISION);
    Operands.ReadNumberIsRecursive(env, DIVISION, 1);
    Operands.ReadNumberIsRecursive(env, DIVISION, 3);
    assert read(DIVISION, 1) == Expression.Operand(1.0, 2) && read(DIVISION, 3) == Expression.Operand(0.0, 4);
    hide Operands.ReadNumber;
    var t0, t1 := Expression.Token(1.0, Expression.DividedBy), Expression.Token(0.0, Expression.RightBracket);
    assert Expression.Scan(read, DIVISION, 1).list == [t0, t1];
    assert [t0, t1][1..] == [t1];
    assert Expression.Feed(env.math, [], t0) == Expression.Stack([t0]);
    assert Expression.Feed(env.math, [t0], t1).Failed?;
    assert Expression.FeedAll(env.math, [t0], [t1]).Failed?;
    assert Expression.FeedAll(env.math, [], [t0, t1]).Failed?;
    assert Expression.Meaning(env.math, read, DIVISION, 0).Err?;
  }

  /** `X[1/0]` under an IF that is not taken stops the job with a bad number. */
  lemma SkippedDivisionStops(env: Env, readable: (string, Store) -> bool, tables: Operands.Env, source: JobId, s: Store, l: nat, c: string)
    requires source != NO_JOB && env.eval(c, s) == Number(0.0) && Reads(env, readable)
    requires Expression.Advances(tables.float, DIVISION)
    requires tables.float(DIVISION, 1) == Expression.Operand(1.0, 2) && tables.float(DIVISION, 3) == Expression.Operand(0.0, 4)
    requires readable(DIVISION, s) == Operands.Bracket(tables.math, Operands.ReadNumber(tables, DIVISION), DIVISION, 0).Operand?
    ensures exists n: nat :: Steps(env, Flat(Guarded(l, c, "X[1/0]")), Start(source, s), n).status == BAD_NUMBER_FORMAT
  {
    DivisionIsUnreadable(tables);
    hide Operands.Bracket, Operands.ReadNumber;
    var text := "X[1/0]";
    DivisionLine(readable, s);
    SkippedLineExact(env, source, s, l, c, text);
    hide Steps, Flat;
    var prog := Guarded(l, c, text);
    var n: nat :| Halted(Flat(prog), Steps(env, Flat(prog), Start(source, s), n))
                  && Steps(env, Flat(prog), Start(source, s), n).status == env.first(text, s);
  }

  lemma DivisionLine(readable: (string, Store) -> bool, s: Store)
    requires !readable(DIVISION, s)
    ensures ReadStatus(readable, "X[1/0]", s) == BAD_NUMBER_FORMAT && !IsPercent("X[1/0]")
  {
    hide Literal, CollapseLine.ScanText;
    var text := "X[1/0]";
    assert CollapseLine.Bare(text);
    CollapseLine.BareIsKept(text);
    hide CollapseLine.Bare;
    assert text[1..] == DIVISION && text != "%" by { assert |text| == 6; }
  }
}
