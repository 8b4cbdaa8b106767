/** A job: a file of lines executed one after another, with the skip test of gc_execute_line()
    (FluidNC/src/GCode.cpp) in front of flow control. The read position is already past the
    current line when the line executes; it is the line number of that line, too. */
module FlowJob {
  import opened Flowcontrol

  datatype Line = Plain(text: string) | OWord(oLabel: nat, op: Op, expr: string)

  // What lasts from line to line: the parameters, and how many blank lines the file has given so far,
  // those read again in a loop counted again.
  datatype Memory = Memory(store: Store, blanks: nat)

  // `ended` says that the file will give no more lines.
  datatype Machine = Machine(flow: Flow, skipBlocks: bool, memory: Memory, trace: seq<Event>, status: ErrorCode, ended: bool)

  function CountBlank(s: Memory): Memory {
    s.(blanks := s.blanks + 1)
  }

  // A lone '%' on the first line that is not blank is the mark of a start of file, on any other it ends
  // the file: pollLine() tells them apart by the number of the line and the blank lines so far.
  predicate EndsFile(s: Memory, lineNumber: nat) {
    lineNumber != s.blanks + 1
  }

  function ExecutePlain(env: Env, text: string, m: Machine): Machine {
    if text == "" then m.(memory := CountBlank(m.memory))
    else if env.percent(text) then m.(ended := EndsFile(m.memory, m.flow.position))
    else if m.skipBlocks then m.(status := env.first(text, m.memory.store))
    else match env.exec(text, m.memory.store)
         case Done(store, events) => m.(memory := m.memory.(store := store), trace := m.trace + events)
         case Rejected(e) => m.(status := e)
         case Ended(store, events) => m.(memory := m.memory.(store := store), trace := m.trace + events, ended := true)
  }

  // An alarm raised by a line aborts the job, too.
  function ExecuteLine(env: Env, line: Line, m: Machine): Machine {
    match line
    case Plain(text) => ExecutePlain(env, text, m)
    case OWord(l, op, expr) =>
      var r := Control(env, m.memory.store, m.flow, m.skipBlocks, l, op, expr);
      m.(flow := r.flow, skipBlocks := r.skip, trace := m.trace + r.alarms, status := r.status, ended := r.alarms != [])
  }

  predicate Running(m: Machine) {
    m.status == OK && !m.ended
  }

  // A job ends at the end of its text, at the first line that reports an error, and at a line that ends it.
  predicate Halted(code: seq<Line>, m: Machine) {
    !Running(m) || m.flow.position >= |code|
  }

  function Step(env: Env, code: seq<Line>, m: Machine): Machine
    requires !Halted(code, m)
  {
    ExecuteLine(env, code[m.flow.position], m.(flow := m.flow.(position := m.flow.position + 1)))
  }

  function Steps(env: Env, code: seq<Line>, m: Machine, n: nat): Machine
    decreases n
  {
    if n == 0 || Halted(code, m) then m else Steps(env, code, Step(env, code, m), n - 1)
  }

  function Start(source: JobId, store: Store): Machine {
    Machine(Flow([], source, 0, map[]), false, Memory(store, 0), [], OK, false)
  }

  lemma {:induction false} StepsAdd(env: Env, code: seq<Line>, m: Machine, a: nat, b: nat)
    ensures Steps(env, code, m, a + b) == Steps(env, code, Steps(env, code, m, a), b)
    decreases a
  {
    if a > 0 && !Halted(code, m) {
      StepsAdd(env, code, Step(env, code, m), a - 1, b);
    } else if Halted(code, m) {
      assert Steps(env, code, m, a) == m && Steps(env, code, m, b) == m;
    }
  }

  // The flag the parser tests is the skip bit of the top entry, and no other entry has that bit.
  ghost predicate Consistent(m: Machine) {
    m.skipBlocks == Skipping(m.flow.context) && OnlyTopSkips(m.flow.context)
  }

  lemma StepKeepsConsistent(env: Env, code: seq<Line>, m: Machine, m': Machine)
    requires Consistent(m) && !Halted(code, m) && m' == Step(env, code, m)
    ensures Consistent(m')
  {
    hide React, OnlyTopSkips;
    var line := code[m.flow.position];
    var flow := m.flow.(position := m.flow.position + 1);
    if line.OWord? {
      ControlKeepsOnlyTopSkips(env, m.memory.store, flow, m.skipBlocks, line.oLabel, line.op, line.expr);
      var r := Control(env, m.memory.store, flow, m.skipBlocks, line.oLabel, line.op, line.expr);
      assert OnlyTopSkips(r.flow.context);
      assert r.skip == Skipping(r.flow.context);
      assert m'.flow == r.flow;
    }
  }

  /** Over every run of every text, well formed or not. */
  lemma {:induction false} RunsStayConsistent(env: Env, code: seq<Line>, m: Machine, n: nat)
    requires Consistent(m)
    ensures Consistent(Steps(env, code, m, n))
    decreases n
  {
    if n > 0 && !Halted(code, m) {
      StepKeepsConsistent(env, code, m, Step(env, code, m));
      RunsStayConsistent(env, code, Step(env, code, m), n - 1);
    }
  }

  predicate InertLine(line: Line, oLabel: nat) {
    line.Plain? || Inert(line.op, line.oLabel, oLabel)
  }

  predicate InertText(text: seq<Line>, oLabel: nat) {
    forall i :: 0 <= i < |text| ==> InertLine(text[i], oLabel)
  }

  // `text` stands in `code` at position `at`.
  predicate Occurs(code: seq<Line>, at: nat, text: seq<Line>) {
    at + |text| <= |code| && code[at..at + |text|] == text
  }

  predicate SkippingAt(code: seq<Line>, m: Machine, oLabel: nat, at: nat) {
    && Running(m) && m.skipBlocks && Skipping(m.flow.context) && m.flow.source != NO_JOB
    && Top(m.flow.context).oLabel == oLabel && m.flow.position == at
  }

  // What comes of passing over text: the blank lines in it are counted, and it may hold a line at which
  // the job ends, with an error or without.
  datatype Passing = Passed(memory: Memory) | Halting(error: ErrorCode, memory: Memory, line: nat)

  // A skipped line at position `p`. Of a plain line the first word is read, with its number.
  function PassLine(env: Env, line: Line, s: Memory, p: nat): Passing {
    if line.OWord? then Passed(s)
    else if line.text == "" then Passed(CountBlank(s))
    else if env.percent(line.text) then (if EndsFile(s, p + 1) then Halting(OK, s, p) else Passed(s))
    else if env.first(line.text, s.store) != OK then Halting(env.first(line.text, s.store), s, p)
    else Passed(s)
  }

  function Skim(env: Env, text: seq<Line>, s: Memory, p: nat): Passing
    decreases |text|
  {
    if text == [] then Passed(s)
    else
      var first := PassLine(env, text[0], s, p);
      if first.Halting? then first else Skim(env, text[1..], first.memory, p + 1)
  }

  lemma {:induction false} SkimAppend(env: Env, a: seq<Line>, b: seq<Line>, s: Memory, p: nat)
    ensures var r := Skim(env, a, s, p);
            Skim(env, a + b, s, p) == if r.Halting? then r else Skim(env, b, r.memory, p + |a|)
    decreases |a|
  {
    if a == [] {
      assert a + b == b;
    } else {
      assert (a + b)[1..] == a[1..] + b;
      var first := PassLine(env, a[0], s, p);
      if first.Passed? {
        SkimAppend(env, a[1..], b, first.memory, p + 1);
      }
    }
  }

  lemma HaltedStays(env: Env, code: seq<Line>, m: Machine, n: nat, k: nat)
    requires Halted(code, Steps(env, code, m, n)) && n <= k
    ensures Steps(env, code, m, k) == Steps(env, code, m, n)
  {
    hide Step;
    StepsAdd(env, code, m, n, k - n);
  }

  // The job has ended at a line that is passed over, with an error or without.
  predicate HaltedAt(m: Machine, m': Machine, r: Passing)
    requires r.Halting?
  {
    && m'.status == r.error && (r.error == OK ==> m'.ended) && m'.memory == r.memory && m'.trace == m.trace
    && m'.flow.position == r.line + 1 && m'.flow.context == m.flow.context
  }

  // From `m` on, the text up to `end` is passed over, or the job has ended on the way.
  predicate PassedOver(m: Machine, m': Machine, r: Passing, end: nat) {
    if r.Passed? then m' == m.(flow := m.flow.(position := end), memory := r.memory) else HaltedAt(m, m', r)
  }

  /** Inert text is passed over line by line, leaving everything but the read position and the count of
      blank lines as it was, if and only if there is no '%' in it that ends the file and the first word
      of every plain line can be read; otherwise the job ends at the first such line. */
  lemma {:induction false} SkipsText(env: Env, code: seq<Line>, m: Machine, oLabel: nat, at: nat, text: seq<Line>)
    requires Occurs(code, at, text) && InertText(text, oLabel)
    requires SkippingAt(code, m, oLabel, at)
    ensures PassedOver(m, Steps(env, code, m, |text|), Skim(env, text, m.memory, at), at + |text|)
    ensures Running(Steps(env, code, m, |text|)) <==> Skim(env, text, m.memory, at).Passed?
    decreases |text|
  {
    if text != [] {
      var m' := m.(flow := m.flow.(position := at + 1));
      assert code[at] == text[0];
      if text[0].OWord? {
        SkippedLineIsInert(env, m.memory.store, m'.flow, text[0].oLabel, text[0].op, text[0].expr);
        assert m.trace + [] == m.trace;
      }
      var first := PassLine(env, text[0], m.memory, at);
      if first.Passed? {
        var m1 := m'.(memory := first.memory);
        assert Step(env, code, m) == m1;
        assert code[at + 1..at + 1 + |text[1..]|] == text[1..];
        SkipsText(env, code, m1, oLabel, at + 1, text[1..]);
      } else {
        HaltedAtOnce(env, code, m, |text|);
      }
    }
  }

  lemma HaltedAtOnce(env: Env, code: seq<Line>, m: Machine, n: nat)
    requires n > 0 && !Halted(code, m) && Halted(code, Step(env, code, m))
    ensures Steps(env, code, m, n) == Step(env, code, m)
  {
    hide Step;
  }
}
