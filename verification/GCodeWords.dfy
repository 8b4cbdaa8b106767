/** The word loop of gc_execute_line (FluidNC/src/GCode.cpp): what each word of a block does to the
    block, the modal group and value word masks, and why the order of the words does not matter. */
module GCodeWords {
  import opened Options

  datatype Word = Word(letter: char, value: real)

  datatype Error =
    | ExpectedCommandLetter | GcodeUnsupportedCommand | GcodeCommandValueNotInteger | GcodeAxisCommandConflict
    | GcodeModalGroupViolation | GcodeWordRepeated | GcodeMaxValueExceeded | NegativeValue

  datatype ModalGroup =
    | MG0 | MG1 | MG2 | MG3 | MG4 | MG5 | MG6 | MG7 | MG8 | MG12 | MG13
    | MM4 | MM5 | MM6 | MM7 | MM8 | MM9

  datatype AxisCommand = NoCommand | NonModal | MotionMode | ToolLengthOffset

  // The fields of the block that command words set; their values are the codes of the source's enums.
  datatype Field =
    | NonModalCommand | Motion | ProbeExplicit | NonmodalG38 | Plane | Distance | FeedRate | Units | ToolLength
    | CoordSelect | ProgramFlow | IoControl | ToolChange | SetToolNumber | Spindle | Coolant | Override

  // What the machine is configured for.
  datatype Config = Config(axes: nat, hasProbe: bool, hasMist: bool, hasFlood: bool, reversible: bool, parkingOverride: bool)

  // ---- Numbers -------------------------------------------------------------------------------------------

  function Trunc(x: real): int {
    if x >= 0.0 then x.Floor else -((-x).Floor)
  }

  // lroundf: halves away from zero.
  function Round(x: real): int {
    if x >= 0.0 then (x + 0.5).Floor else -((-x + 0.5).Floor)
  }

  function Mantissa(x: real): int {
    Round(100.0 * (x - Trunc(x) as real))
  }

  // ---- One word ------------------------------------------------------------------------------------------

  // How a command word uses axis_command: not at all, by setting it whatever it was (G0 to G3), or by
  // claiming it, which fails when it is set.
  datatype AxisUse = Ignores | Sets(command: AxisCommand) | Claims(command: AxisCommand)

  datatype Effect =
    | Refused(error: Error)
    | Command(group: ModalGroup, updates: map<Field, int>, use: AxisUse, fault: Option<Error>)
    | Value(letter: char, stored: real, negative: bool)

  const UNSUPPORTED := Refused(GcodeUnsupportedCommand)

  function Plainly(group: ModalGroup, field: Field, code: int, m: int): Effect {
    Command(group, map[field := code], Ignores, NotInteger(m))
  }

  function NotInteger(m: int): Option<Error> {
    if m > 0 then Some(GcodeCommandValueNotInteger) else None
  }

  // G4, G10, G28, G30, G53, G92
  function NonModalWord(v: int, m: int): Effect {
    if v == 10 then
      Command(MG0, map[NonModalCommand := 100], if m == 0 then Claims(NonModal) else Ignores, NotInteger(m))
    else if v == 4 then Plainly(MG0, NonModalCommand, 40, m)
    else if v == 53 then Plainly(MG0, NonModalCommand, 530, m)
    else if m == 0 then Command(MG0, map[NonModalCommand := v * 10], Claims(NonModal), None)
    else if m == 10 then Command(MG0, map[NonModalCommand := v * 10 + 1], Ignores, None)
    else UNSUPPORTED
  }

  // G0 to G3, G38, G80
  function MotionWord(cfg: Config, v: int, m: int): Effect {
    if v == 80 then Plainly(MG1, Motion, 800, m)
    else if v != 38 then Command(MG1, map[Motion := v * 10], Sets(MotionMode), NotInteger(m))
    else if !cfg.hasProbe then UNSUPPORTED
    else
      var k := if m >= 60 then m - 40 else m;
      var known := k == 20 || k == 30 || k == 40 || k == 50;
      Command(MG1, map[Motion := if known then 380 + k / 10 else 0, ProbeExplicit := 1, NonmodalG38 := if m >= 60 then 1 else 0],
              Claims(MotionMode), if known then None else Some(GcodeUnsupportedCommand))
  }

  // The other modal groups.
  function ModalWord(v: int, m: int): Effect {
    if 17 <= v <= 19 then Plainly(MG2, Plane, v * 10, m)
    else if v == 90 then (if m == 0 then Plainly(MG3, Distance, 900, 0) else UNSUPPORTED)
    else if v == 91 then
      (if m == 0 then Plainly(MG3, Distance, 910, 0)
       else if m == 10 then Command(MG4, map[], Ignores, None)
       else UNSUPPORTED)
    else if 93 <= v <= 94 then Plainly(MG5, FeedRate, v * 10, m)
    else if 20 <= v <= 21 then Plainly(MG6, Units, v * 10, m)
    else if v == 40 then Command(MG7, map[], Ignores, NotInteger(m))
    else if v == 49 then Command(MG8, map[ToolLength := 490], Claims(ToolLengthOffset), None)
    else if v == 43 then
      Command(MG8, map[ToolLength := 431], Claims(ToolLengthOffset), if m == 10 then None else Some(GcodeUnsupportedCommand))
    else if 54 <= v <= 58 then Plainly(MG12, CoordSelect, v - 54, m)
    else if v == 59 then
      Plainly(MG12, CoordSelect, if m == 10 then 6 else if m == 20 then 7 else if m == 30 then 8 else 5, m)
    else if v == 61 then (if m == 0 then Command(MG13, map[], Ignores, None) else UNSUPPORTED)
    else UNSUPPORTED
  }

  predicate IsNonModal(v: int) { v == 4 || v == 10 || v == 28 || v == 30 || v == 53 || v == 92 }
  predicate IsMotion(v: int) { 0 <= v <= 3 || v == 38 || v == 80 }

  function GWord(cfg: Config, v: int, m: int): Effect {
    if IsNonModal(v) then NonModalWord(v, m) else if IsMotion(v) then MotionWord(cfg, v, m) else ModalWord(v, m)
  }

  function CoolantWord(cfg: Config, v: int, m: int): Effect {
    if v != 9 && m != 0 && m != 10 then UNSUPPORTED
    else
      var fitted := if v == 7 then cfg.hasMist else if v == 8 then cfg.hasFlood else cfg.hasFlood || cfg.hasMist;
      Command(MM8, if fitted then map[Coolant := v - 6] else map[], Ignores, None)
  }

  function MWord(cfg: Config, v: int, m: int): Effect {
    if m > 0 && v != 7 && v != 8 then Refused(GcodeCommandValueNotInteger)
    else if v == 0 then Command(MM4, map[ProgramFlow := 3], Ignores, None)
    else if v == 1 then Command(MM4, map[], Ignores, None)
    else if v == 2 then Command(MM4, map[ProgramFlow := 2], Ignores, None)
    else if v == 30 then Command(MM4, map[ProgramFlow := 30], Ignores, None)
    else if v == 4 && !cfg.reversible then UNSUPPORTED
    else if 3 <= v <= 5 then Command(MM7, map[Spindle := v], Ignores, None)
    else if v == 6 then Command(MM6, map[ToolChange := 1], Ignores, None)
    else if 7 <= v <= 9 then CoolantWord(cfg, v, m)
    else if v == 56 then (if cfg.parkingOverride then Command(MM9, map[Override := 0], Ignores, None) else UNSUPPORTED)
    else if v == 61 then Command(MM6, map[SetToolNumber := 1], Ignores, None)
    else if 62 <= v <= 68 then Command(MM5, map[IoControl := v - 61], Ignores, None)
    else UNSUPPORTED
  }

  // Axis letters in the order of their index.
  function AxisIndex(letter: char): Option<nat> {
    match letter
    case 'X' => Some(0)
    case 'Y' => Some(1)
    case 'Z' => Some(2)
    case 'A' => Some(3)
    case 'B' => Some(4)
    case 'C' => Some(5)
    case 'U' => Some(6)
    case 'V' => Some(7)
    case 'W' => Some(8)
    case _ => None
  }

  const MAX_TOOL_NUMBER := 99999999.0

  predicate PlainValue(letter: char) {
    letter == 'D' || letter == 'F' || letter == 'I' || letter == 'J' || letter == 'K' || letter == 'P' || letter == 'Q'
    || letter == 'R' || letter == 'S'
  }

  predicate NeverNegative(letter: char) {
    letter == 'F' || letter == 'N' || letter == 'P' || letter == 'T' || letter == 'S'
  }

  function ValueWord(cfg: Config, letter: char, x: real): Effect {
    var negative := NeverNegative(letter) && x < 0.0;
    if AxisIndex(letter).Some? then
      (if AxisIndex(letter).value < cfg.axes then Value(letter, x, negative) else UNSUPPORTED)
    else if PlainValue(letter) then Value(letter, x, negative)
    else if letter == 'E' || letter == 'L' then Value(letter, (Trunc(x) % 256) as real, negative)
    else if letter == 'N' then Value(letter, Trunc(x) as real, negative)
    else if letter == 'O' then
      (if Mantissa(x) > 0 then Refused(GcodeCommandValueNotInteger) else Value(letter, Trunc(x) as real, negative))
    else if letter == 'T' then
      (if x > MAX_TOOL_NUMBER then Refused(GcodeMaxValueExceeded) else Value(letter, Trunc(x) as real, negative))
    else UNSUPPORTED
  }

  function Decode(cfg: Config, w: Word): Effect {
    if !('A' <= w.letter <= 'Z') then Refused(ExpectedCommandLetter)
    else if w.letter == 'G' then GWord(cfg, Trunc(w.value), Mantissa(w.value))
    else if w.letter == 'M' then MWord(cfg, Trunc(w.value), Mantissa(w.value))
    else ValueWord(cfg, w.letter, w.value)
  }

  // ---- The block -----------------------------------------------------------------------------------------

  // gc_block with the masks: the groups commanded, the value words given and what they store.
  datatype Block = Block(fields: map<Field, int>, groups: set<ModalGroup>, values: map<char, real>, axisCommand: AxisCommand)

  datatype Result = Ok(block: Block) | Err(error: Error) | ToFlowControl(block: Block, rest: seq<Word>)

  // A word up to the check of its modal group.
  function Perform(b: Block, e: Effect): Result {
    match e
    case Refused(error) => Err(error)
    case Command(group, updates, use, fault) =>
      if use.Claims? && !b.axisCommand.NoCommand? then Err(GcodeAxisCommandConflict)
      else if fault.Some? then Err(fault.value)
      else Ok(b.(fields := b.fields + updates, axisCommand := if use.Ignores? then b.axisCommand else use.command))
    case Value(letter, stored, negative) =>
      if letter in b.values then Err(GcodeWordRepeated)
      else if negative then Err(NegativeValue)
      else Ok(b.(values := b.values[letter := stored]))
  }

  function Act(b: Block, e: Effect): Result {
    var r := Perform(b, e);
    if r.Ok? && e.Command? then
      if e.group in b.groups then Err(GcodeModalGroupViolation) else Ok(r.block.(groups := b.groups + {e.group}))
    else r
  }

  // The whole loop.
  function Parse(cfg: Config, b: Block, words: seq<Word>): Result
    decreases |words|
  {
    if words == [] then Ok(b)
    else if 'O' in b.values then ToFlowControl(b, words)
    else
      var r := Act(b, Decode(cfg, words[0]));
      if r.Ok? then Parse(cfg, r.block, words[1..]) else r
  }

  // ---- Words do not interfere ------------------------------------------------------------------------------

  function GroupOf(f: Field): ModalGroup {
    match f
    case NonModalCommand => MG0
    case Motion => MG1
    case ProbeExplicit => MG1
    case NonmodalG38 => MG1
    case Plane => MG2
    case Distance => MG3
    case FeedRate => MG5
    case Units => MG6
    case ToolLength => MG8
    case CoordSelect => MG12
    case ProgramFlow => MM4
    case IoControl => MM5
    case ToolChange => MM6
    case SetToolNumber => MM6
    case Spindle => MM7
    case Coolant => MM8
    case Override => MM9
  }

  // A command sets fields of its own group only.
  predicate Local(e: Effect) {
    e.Command? ==> forall f :: f in e.updates ==> GroupOf(f) == e.group
  }

  lemma NonModalLocal(v: int, m: int)
    ensures Local(NonModalWord(v, m))
  {
  }

  lemma MotionLocal(cfg: Config, v: int, m: int)
    ensures Local(MotionWord(cfg, v, m))
  {
  }

  lemma ModalLocal(v: int, m: int)
    ensures Local(ModalWord(v, m))
  {
  }

  lemma GWordLocal(cfg: Config, v: int, m: int)
    ensures Local(GWord(cfg, v, m))
  {
    NonModalLocal(v, m);
    MotionLocal(cfg, v, m);
    ModalLocal(v, m);
    hide NonModalWord, MotionWord, ModalWord;
  }

  lemma MWordLocal(cfg: Config, v: int, m: int)
    ensures Local(MWord(cfg, v, m))
  {
  }

  lemma DecodeLocal(cfg: Config, w: Word)
    ensures Local(Decode(cfg, w))
  {
    GWordLocal(cfg, Trunc(w.value), Mantissa(w.value));
    MWordLocal(cfg, Trunc(w.value), Mantissa(w.value));
    hide GWord, MWord, Trunc, Mantissa;
  }

  predicate UsesAxis(e: Effect) {
    e.Command? && !e.use.Ignores?
  }

  // Alike: both refused, or both accepted with the same block.
  predicate Alike(r: Result, r': Result) {
    (r.Err? && r'.Err?) || (r == r')
  }

  function Then(r: Result, e: Effect): Result {
    if r.Ok? then Act(r.block, e) else r
  }

  lemma ActsCommute(b: Block, x: Effect, y: Effect)
    requires Local(x) && Local(y)
    requires UsesAxis(x) && UsesAxis(y) ==> x.group == y.group || (x.use.Claims? && y.use.Claims?)
    requires UsesAxis(x) && UsesAxis(y) ==> !x.use.command.NoCommand? && !y.use.command.NoCommand?
    ensures Alike(Then(Act(b, x), y), Then(Act(b, y), x))
  {
    if Act(b, x).Ok? && Act(b, y).Ok? {
      if x.Command? && y.Command? && x.group != y.group {
        assert b.fields + x.updates + y.updates == b.fields + y.updates + x.updates;
        assert b.groups + {x.group} + {y.group} == b.groups + {y.group} + {x.group};
      } else if x.Value? && y.Value? && x.letter != y.letter {
        assert b.values[x.letter := x.stored][y.letter := y.stored] == b.values[y.letter := y.stored][x.letter := x.stored];
      }
    }
  }

  // G0 to G3 set axis_command whatever it was; the others claim it.
  predicate SetsAxis(cfg: Config, w: Word) {
    var e := Decode(cfg, w);
    e.Command? && e.use.Sets?
  }

  predicate ClaimsAxis(cfg: Config, w: Word) {
    var e := Decode(cfg, w);
    e.Command? && e.use.Claims?
  }

  // A word of G0 to G3 and a word of another group that claims the axis words.
  predicate Mixed(cfg: Config, x: Word, y: Word) {
    SetsAxis(cfg, x) && ClaimsAxis(cfg, y) && Decode(cfg, x).group != Decode(cfg, y).group
  }

  lemma AxisCommands(cfg: Config, w: Word)
    ensures var e := Decode(cfg, w);
            (e.Command? && e.use.Sets? ==> e.group == MG1 && e.use.command == MotionMode)
            && (e.Command? && e.use.Claims? ==> !e.use.command.NoCommand?)
  {
    hide Trunc, Mantissa;
  }

  lemma StepsCommute(cfg: Config, b: Block, x: Word, y: Word)
    requires !Mixed(cfg, x, y) && !Mixed(cfg, y, x)
    ensures Alike(Then(Act(b, Decode(cfg, x)), Decode(cfg, y)), Then(Act(b, Decode(cfg, y)), Decode(cfg, x)))
  {
    DecodeLocal(cfg, x);
    DecodeLocal(cfg, y);
    AxisCommands(cfg, x);
    AxisCommands(cfg, y);
    hide Decode, Act;
    ActsCommute(b, Decode(cfg, x), Decode(cfg, y));
  }

  // ---- Permutations ----------------------------------------------------------------------------------------

  // No O word, and no word of G0 to G3 together with a word of another group that claims the axis words.
  predicate Unmixed(cfg: Config, words: seq<Word>) {
    && (forall w :: w in words ==> w.letter != 'O')
    && (forall x, y :: x in words && y in words ==> !Mixed(cfg, x, y))
  }

  lemma ActKeepsO(cfg: Config, b: Block, w: Word)
    requires 'O' !in b.values && w.letter != 'O'
    ensures Act(b, Decode(cfg, w)).Ok? ==> 'O' !in Act(b, Decode(cfg, w)).block.values
    ensures !Act(b, Decode(cfg, w)).ToFlowControl?
  {
    hide GWord, MWord, Trunc, Mantissa;
    assert Decode(cfg, w).Value? ==> Decode(cfg, w).letter == w.letter by {
      LetterKept(cfg, w);
    }
    hide Decode;
  }

  lemma LetterKept(cfg: Config, w: Word)
    ensures Decode(cfg, w).Value? ==> Decode(cfg, w).letter == w.letter
  {
    hide Trunc, Mantissa;
  }

  lemma {:induction false} SwapFront(cfg: Config, b: Block, x: Word, y: Word, rest: seq<Word>)
    requires 'O' !in b.values && x.letter != 'O' && y.letter != 'O'
    requires !Mixed(cfg, x, y) && !Mixed(cfg, y, x)
    ensures Alike(Parse(cfg, b, [x, y] + rest), Parse(cfg, b, [y, x] + rest))
  {
    StepsCommute(cfg, b, x, y);
    TwoSteps(cfg, b, x, y, rest);
    TwoSteps(cfg, b, y, x, rest);
    hide *;
    var r, r' := Then(Act(b, Decode(cfg, x)), Decode(cfg, y)), Then(Act(b, Decode(cfg, y)), Decode(cfg, x));
    assert Alike(r, r');
    AlikeParse(cfg, r, r', rest);
  }

  function Continue(cfg: Config, r: Result, rest: seq<Word>): Result {
    if r.Ok? then Parse(cfg, r.block, rest) else r
  }

  lemma TwoSteps(cfg: Config, b: Block, x: Word, y: Word, rest: seq<Word>)
    requires 'O' !in b.values && x.letter != 'O' && y.letter != 'O'
    ensures Parse(cfg, b, [x, y] + rest) == Continue(cfg, Then(Act(b, Decode(cfg, x)), Decode(cfg, y)), rest)
  {
    ActKeepsO(cfg, b, x);
    hide Decode, Act;
    assert ([x, y] + rest)[1..] == [y] + rest && ([y] + rest)[1..] == rest;
  }

  lemma AlikeParse(cfg: Config, r: Result, r': Result, rest: seq<Word>)
    requires Alike(r, r')
    ensures Alike(Continue(cfg, r, rest), Continue(cfg, r', rest))
  {
  }

  lemma {:induction false} AlikeFront(cfg: Config, b: Block, front: seq<Word>, x: seq<Word>, y: seq<Word>)
    requires 'O' !in b.values && forall w :: w in front ==> w.letter != 'O'
    requires forall c: Block :: 'O' !in c.values ==> Alike(Parse(cfg, c, x), Parse(cfg, c, y))
    ensures Alike(Parse(cfg, b, front + x), Parse(cfg, b, front + y))
    decreases |front|
  {
    hide Decode, Act;
    if front == [] {
      assert front + x == x && front + y == y;
    } else {
      assert (front + x)[1..] == front[1..] + x && (front + y)[1..] == front[1..] + y;
      ActKeepsO(cfg, b, front[0]);
      var r := Act(b, Decode(cfg, front[0]));
      if r.Ok? {
        AlikeFront(cfg, r.block, front[1..], x, y);
      }
    }
  }

  // A word can be moved to the front.
  lemma {:induction false} MoveToFront(cfg: Config, b: Block, front: seq<Word>, w: Word, rest: seq<Word>)
    requires 'O' !in b.values && Unmixed(cfg, front + [w] + rest)
    ensures Alike(Parse(cfg, b, front + [w] + rest), Parse(cfg, b, [w] + front + rest))
    decreases |front|
  {
    hide Parse, Decode, Act, Mixed;
    var all := front + [w] + rest;
    assert w in all;
    if front == [] {
      assert [] + [w] + rest == [w] + [] + rest;
    } else {
      var last := |front| - 1;
      var x := front[last];
      assert front == front[..last] + [x];
      assert x in all && forall v :: v in front[..last] ==> v in all;
      forall c: Block | 'O' !in c.values ensures Alike(Parse(cfg, c, [x, w] + rest), Parse(cfg, c, [w, x] + rest)) {
        SwapFront(cfg, c, x, w, rest);
      }
      AlikeFront(cfg, b, front[..last], [x, w] + rest, [w, x] + rest);
      assert front[..last] + ([x, w] + rest) == all;
      assert front[..last] + ([w, x] + rest) == front[..last] + [w] + ([x] + rest);
      assert forall v :: v in front[..last] + [w] + ([x] + rest) ==> v in all;
      MoveToFront(cfg, b, front[..last], w, [x] + rest);
      assert [w] + front[..last] + ([x] + rest) == [w] + front + rest;
      AlikeTrans(Parse(cfg, b, all), Parse(cfg, b, front[..last] + [w] + ([x] + rest)), Parse(cfg, b, [w] + front + rest));
    }
  }

  lemma AlikeTrans(r: Result, r': Result, r'': Result)
    requires Alike(r, r') && Alike(r', r'')
    ensures Alike(r, r'')
  {
  }

  lemma WithoutOne(front: seq<Word>, w: Word, rest: seq<Word>, tail: seq<Word>)
    requires multiset(front + [w] + rest) == multiset([w] + tail)
    ensures multiset(front + rest) == multiset(tail)
  {
    assert multiset(front + [w] + rest) == multiset(front + rest) + multiset{w};
    assert multiset([w] + tail) == multiset{w} + multiset(tail);
    assert multiset(front + rest) == multiset(front + [w] + rest) - multiset{w};
    assert multiset(tail) == multiset([w] + tail) - multiset{w};
  }

  lemma ParseFront(cfg: Config, b: Block, w: Word, rest: seq<Word>)
    requires 'O' !in b.values
    ensures Parse(cfg, b, [w] + rest) == Continue(cfg, Act(b, Decode(cfg, w)), rest)
  {
    assert ([w] + rest)[1..] == rest;
  }

  /** Word order does not matter: every permutation of an unmixed block is accepted or refused alike, and
      accepted with the same fields, groups, value words, values and axis command. */
  lemma {:induction false} OrderDoesNotMatter(cfg: Config, b: Block, words: seq<Word>, words': seq<Word>)
    requires 'O' !in b.values && Unmixed(cfg, words) && multiset(words) == multiset(words')
    ensures Alike(Parse(cfg, b, words), Parse(cfg, b, words'))
    decreases |words'|
  {
    hide Decode, Act, Mixed;
    if words' == [] {
      assert |multiset(words)| == 0;
    } else {
      hide Parse;
      var w, tail := words'[0], words'[1..];
      assert words' == [w] + tail;
      assert w in multiset(words');
      var i :| 0 <= i < |words| && words[i] == w;
      var front, rest := words[..i], words[i + 1..];
      assert words == front + [w] + rest;
      MoveToFront(cfg, b, front, w, rest);
      WithoutOne(front, w, rest, tail);
      assert [w] + front + rest == [w] + (front + rest);
      assert forall v :: v in front + rest ==> v in words;
      ParseFront(cfg, b, w, front + rest);
      ParseFront(cfg, b, w, tail);
      ActKeepsO(cfg, b, w);
      var r := Act(b, Decode(cfg, w));
      if r.Ok? {
        OrderDoesNotMatter(cfg, r.block, front + rest, tail);
      }
      AlikeTrans(Parse(cfg, b, words), Parse(cfg, b, [w] + (front + rest)), Parse(cfg, b, words'));
    }
  }

  lemma {:induction false} ClaimFails(cfg: Config, b: Block, words: seq<Word>, claim: Word)
    requires !b.axisCommand.NoCommand? && 'O' !in b.values && claim in words && ClaimsAxis(cfg, claim)
    requires forall w :: w in words ==> w.letter != 'O'
    ensures Parse(cfg, b, words).Err?
    decreases |words|
  {
    var e := Decode(cfg, words[0]);
    ActKeepsO(cfg, b, words[0]);
    AxisCommands(cfg, words[0]);
    hide Decode;
    if Act(b, e).Ok? {
      assert words[0] != claim && claim in words[1..];
      assert forall w :: w in words[1..] ==> w in words;
      ClaimFails(cfg, Act(b, e).block, words[1..], claim);
    }
  }

  /** Mixed blocks are the ones where it does: an accepted block with a mixed pair is refused when its word
      of G0 to G3 comes first. */
  lemma MixedOrderMatters(cfg: Config, b: Block, front: seq<Word>, motion: Word, rest: seq<Word>, claim: Word)
    requires 'O' !in b.values && forall w :: w in front + [motion] + rest ==> w.letter != 'O'
    requires claim in front + rest && Mixed(cfg, motion, claim)
    requires Parse(cfg, b, front + [motion] + rest).Ok?
    ensures Parse(cfg, b, [motion] + front + rest).Err?
  {
    AxisCommands(cfg, motion);
    var words := [motion] + front + rest;
    assert words[1..] == front + rest && words[0] == motion;
    assert motion in front + [motion] + rest;
    assert forall w :: w in front + rest ==> w in front + [motion] + rest;
    ActKeepsO(cfg, b, motion);
    hide Decode;
    var r := Act(b, Decode(cfg, motion));
    if r.Ok? {
      ClaimFails(cfg, r.block, front + rest, claim);
    }
  }

  // ---- Accepted blocks -------------------------------------------------------------------------------------

  predicate NoRepeats(cfg: Config, words: seq<Word>) {
    forall i, j :: 0 <= i < j < |words| ==>
      var x, y := Decode(cfg, words[i]), Decode(cfg, words[j]);
      (x.Command? && y.Command? ==> x.group != y.group) && (x.Value? && y.Value? ==> x.letter != y.letter)
  }

  /** An accepted block has at most one command of each modal group and at most one word of each letter, and
      the masks hold exactly these. */
  lemma {:induction false} AcceptedOncePerGroup(cfg: Config, b: Block, words: seq<Word>)
    requires Parse(cfg, b, words).Ok?
    ensures var r := Parse(cfg, b, words).block;
            && NoRepeats(cfg, words)
            && (forall i :: 0 <= i < |words| ==> Taken(r, Decode(cfg, words[i])) && !Taken(b, Decode(cfg, words[i])))
            && (forall g :: g in r.groups ==> g in b.groups || exists w :: w in words && Decode(cfg, w).Command? && Decode(cfg, w).group == g)
            && (forall c :: c in r.values ==> c in b.values || exists w :: w in words && Decode(cfg, w).Value? && Decode(cfg, w).letter == c)
            && b.groups <= r.groups && b.values.Keys <= r.values.Keys
    decreases |words|
  {
    hide Decode;
    if words != [] {
      var e := Decode(cfg, words[0]);
      var next := Act(b, e).block;
      AcceptedOncePerGroup(cfg, next, words[1..]);
      var r := Parse(cfg, b, words).block;
      assert Taken(next, e) && !Taken(b, e);
      forall j | 0 < j < |words| ensures Taken(r, Decode(cfg, words[j])) && !Taken(next, Decode(cfg, words[j])) {
        assert words[j] == words[1..][j - 1];
      }
      forall i, j | 0 < i < j < |words|
        ensures var x, y := Decode(cfg, words[i]), Decode(cfg, words[j]);
                (x.Command? && y.Command? ==> x.group != y.group) && (x.Value? && y.Value? ==> x.letter != y.letter)
      {
        assert words[i] == words[1..][i - 1] && words[j] == words[1..][j - 1];
      }
      assert words[0] in words;
      assert forall w :: w in words[1..] ==> w in words;
    }
  }

  // Whether the masks already show what the word would set.
  predicate Taken(b: Block, e: Effect) {
    (e.Command? ==> e.group in b.groups) && (e.Value? ==> e.letter in b.values) && !e.Refused?
  }

  // ---- Choosing a work coordinate system -------------------------------------------------------------------

  // G54 to G59, with or without a fraction.
  predicate SelectsSystem(w: Word) {
    w.letter == 'G' && 54 <= Trunc(w.value) <= 59
  }

  lemma SelectDecodes(cfg: Config, w: Word)
    requires SelectsSystem(w)
    ensures var e := Decode(cfg, w);
            e.Command? && e.group == MG12 && CoordSelect in e.updates && (e.fault.Some? <==> Mantissa(w.value) > 0)
            && (e.fault.None? ==> e.updates[CoordSelect] == Trunc(w.value) - 54)
  {
    hide Trunc, Mantissa;
    if Trunc(w.value) == 59 {
      FractionsAreMultiples(w.value);
    }
  }

  // Between 59 and 60 no fraction is negative.
  lemma FractionsAreMultiples(x: real)
    requires Trunc(x) == 59
    ensures Mantissa(x) >= 0
  {
  }

  /** A word G54 to G59 with a fraction is refused wherever it stands: G59.1, G59.2 and G59.3 select nothing. */
  lemma {:induction false} FractionIsRefused(cfg: Config, b: Block, words: seq<Word>, w: Word)
    requires 'O' !in b.values && forall v :: v in words ==> v.letter != 'O'
    requires w in words && SelectsSystem(w) && Mantissa(w.value) > 0
    ensures Parse(cfg, b, words).Err?
    decreases |words|
  {
    SelectDecodes(cfg, w);
    ActKeepsO(cfg, b, words[0]);
    hide Decode, SelectsSystem, Mantissa;
    var r := Act(b, Decode(cfg, words[0]));
    if r.Ok? {
      assert words[0] != w && w in words[1..];
      assert forall v :: v in words[1..] ==> v in words;
      FractionIsRefused(cfg, r.block, words[1..], w);
    }
  }

  // Once a system is chosen no later word changes it.
  lemma {:induction false} SelectionStays(cfg: Config, b: Block, words: seq<Word>)
    requires Parse(cfg, b, words).Ok? && MG12 in b.groups && CoordSelect in b.fields
    ensures var r := Parse(cfg, b, words).block; CoordSelect in r.fields && r.fields[CoordSelect] == b.fields[CoordSelect]
    decreases |words|
  {
    hide Decode;
    if words != [] {
      DecodeLocal(cfg, words[0]);
      SelectionStays(cfg, Act(b, Decode(cfg, words[0])).block, words[1..]);
    }
  }

  /** In an accepted block a word G54 to G59 has no fraction and selects the system of its number, so one
      of the first six. */
  lemma {:induction false} SelectsItsSystem(cfg: Config, b: Block, words: seq<Word>, w: Word)
    requires Parse(cfg, b, words).Ok? && w in words && SelectsSystem(w)
    ensures Mantissa(w.value) <= 0
    ensures var r := Parse(cfg, b, words).block; CoordSelect in r.fields && r.fields[CoordSelect] == Trunc(w.value) - 54
    decreases |words|
  {
    SelectDecodes(cfg, w);
    hide Decode, SelectsSystem, Mantissa, Trunc;
    var r := Act(b, Decode(cfg, words[0]));
    if words[0] == w {
      SelectionStays(cfg, r.block, words[1..]);
    } else {
      assert w in words[1..];
      SelectsItsSystem(cfg, r.block, words[1..], w);
    }
  }

  /** The word alone: it is accepted, and selects, if and only if it has no fraction. */
  lemma SelectExact(cfg: Config, b: Block, w: Word)
    requires SelectsSystem(w) && 'O' !in b.values && MG12 !in b.groups
    ensures Parse(cfg, b, [w]).Ok? <==> Mantissa(w.value) <= 0
    ensures Parse(cfg, b, [w]).Ok? ==> CoordSelect in Parse(cfg, b, [w]).block.fields
                                       && Parse(cfg, b, [w]).block.fields[CoordSelect] == Trunc(w.value) - 54
  {
    SelectDecodes(cfg, w);
    hide Decode, SelectsSystem, Mantissa, Trunc;
    if Mantissa(w.value) > 0 {
      assert Act(b, Decode(cfg, w)).Err?;
    }
    assert [w][1..] == [];
  }

  // G59.1 is such a word.
  lemma FirstFractionIsRefused(cfg: Config, b: Block)
    requires 'O' !in b.values
    ensures Parse(cfg, b, [Word('G', 59.1)]).Err?
  {
    assert Trunc(59.1) == 59;
    assert Round(10.0) == 10;
    FractionIsRefused(cfg, b, [Word('G', 59.1)], Word('G', 59.1));
  }

  // ---- The program -----------------------------------------------------------------------------------------

  class BlockParser {
    const cfg: Config
    var nonModalCommand: int
    var motion: int
    var probeExplicit: int
    var nonmodalG38: int
    var plane: int
    var distance: int
    var feedRate: int
    var units: int
    var toolLength: int
    var coordSelect: int
    var programFlow: int
    var ioControl: int
    var toolChange: int
    var setToolNumber: int
    var spindle: int
    var coolant: int
    var override: int
    var axisCommand: AxisCommand
    var commandWords: set<ModalGroup>
    var valueWords: set<char>
    var axisWords: set<nat>
    var values: map<char, real>

    ghost predicate Valid()
      reads this
    {
      valueWords == values.Keys
    }

    // axis_words follows from the value words.
    ghost predicate AxesTracked()
      reads this
    {
      axisWords == set c | c in values && AxisIndex(c).Some? :: AxisIndex(c).value
    }

    ghost function Fields(): map<Field, int>
      reads this`nonModalCommand, this`motion, this`probeExplicit, this`nonmodalG38, this`plane, this`distance
      reads this`feedRate, this`units, this`toolLength, this`coordSelect, this`programFlow, this`ioControl
      reads this`toolChange, this`setToolNumber, this`spindle, this`coolant, this`override
    {
      map[NonModalCommand := nonModalCommand, Motion := motion, ProbeExplicit := probeExplicit, NonmodalG38 := nonmodalG38,
          Plane := plane, Distance := distance, FeedRate := feedRate, Units := units, ToolLength := toolLength,
          CoordSelect := coordSelect, ProgramFlow := programFlow, IoControl := ioControl, ToolChange := toolChange,
          SetToolNumber := setToolNumber, Spindle := spindle, Coolant := coolant, Override := override]
    }

    ghost function State(): Block
      reads this
    {
      Block(Fields(), commandWords, values, axisCommand)
    }

    // The block as gc_execute_line starts it, from the modes in effect.
    constructor (cfg: Config, motion: int, plane: int, distance: int, feedRate: int, units: int, toolLength: int,
                 coordSelect: int, spindle: int, override: int)
      ensures Valid() && AxesTracked() && commandWords == {} && valueWords == {} && axisCommand == NoCommand && this.cfg == cfg
    {
      this.cfg := cfg;
      this.motion, this.plane, this.distance, this.feedRate := motion, plane, distance, feedRate;
      this.units, this.toolLength, this.coordSelect := units, toolLength, coordSelect;
      this.spindle, this.override := spindle, override;
      nonModalCommand, probeExplicit, nonmodalG38, programFlow, ioControl := 0, 0, 0, 0, 0;
      toolChange, setToolNumber, coolant := 0, 0, 0;
      axisCommand, commandWords, valueWords, axisWords, values := NoCommand, {}, {}, {}, map[];
    }

    method SetField(f: Field, code: int)
      modifies this
      ensures Fields() == old(Fields())[f := code] && OnlyFields()
    {
      if f.NonModalCommand? || f.Motion? || f.ProbeExplicit? || f.NonmodalG38? {
        SetMotionField(f, code);
      } else if f.Plane? || f.Distance? || f.FeedRate? || f.Units? {
        SetModeField(f, code);
      } else {
        SetOtherField(f, code);
      }
    }

    twostate predicate OnlyFields()
      reads this
    {
      axisCommand == old(axisCommand) && commandWords == old(commandWords) && valueWords == old(valueWords)
      && axisWords == old(axisWords) && values == old(values)
    }

    method SetMotionField(f: Field, code: int)
      requires f.NonModalCommand? || f.Motion? || f.ProbeExplicit? || f.NonmodalG38?
      modifies this
      ensures Fields() == old(Fields())[f := code] && OnlyFields()
    {
      match f {
        case NonModalCommand => nonModalCommand := code;
        case Motion => motion := code;
        case ProbeExplicit => probeExplicit := code;
        case NonmodalG38 => nonmodalG38 := code;
      }
    }

    method SetModeField(f: Field, code: int)
      requires f.Plane? || f.Distance? || f.FeedRate? || f.Units?
      modifies this
      ensures Fields() == old(Fields())[f := code] && OnlyFields()
    {
      match f {
        case Plane => plane := code;
        case Distance => distance := code;
        case FeedRate => feedRate := code;
        case Units => units := code;
      }
    }

    method SetOtherField(f: Field, code: int)
      requires !f.NonModalCommand? && !f.Motion? && !f.ProbeExplicit? && !f.NonmodalG38? && !f.Plane? && !f.Distance?
               && !f.FeedRate? && !f.Units?
      modifies this
      ensures Fields() == old(Fields())[f := code] && OnlyFields()
    {
      match f {
        case ToolLength => toolLength := code;
        case CoordSelect => coordSelect := code;
        case ProgramFlow => programFlow := code;
        case IoControl => ioControl := code;
        case ToolChange => toolChange := code;
        case SetToolNumber => setToolNumber := code;
        case Spindle => spindle := code;
        case Coolant => coolant := code;
        case Override => override := code;
      }
    }

    // The axis words are taken by this command, unless another one has them.
    method Claim(command: AxisCommand) returns (ok: bool)
      modifies this`axisCommand
      ensures ok == old(axisCommand).NoCommand? && axisCommand == if ok then command else old(axisCommand)
    {
      ok := axisCommand.NoCommand?;
      if ok {
        axisCommand := command;
      }
    }

    // What a group of cases of the switch leaves: an error, or the group and the mantissa still to check.
    ghost predicate Switched(was: Block, e: Effect, error: Option<Error>, group: ModalGroup, m: int)
      reads this
    {
      && Valid() && commandWords == was.groups && values == was.values
      && Perform(was, e) ==
         (if error.Some? then Err(error.value)
          else if m > 0 then Err(GcodeCommandValueNotInteger)
          else Ok(State()))
      && (error.None? && m <= 0 ==> e.Command? && group == e.group)
    }

    method NonModalCases(v: int, mantissa: int) returns (error: Option<Error>, group: ModalGroup, m: int)
      requires Valid() && IsNonModal(v)
      modifies this
      ensures Switched(old(State()), NonModalWord(v, mantissa), error, group, m) && axisWords == old(axisWords)
    {
      hide Fields;
      error, group, m := None, MG0, mantissa;
      if v == 10 {
        SetField(NonModalCommand, 100);
        if m == 0 {
          var ok := Claim(NonModal);
          if !ok {
            return Some(GcodeAxisCommandConflict), group, m;
          }
        }
      } else if v == 4 {
        SetField(NonModalCommand, 40);
      } else if v == 53 {
        SetField(NonModalCommand, 530);
      } else {
        SetField(NonModalCommand, if m != 0 then v * 10 + 1 else v * 10);
        if m == 0 {
          var ok := Claim(NonModal);
          if !ok {
            return Some(GcodeAxisCommandConflict), group, m;
          }
        } else if m == 10 {
          m := 0;
        } else {
          return Some(GcodeUnsupportedCommand), group, m;
        }
      }
    }

    method ProbeCase(mantissa: int) returns (error: Option<Error>, group: ModalGroup, m: int)
      requires Valid()
      modifies this
      ensures Switched(old(State()), MotionWord(cfg, 38, mantissa), error, group, m) && axisWords == old(axisWords)
    {
      hide Fields;
      error, group, m := None, MG1, mantissa;
      if !cfg.hasProbe {
        return Some(GcodeUnsupportedCommand), group, m;
      }
      var ok := Claim(MotionMode);
      if !ok {
        return Some(GcodeAxisCommandConflict), group, m;
      }
      SetField(ProbeExplicit, 1);
      SetField(NonmodalG38, if m >= 60 then 1 else 0);
      if m >= 60 {
        m := m - 40;
      }
      if m == 20 {
        SetField(Motion, 382);
      } else if m == 30 {
        SetField(Motion, 383);
      } else if m == 40 {
        SetField(Motion, 384);
      } else if m == 50 {
        SetField(Motion, 385);
      } else {
        return Some(GcodeUnsupportedCommand), group, m;
      }
      ThreeUpdates(old(Fields()), 380 + m / 10, if mantissa >= 60 then 1 else 0);
      m := 0;
    }

    method MotionCases(v: int, mantissa: int) returns (error: Option<Error>, group: ModalGroup, m: int)
      requires Valid() && IsMotion(v)
      modifies this
      ensures Switched(old(State()), MotionWord(cfg, v, mantissa), error, group, m) && axisWords == old(axisWords)
    {
      hide Fields;
      error, group, m := None, MG1, mantissa;
      if v == 38 {
        error, group, m := ProbeCase(mantissa);
      } else if v == 80 {
        SetField(Motion, 800);
      } else {
        axisCommand := MotionMode;
        SetField(Motion, v * 10);
      }
    }

    method LengthOffsetCases(v: int, mantissa: int) returns (error: Option<Error>, group: ModalGroup, m: int)
      requires Valid() && (v == 43 || v == 49)
      modifies this
      ensures Switched(old(State()), ModalWord(v, mantissa), error, group, m) && axisWords == old(axisWords)
    {
      hide Fields;
      error, group, m := None, MG8, mantissa;
      var ok := Claim(ToolLengthOffset);
      if !ok {
        return Some(GcodeAxisCommandConflict), group, m;
      }
      if v == 49 {
        SetField(ToolLength, 490);
      } else if m == 10 {
        SetField(ToolLength, 431);
      } else {
        return Some(GcodeUnsupportedCommand), group, m;
      }
      m := 0;
    }

    method DistanceCases(v: int, mantissa: int) returns (error: Option<Error>, group: ModalGroup, m: int)
      requires Valid() && 90 <= v <= 91
      modifies this
      ensures Switched(old(State()), ModalWord(v, mantissa), error, group, m) && axisWords == old(axisWords)
    {
      hide Fields;
      error, group, m := None, MG3, mantissa;
      if m == 0 {
        SetField(Distance, v * 10);
      } else if v == 91 && m == 10 {
        m := 0;
        group := MG4;
      } else {
        return Some(GcodeUnsupportedCommand), group, m;
      }
    }

    method CoordCases(v: int, m: int) returns (group: ModalGroup)
      requires Valid() && 54 <= v <= 59
      modifies this
      ensures Switched(old(State()), ModalWord(v, m), None, group, m) && axisWords == old(axisWords)
    {
      hide Fields;
      group := MG12;
      if v <= 58 {
        SetField(CoordSelect, v - 54);
      } else {
        SetField(CoordSelect, if m == 10 then 6 else if m == 20 then 7 else if m == 30 then 8 else 5);
      }
    }

    method ModalCases(v: int, mantissa: int) returns (error: Option<Error>, group: ModalGroup, m: int)
      requires Valid()
      modifies this
      ensures Switched(old(State()), ModalWord(v, mantissa), error, group, m) && axisWords == old(axisWords)
    {
      hide Fields;
      error, group, m := None, MG13, mantissa;
      if 17 <= v <= 19 {
        SetField(Plane, v * 10);
        group := MG2;
      } else if 90 <= v <= 91 {
        error, group, m := DistanceCases(v, mantissa);
      } else if 93 <= v <= 94 {
        SetField(FeedRate, v * 10);
        group := MG5;
      } else if 20 <= v <= 21 {
        SetField(Units, v * 10);
        group := MG6;
      } else if v == 40 {
        group := MG7;
      } else if v == 43 || v == 49 {
        error, group, m := LengthOffsetCases(v, mantissa);
      } else if 54 <= v <= 59 {
        group := CoordCases(v, m);
      } else if v == 61 {
        if m != 0 {
          return Some(GcodeUnsupportedCommand), group, m;
        }
      } else {
        return Some(GcodeUnsupportedCommand), group, m;
      }
    }

    method SpindleCases(v: int, m: int) returns (error: Option<Error>)
      requires Valid() && 3 <= v <= 5 && m <= 0
      modifies this
      ensures Switched(old(State()), MWord(cfg, v, m), error, MM7, 0) && axisWords == old(axisWords)
    {
      hide Fields;
      error := None;
      if v == 4 && !cfg.reversible {
        return Some(GcodeUnsupportedCommand);
      }
      SetField(Spindle, v);
    }

    method CoolantCases(v: int, m: int) returns (error: Option<Error>)
      requires Valid() && 7 <= v <= 9
      modifies this
      ensures Switched(old(State()), CoolantWord(cfg, v, m), error, MM8, 0) && axisWords == old(axisWords)
    {
      hide Fields;
      error := None;
      if v != 9 && m != 0 && m != 10 {
        return Some(GcodeUnsupportedCommand);
      }
      if (v == 7 && cfg.hasMist) || (v == 8 && cfg.hasFlood) || (v == 9 && (cfg.hasFlood || cfg.hasMist)) {
        SetField(Coolant, v - 6);
      }
    }

    method ProgramFlowCases(v: int, m: int)
      requires Valid() && (v == 0 || v == 1 || v == 2 || v == 30) && m <= 0
      modifies this
      ensures Switched(old(State()), MWord(cfg, v, m), None, MM4, 0) && axisWords == old(axisWords)
    {
      hide Fields;
      if v == 0 {
        SetField(ProgramFlow, 3);
      } else if v != 1 {
        SetField(ProgramFlow, v);
      }
    }

    method MCases(v: int, m: int) returns (error: Option<Error>, group: ModalGroup)
      requires Valid()
      modifies this
      ensures Switched(old(State()), MWord(cfg, v, m), error, group, 0) && axisWords == old(axisWords)
    {
      hide Fields, CoolantWord;
      error, group := None, MM4;
      if m > 0 && !(v == 7 || v == 8) {
        return Some(GcodeCommandValueNotInteger), group;
      }
      if v == 0 || v == 1 || v == 2 || v == 30 {
        ProgramFlowCases(v, m);
      } else if 3 <= v <= 5 {
        error := SpindleCases(v, m);
        group := MM7;
      } else if v == 6 {
        SetField(ToolChange, 1);
        group := MM6;
      } else if 7 <= v <= 9 {
        error := CoolantCases(v, m);
        group := MM8;
      } else if v == 56 {
        if !cfg.parkingOverride {
          return Some(GcodeUnsupportedCommand), group;
        }
        SetField(Override, 0);
        group := MM9;
      } else if v == 61 {
        SetField(SetToolNumber, 1);
        group := MM6;
      } else if 62 <= v <= 68 {
        SetField(IoControl, v - 61);
        group := MM5;
      } else {
        return Some(GcodeUnsupportedCommand), group;
      }
    }

    method CommandWord(letter: char, v: int, m: int) returns (error: Option<Error>)
      requires Valid() && (letter == 'G' || letter == 'M')
      modifies this
      ensures Valid() && axisWords == old(axisWords) && values == old(values)
      ensures Act(old(State()), if letter == 'G' then GWord(cfg, v, m) else MWord(cfg, v, m)) ==
              if error.Some? then Err(error.value) else Ok(State())
    {
      hide Fields, NonModalWord, MotionWord, ModalWord, MWord;
      var group: ModalGroup;
      if letter == 'G' {
        var rest: int;
        if IsNonModal(v) {
          error, group, rest := NonModalCases(v, m);
        } else if IsMotion(v) {
          error, group, rest := MotionCases(v, m);
        } else {
          error, group, rest := ModalCases(v, m);
        }
        if error.Some? {
          return;
        }
        if rest > 0 {
          return Some(GcodeCommandValueNotInteger);
        }
      } else {
        error, group := MCases(v, m);
        if error.Some? {
          return;
        }
      }
      if group in commandWords {
        return Some(GcodeModalGroupViolation);
      }
      commandWords := commandWords + {group};
    }

    method NonCommandWord(letter: char, x: real) returns (error: Option<Error>)
      requires Valid()
      modifies this`values, this`valueWords, this`axisWords
      ensures Valid() && Act(old(State()), ValueWord(cfg, letter, x)) == if error.Some? then Err(error.value) else Ok(State())
      ensures error.None? && old(AxesTracked()) ==> AxesTracked()
    {
      hide Fields, Trunc, Mantissa;
      var stored := x;
      if AxisIndex(letter).Some? {
        if AxisIndex(letter).value >= cfg.axes {
          return Some(GcodeUnsupportedCommand);
        }
      } else if PlainValue(letter) {
      } else if letter == 'E' || letter == 'L' {
        stored := (Trunc(x) % 256) as real;
      } else if letter == 'N' {
        stored := Trunc(x) as real;
      } else if letter == 'O' {
        if Mantissa(x) > 0 {
          return Some(GcodeCommandValueNotInteger);
        }
        stored := Trunc(x) as real;
      } else if letter == 'T' {
        if x > MAX_TOOL_NUMBER {
          return Some(GcodeMaxValueExceeded);
        }
        stored := Trunc(x) as real;
      } else {
        return Some(GcodeUnsupportedCommand);
      }
      if letter in valueWords {
        return Some(GcodeWordRepeated);
      }
      if NeverNegative(letter) && x < 0.0 {
        return Some(NegativeValue);
      }
      valueWords := valueWords + {letter};
      values := values[letter := stored];
      if AxisIndex(letter).Some? {
        axisWords := axisWords + {AxisIndex(letter).value};
      }
      return None;
    }

    /** The word loop: it ends with an error, with the parsed block, or at an O word. */
    method ParseWords(words: seq<Word>) returns (error: Option<Error>, rest: seq<Word>)
      requires Valid() && AxesTracked()
      modifies this
      ensures Valid()
      ensures Parse(cfg, old(State()), words) ==
              if error.Some? then Err(error.value) else if rest == [] then Ok(State()) else ToFlowControl(State(), rest)
      ensures error.None? ==> AxesTracked()
    {
      hide Fields, GWord, MWord, ValueWord, Act, Trunc, Mantissa;
      error, rest := None, [];
      var pos := 0;
      assert words[0..] == words;
      while pos < |words|
        invariant pos <= |words| && Valid() && AxesTracked() && error.None? && rest == []
        invariant Parse(cfg, State(), words[pos..]) == Parse(cfg, old(State()), words)
      {
        if 'O' in valueWords {
          rest := words[pos..];
          return;
        }
        var w := words[pos];
        assert words[pos..][1..] == words[pos + 1..];
        if !('A' <= w.letter <= 'Z') {
          RefusedWord(cfg, State(), w, ExpectedCommandLetter);
          error := Some(ExpectedCommandLetter);
          return;
        }
        if w.letter == 'G' || w.letter == 'M' {
          ghost var was := axisWords;
          error := CommandWord(w.letter, Trunc(w.value), Mantissa(w.value));
        } else {
          error := NonCommandWord(w.letter, w.value);
        }
        if error.Some? {
          return;
        }
        pos := pos + 1;
      }
    }
  }

  lemma RefusedWord(cfg: Config, b: Block, w: Word, error: Error)
    requires Decode(cfg, w) == Refused(error)
    ensures Act(b, Decode(cfg, w)) == Err(error)
  {
  }

  lemma ThreeUpdates(f: map<Field, int>, motion: int, nonmodal: int)
    ensures f[ProbeExplicit := 1][NonmodalG38 := nonmodal][Motion := motion] ==
            f + map[Motion := motion, ProbeExplicit := 1, NonmodalG38 := nonmodal]
  {
  }
}
