/** Work and machine coordinates in FluidNC/src/GCode.cpp: the stored coordinate systems, the cached
    copy of the selected one, the G92 and tool length offsets, and what a block does to them. Lengths
    are reals; vectors have one entry for each configured axis. */
module GCodeCoords {
  import opened Options

  const NWC_SYSTEMS := 9  // G54 .. G59.3
  const G28_POS := 9
  const G30_POS := 10
  const TLO_POS := 12
  const STORES := 13
  const MAX_N_AXIS := 9
  const MM_PER_INCH := 25.4

  type Vec = seq<real>

  datatype NonModal =
    | NoAction | Dwell | SetCoordinateData | GoHome0 | SetHome0 | GoHome1 | SetHome1 | AbsoluteOverride
    | SetCoordinateOffset | ResetCoordinateOffset

  datatype AxisCommand = NoCommand | AxisNonModal | MotionMode | LengthOffset
  datatype Motion = Seek | Linear | Arc | Probe | NoMotion
  // A numbered parameter assignment; `Unknown` is refused, `Other` does not touch coordinates.
  datatype Assign = ToStore(index: nat, axis: nat, value: real) | ToSelect(index: nat) | Other | Unknown

  // What a probe cycle reports: that it never started (no probe, already tripped, check mode set so), that
  // it reached the target, or where it met something; a P word asks for the offset of one axis.
  datatype Probing = NotStarted | Missed | Contact(position: Vec, offset: Option<(nat, real)>)

  datatype Status =
    | Ok | NoAxisWords | ValueWordMissing | UnsupportedCommand | UnsupportedCoordSys | G53InvalidMotionMode
    | AxisWordsExist | Reset | ParameterAssignmentFailed | OtherError

  // A block as its words leave it. `fault` stands for every check that is not about coordinates: before
  // anything is executed, or by an I/O command in the course of it.
  datatype Fault = NoFault | InChecks | InCommands

  datatype Block = Block(
    words: seq<Option<real>>,   // axis words as programmed
    select: Option<nat>,        // G54 .. G59
    inches: bool,               // units in effect
    absolute: bool,             // distance mode in effect
    nonModal: NonModal,
    hasP: bool, hasL: bool, hasR: bool, l: int, p: real,
    axisCommand: AxisCommand,
    motion: Motion,
    probeExplicit: bool,
    nonmodalG38: bool,
    dynamicOffset: bool,        // G43.1 rather than G49
    programEnd: bool,           // M2, M30
    assigns: seq<Assign>,
    jog: bool,
    fault: Fault,
    abort: bool,                // the system is aborted during the motion, or the jog is cancelled in flight
    probing: Probing)

  datatype Parser = Parser(
    stored: seq<Vec>,           // coords[]
    select: nat,                // modal.coord_select
    system: Vec,                // coord_system
    offset: Vec,                // coord_offset, G92
    tlo: Vec,                   // tool_length_offset
    position: Vec,
    inches: bool,
    pending: seq<Assign>)       // assignments not yet performed

  // ---- Well-formed states and blocks ---------------------------------------------------------------------

  predicate Shaped(s: Parser, n: nat) {
    && |s.stored| == STORES && (forall v :: v in s.stored ==> |v| == n)
    && |s.system| == |s.offset| == |s.tlo| == |s.position| == n <= MAX_N_AXIS && s.select < NWC_SYSTEMS
    && (forall a :: a in s.pending ==> AssignOk(a))
  }

  predicate AssignOk(a: Assign) {
    (a.ToStore? ==> a.index < STORES && a.axis < MAX_N_AXIS) && (a.ToSelect? ==> a.index < NWC_SYSTEMS)
  }

  predicate BlockOk(b: Block, n: nat) {
    && |b.words| == n && (b.select.Some? ==> b.select.value < 6) && b.p >= 0.0
    && (!b.hasP ==> b.p == 0.0) && (!b.hasL ==> b.l == 0)
    && (forall a :: a in b.assigns ==> AssignOk(a))
    && (b.probing.Contact? ==> |b.probing.position| == n && (b.probing.offset.Some? ==> b.probing.offset.value.0 < n))
  }

  // ---- Checks: the values a block works with ---------------------------------------------------------------

  predicate IsLinear(axis: nat) { axis < 3 || axis > 5 }

  function ToMm(inches: bool, axis: nat, v: real): real {
    if inches && IsLinear(axis) then v * MM_PER_INCH else v
  }

  predicate Named(b: Block, axis: nat)
    requires axis < |b.words|
  {
    b.words[axis].Some?
  }

  predicate HasAxisWords(b: Block) {
    exists i :: 0 <= i < |b.words| && b.words[i].Some?
  }

  // The axis words in millimetres, zero where there is none.
  function Values(b: Block): (r: Vec)
    ensures |r| == |b.words|
  {
    seq(|b.words|, axis requires 0 <= axis < |b.words| =>
      if b.words[axis].Some? then ToMm(b.inches && !b.nonmodalG38, axis, b.words[axis].value) else 0.0)
  }

  function BlockSelect(s: Parser, b: Block): nat {
    if b.select.Some? then b.select.value else s.select
  }

  function BlockSystem(s: Parser, b: Block): (r: Vec)
    requires Shaped(s, |b.words|) && BlockOk(b, |b.words|)
    ensures |r| == |b.words|
  {
    if BlockSelect(s, b) != s.select then s.stored[BlockSelect(s, b)] else s.system
  }

  // int8_t and uint8_t conversions of the P word.
  function PValue(p: real): nat
    requires p >= 0.0
  {
    p.Floor % 256
  }

  function G10Select(s: Parser, b: Block): nat
    requires b.p >= 0.0
  {
    if PValue(b.p) > 0 then PValue(b.p) - 1 else BlockSelect(s, b)
  }

  function G10Data(s: Parser, b: Block): (r: Vec)
    requires Shaped(s, |b.words|) && BlockOk(b, |b.words|) && G10Select(s, b) < NWC_SYSTEMS
    ensures |r| == |b.words|
  {
    seq(|b.words|, axis requires 0 <= axis < |b.words| =>
      if !Named(b, axis) then s.stored[G10Select(s, b)][axis]
      else if b.l == 20 then s.position[axis] - s.offset[axis] - Values(b)[axis] - s.tlo[axis]
      else Values(b)[axis])
  }

  function G92Offsets(s: Parser, b: Block): (r: Vec)
    requires Shaped(s, |b.words|) && BlockOk(b, |b.words|)
    ensures |r| == |b.words|
  {
    seq(|b.words|, axis requires 0 <= axis < |b.words| =>
      if Named(b, axis) then s.position[axis] - BlockSystem(s, b)[axis] - Values(b)[axis] - s.tlo[axis]
      else s.offset[axis])
  }

  function Target(s: Parser, b: Block): (r: Vec)
    requires Shaped(s, |b.words|) && BlockOk(b, |b.words|)
    ensures |r| == |b.words|
  {
    seq(|b.words|, axis requires 0 <= axis < |b.words| =>
      if !Named(b, axis) then s.position[axis]
      else if b.nonModal.AbsoluteOverride? then Values(b)[axis]
      else if !b.nonmodalG38 && b.absolute then
        Values(b)[axis] + (BlockSystem(s, b)[axis] + s.offset[axis]) + s.tlo[axis]
      else Values(b)[axis] + s.position[axis])
  }

  function HomeData(s: Parser, b: Block): (r: Vec)
    requires Shaped(s, |b.words|) && BlockOk(b, |b.words|)
    ensures |r| == |b.words|
  {
    var home := s.stored[if b.nonModal.GoHome0? then G28_POS else G30_POS];
    seq(|b.words|, axis requires 0 <= axis < |b.words| =>
      if HasAxisWords(b) && !Named(b, axis) then s.position[axis] else home[axis])
  }

  function Zeros(n: nat): Vec {
    seq(n, i => 0.0)
  }

  // What the checks hand to the execution.
  datatype Plan = Reject(error: Status) | Plan(xyz: Vec, coordData: Vec, axisCommand: AxisCommand)

  // axis_command after the motion checks.
  function Command(b: Block): AxisCommand {
    if (b.nonModal.GoHome0? || b.nonModal.GoHome1?) && !HasAxisWords(b) then NoCommand
    else if b.axisCommand.MotionMode? && (b.motion.Seek? || b.motion.Linear?) && !HasAxisWords(b) then NoCommand
    else b.axisCommand
  }

  function Checks(s: Parser, b: Block): (r: Plan)
    requires Shaped(s, |b.words|) && BlockOk(b, |b.words|)
    ensures if r.Plan? then |r.xyz| == |r.coordData| == |b.words| else r.error != Ok
  {
    var n := |b.words|;
    if b.fault.InChecks? then Reject(OtherError)
    else if b.nonModal.SetCoordinateData? then
      if !HasAxisWords(b) then Reject(NoAxisWords)
      else if !b.hasP && !b.hasL then Reject(ValueWordMissing)
      else if b.l != 20 && (b.l != 2 || b.hasR) then Reject(UnsupportedCommand)
      else if G10Select(s, b) >= NWC_SYSTEMS then Reject(UnsupportedCoordSys)
      else if b.motion.NoMotion? then Reject(AxisWordsExist)
      else Plan(Values(b), G10Data(s, b), Command(b))
    else if b.nonModal.SetCoordinateOffset? then
      if !HasAxisWords(b) then Reject(NoAxisWords)
      else if b.motion.NoMotion? then Reject(AxisWordsExist)
      else Plan(G92Offsets(s, b), Zeros(n), Command(b))
    else if b.nonModal.AbsoluteOverride? && !(b.probeExplicit || b.motion.Seek? || b.motion.Linear?) then
      Reject(G53InvalidMotionMode)
    else if b.motion.NoMotion? && HasAxisWords(b) then Reject(AxisWordsExist)
    else
      Plan(if b.axisCommand.LengthOffset? || !HasAxisWords(b) then Values(b) else Target(s, b),
           if b.nonModal.GoHome0? || b.nonModal.GoHome1? then HomeData(s, b) else Zeros(n), Command(b))
  }

  // ---- Execution -------------------------------------------------------------------------------------------

  function NewLengthOffset(s: Parser, b: Block, xyz: Vec): (r: Vec)
    requires Shaped(s, |b.words|) && |xyz| == |b.words|
    ensures |r| == |b.words|
  {
    if !b.dynamicOffset then Zeros(|b.words|)
    else
      seq(|b.words|, axis requires 0 <= axis < |b.words| => if Named(b, axis) then xyz[axis] else s.tlo[axis])
  }

  function DoLengthOffset(s: Parser, b: Block, plan: Plan): (r: Parser)
    requires Shaped(s, |b.words|) && plan.Plan? && |plan.xyz| == |b.words|
    ensures Shaped(r, |b.words|)
  {
    if plan.axisCommand.LengthOffset? then
      var tlo := NewLengthOffset(s, b, plan.xyz);
      s.(tlo := tlo, stored := s.stored[TLO_POS := tlo])
    else s
  }

  function DoSelect(s: Parser, b: Block, blockSystem: Vec): (r: Parser)
    requires Shaped(s, |b.words|) && BlockOk(b, |b.words|) && |blockSystem| == |b.words|
    ensures Shaped(r, |b.words|)
  {
    if s.select != BlockSelect(s, b) then s.(select := BlockSelect(s, b), system := blockSystem) else s
  }

  function DoNonModal(s: Parser, b: Block, plan: Plan, g10Select: nat): (r: Parser)
    requires Shaped(s, |b.words|) && plan.Plan? && |plan.xyz| == |plan.coordData| == |b.words|
    requires b.nonModal.SetCoordinateData? ==> g10Select < NWC_SYSTEMS
    ensures Shaped(r, |b.words|)
  {
    match b.nonModal
    case SetCoordinateData =>
      s.(stored := s.stored[g10Select := plan.coordData], system := if s.select == g10Select then plan.coordData else s.system)
    case GoHome0 => s.(position := plan.coordData)
    case GoHome1 => s.(position := plan.coordData)
    case SetHome0 => s.(stored := s.stored[G28_POS := s.position])
    case SetHome1 => s.(stored := s.stored[G30_POS := s.position])
    case SetCoordinateOffset => s.(offset := plan.xyz)
    case ResetCoordinateOffset => s.(offset := Zeros(|b.words|))
    case NoAction => s
    case Dwell => s
    case AbsoluteOverride => s
  }

  // The end of a probe cycle; P makes the contact the origin of one axis of the selected system.
  function DoProbe(s: Parser, b: Block, xyz: Vec): (r: Parser)
    requires Shaped(s, |b.words|) && BlockOk(b, |b.words|) && |xyz| == |b.words|
    ensures Shaped(r, |b.words|)
  {
    if b.probing.NotStarted? then s
    else if b.probing.Missed? then s.(position := xyz)
    else if b.probing.offset.None? then s.(position := b.probing.position)
    else
      var (axis, offset) := b.probing.offset.value;
      var data := s.stored[s.select][axis := b.probing.position[axis] - offset];
      s.(stored := s.stored[s.select := data], system := data, position := b.probing.position)
  }

  predicate Moves(b: Block, plan: Plan)
    requires plan.Plan?
  {
    !b.motion.NoMotion? && plan.axisCommand.MotionMode?
  }

  function DoMotion(s: Parser, b: Block, plan: Plan): (r: Parser)
    requires Shaped(s, |b.words|) && BlockOk(b, |b.words|) && plan.Plan? && |plan.xyz| == |b.words|
    ensures Shaped(r, |b.words|)
  {
    if !Moves(b, plan) || b.abort then s
    else if b.motion.Probe? then DoProbe(s, b, plan.xyz)
    else s.(position := plan.xyz)
  }

  function DoProgramEnd(s: Parser, b: Block, checkMode: bool): (r: Parser)
    requires Shaped(s, |b.words|)
    ensures Shaped(r, |b.words|)
  {
    if !b.programEnd then s
    else s.(select := 0, system := if checkMode then s.system else s.stored[0])
  }

  function Perform(s: Parser, a: Assign): Parser
    requires |s.stored| == STORES && AssignOk(a)
  {
    match a
    case ToStore(index, axis, value) =>
      if axis < |s.stored[index]| then
        s.(stored := s.stored[index := s.stored[index][axis := ToMm(s.inches, axis, value)]])
      else s
    case ToSelect(index) => s.(select := index)
    case Other => s
    case Unknown => s
  }

  function PerformAll(s: Parser, assigns: seq<Assign>, n: nat): (r: Parser)
    requires Shaped(s, n) && forall a :: a in assigns ==> AssignOk(a)
    ensures Shaped(r, n)
    decreases |assigns|
  {
    if assigns == [] then s else PerformAll(Perform(s, assigns[0]), assigns[1..], n)
  }

  // A line up to its program flow.
  function Commands(s: Parser, b: Block, plan: Plan): (r: Parser)
    requires Shaped(s, |b.words|) && BlockOk(b, |b.words|) && plan == Checks(s, b) && plan.Plan?
    ensures Shaped(r, |b.words|)
  {
    var s1 := DoLengthOffset(s.(inches := b.inches), b, plan);
    var s2 := DoSelect(s1, b, BlockSystem(s, b));
    var s3 := DoNonModal(s2, b, plan, if b.nonModal.SetCoordinateData? then G10Select(s, b) else 0);
    DoMotion(s3, b, plan)
  }

  // One line: its status and the state it leaves.
  function ExecuteLine(s: Parser, b: Block, checkMode: bool): (r: (Status, Parser))
    requires Shaped(s, |b.words|) && BlockOk(b, |b.words|)
    ensures Shaped(r.1, |b.words|)
  {
    var queued := s.(pending := s.pending + b.assigns);
    var plan := Checks(queued, b);
    if plan.Reject? then (plan.error, queued)
    else if b.jog then
      if b.fault.InCommands? then (OtherError, queued)
      else (Ok, if b.abort then queued else queued.(position := plan.xyz))
    else if b.fault.InCommands? then (OtherError, queued)
    else
      var s1 := Commands(queued, b, plan);
      if Moves(b, plan) && b.abort then (Reset, s1)
      else
        var s2 := DoProgramEnd(s1, b, checkMode);
        (if Unknown in s2.pending then ParameterAssignmentFailed else Ok,
         PerformAll(s2.(pending := []), s2.pending, |b.words|))
  }

  // ---- The cached coordinate system ------------------------------------------------------------------------

  predicate Cached(s: Parser)
    requires |s.stored| == STORES && s.select < NWC_SYSTEMS
  {
    s.system == s.stored[s.select]
  }

  // Assignments that touch neither the selection nor a work coordinate system.
  predicate Quiet(a: Assign) {
    !a.ToSelect? && (a.ToStore? ==> a.index >= NWC_SYSTEMS)
  }

  lemma LengthOffsetKeepsCache(s: Parser, b: Block, plan: Plan)
    requires Shaped(s, |b.words|) && plan.Plan? && |plan.xyz| == |b.words|
    ensures (Cached(s) ==> Cached(DoLengthOffset(s, b, plan))) && DoLengthOffset(s, b, plan).pending == s.pending
  {
  }

  lemma SelectKeepsCache(s: Parser, b: Block, blockSystem: Vec)
    requires Shaped(s, |b.words|) && BlockOk(b, |b.words|) && |blockSystem| == |b.words|
    requires BlockSelect(s, b) != s.select ==> blockSystem == s.stored[BlockSelect(s, b)]
    ensures (Cached(s) ==> Cached(DoSelect(s, b, blockSystem))) && DoSelect(s, b, blockSystem).pending == s.pending
  {
  }

  lemma NonModalKeepsCache(s: Parser, b: Block, plan: Plan, g10Select: nat)
    requires Shaped(s, |b.words|) && plan.Plan? && |plan.xyz| == |plan.coordData| == |b.words|
    requires b.nonModal.SetCoordinateData? ==> g10Select < NWC_SYSTEMS
    ensures (Cached(s) ==> Cached(DoNonModal(s, b, plan, g10Select))) && DoNonModal(s, b, plan, g10Select).pending == s.pending
  {
  }

  lemma MotionKeepsCache(s: Parser, b: Block, plan: Plan)
    requires Shaped(s, |b.words|) && BlockOk(b, |b.words|) && plan.Plan? && |plan.xyz| == |b.words|
    ensures (Cached(s) ==> Cached(DoMotion(s, b, plan))) && DoMotion(s, b, plan).pending == s.pending
  {
  }

  lemma CommandsKeepCache(s: Parser, b: Block, plan: Plan)
    requires Shaped(s, |b.words|) && BlockOk(b, |b.words|) && plan == Checks(s, b) && plan.Plan?
    ensures (Cached(s) ==> Cached(Commands(s, b, plan))) && Commands(s, b, plan).pending == s.pending
  {
    hide DoLengthOffset, DoSelect, DoNonModal, DoMotion, Cached;
    var s0 := s.(inches := b.inches);
    CachedInches(s, b.inches);
    LengthOffsetKeepsCache(s0, b, plan);
    var s1 := DoLengthOffset(s0, b, plan);
    assert BlockSelect(s1, b) == BlockSelect(s, b) && s1.select == s.select && s1.stored[..TLO_POS] == s.stored[..TLO_POS] by {
      LengthOffsetElsewhere(s0, b, plan);
    }
    assert forall i :: 0 <= i < TLO_POS ==> s1.stored[i] == s1.stored[..TLO_POS][i];
    SelectKeepsCache(s1, b, BlockSystem(s, b));
    var s2 := DoSelect(s1, b, BlockSystem(s, b));
    var g := if b.nonModal.SetCoordinateData? then G10Select(s, b) else 0;
    NonModalKeepsCache(s2, b, plan, g);
    MotionKeepsCache(DoNonModal(s2, b, plan, g), b, plan);
  }

  lemma CachedInches(s: Parser, inches: bool)
    requires |s.stored| == STORES && s.select < NWC_SYSTEMS
    ensures Cached(s.(inches := inches)) == Cached(s)
  {
  }

  lemma LengthOffsetElsewhere(s: Parser, b: Block, plan: Plan)
    requires Shaped(s, |b.words|) && plan.Plan? && |plan.xyz| == |b.words|
    ensures var r := DoLengthOffset(s, b, plan); r.select == s.select && r.stored[..TLO_POS] == s.stored[..TLO_POS]
  {
  }

  lemma {:induction false} QuietKeepsCache(s: Parser, assigns: seq<Assign>, n: nat)
    requires Shaped(s, n) && Cached(s) && forall a :: a in assigns ==> AssignOk(a) && Quiet(a)
    ensures Cached(PerformAll(s, assigns, n)) && PerformAll(s, assigns, n).pending == s.pending
    decreases |assigns|
  {
    if assigns != [] {
      QuietKeepsCache(Perform(s, assigns[0]), assigns[1..], n);
    }
  }

  /** The cached system is the stored one for the selection after every line, accepted or rejected at any
      point, as long as assignments stay quiet and no M2 or M30 is run in check mode. */
  lemma LineKeepsCache(s: Parser, b: Block, checkMode: bool)
    requires Shaped(s, |b.words|) && BlockOk(b, |b.words|) && Cached(s)
    requires (forall a :: a in s.pending ==> Quiet(a)) && (forall a :: a in b.assigns ==> Quiet(a))
    requires !(checkMode && b.programEnd)
    ensures var s' := ExecuteLine(s, b, checkMode).1; Cached(s') && forall a :: a in s'.pending ==> Quiet(a)
  {
    hide Checks, Commands, PerformAll;
    var queued := s.(pending := s.pending + b.assigns);
    var plan := Checks(queued, b);
    if plan.Plan? {
      CommandsKeepCache(queued, b, plan);
      var s2 := DoProgramEnd(Commands(queued, b, plan), b, checkMode);
      QuietKeepsCache(s2.(pending := []), s2.pending, |b.words|);
    }
  }

  /** An assignment keeps a right cache right if and only if it selects a system with the values of the
      one selected now, or writes to it a value that is there already, or does neither. */
  lemma AssignExact(s: Parser, a: Assign, n: nat)
    requires Shaped(s, n) && AssignOk(a) && Cached(s)
    ensures Cached(Perform(s, a)) <==>
            && (a.ToSelect? ==> s.stored[a.index] == s.stored[s.select])
            && (a.ToStore? && a.index == s.select && a.axis < n ==> ToMm(s.inches, a.axis, a.value) == s.system[a.axis])
  {
    if a.ToStore? && a.index == s.select && a.axis < n {
      var data := s.stored[s.select][a.axis := ToMm(s.inches, a.axis, a.value)];
      assert Perform(s, a).stored[s.select] == data;
      assert data == s.system <==> data[a.axis] == s.system[a.axis];
    }
  }

  // What a list of assignments leaves selected, and in an axis of a system: what the last one of it says.
  function FinalSelect(assigns: seq<Assign>, select: nat): nat
    decreases |assigns|
  {
    if assigns == [] then select
    else
      var last := assigns[|assigns| - 1];
      if last.ToSelect? then last.index else FinalSelect(assigns[..|assigns| - 1], select)
  }

  function FinalValue(assigns: seq<Assign>, inches: bool, index: nat, axis: nat, value: real): real
    decreases |assigns|
  {
    if assigns == [] then value
    else
      var last := assigns[|assigns| - 1];
      if last.ToStore? && last.index == index && last.axis == axis then ToMm(inches, axis, last.value)
      else FinalValue(assigns[..|assigns| - 1], inches, index, axis, value)
  }

  lemma PerformShaped(s: Parser, a: Assign, n: nat)
    requires Shaped(s, n) && AssignOk(a)
    ensures Shaped(Perform(s, a), n)
  {
  }

  lemma {:induction false} PerformLast(s: Parser, assigns: seq<Assign>, last: Assign, n: nat)
    requires Shaped(s, n) && AssignOk(last) && forall a :: a in assigns ==> AssignOk(a)
    ensures PerformAll(s, assigns + [last], n) == Perform(PerformAll(s, assigns, n), last)
    decreases |assigns|
  {
    if assigns == [] {
      assert ([] + [last])[1..] == [];
    } else {
      assert assigns[0] in assigns;
      PerformShaped(s, assigns[0], n);
      hide Perform, Shaped;
      assert (assigns + [last])[1..] == assigns[1..] + [last];
      PerformLast(Perform(s, assigns[0]), assigns[1..], last, n);
    }
  }

  lemma {:induction false} PerformAllIsFinal(s: Parser, assigns: seq<Assign>, n: nat, index: nat, axis: nat)
    requires Shaped(s, n) && index < STORES && axis < n && forall a :: a in assigns ==> AssignOk(a)
    ensures var r := PerformAll(s, assigns, n);
            && r.select == FinalSelect(assigns, s.select) && r.system == s.system && r.inches == s.inches
            && r.stored[index][axis] == FinalValue(assigns, s.inches, index, axis, s.stored[index][axis])
    decreases |assigns|
  {
    if assigns != [] {
      var front, last := assigns[..|assigns| - 1], assigns[|assigns| - 1];
      assert assigns == front + [last];
      PerformLast(s, front, last, n);
      PerformAllIsFinal(s, front, n, index, axis);
      hide PerformAll;
    }
  }

  /** The same for any list of assignments: after them a right cache is right if and only if the system
      last selected is left, axis by axis, with the values of the one selected before. */
  lemma AssignsExact(s: Parser, assigns: seq<Assign>, n: nat)
    requires Shaped(s, n) && Cached(s) && forall a :: a in assigns ==> AssignOk(a)
    ensures FinalSelect(assigns, s.select) < NWC_SYSTEMS
    ensures Cached(PerformAll(s, assigns, n)) <==>
            var k := FinalSelect(assigns, s.select);
            forall axis: nat | axis < n :: FinalValue(assigns, s.inches, k, axis, s.stored[k][axis]) == s.stored[s.select][axis]
  {
    FinalSelectOk(assigns, s.select);
    var r, k := PerformAll(s, assigns, n), FinalSelect(assigns, s.select);
    forall axis: nat | axis < n
      ensures r.stored[k][axis] == FinalValue(assigns, s.inches, k, axis, s.stored[k][axis]) && r.select == k && r.system == s.system
    {
      PerformAllIsFinal(s, assigns, n, k, axis);
    }
    PerformAllFrame(s, assigns, n);
    hide PerformAll, FinalValue, FinalSelect;
    assert |r.stored[k]| == n == |r.system|;
    assert r.stored[k] == r.system <==> forall axis: nat | axis < n :: r.stored[k][axis] == r.system[axis];
  }

  lemma {:induction false} PerformAllFrame(s: Parser, assigns: seq<Assign>, n: nat)
    requires Shaped(s, n) && forall a :: a in assigns ==> AssignOk(a)
    ensures var r := PerformAll(s, assigns, n); r.select == FinalSelect(assigns, s.select) && r.system == s.system
    decreases |assigns|
  {
    if assigns != [] {
      var front, last := assigns[..|assigns| - 1], assigns[|assigns| - 1];
      assert assigns == front + [last];
      PerformLast(s, front, last, n);
      PerformAllFrame(s, front, n);
      hide PerformAll;
    }
  }

  lemma {:induction false} FinalSelectOk(assigns: seq<Assign>, select: nat)
    requires select < NWC_SYSTEMS && forall a :: a in assigns ==> AssignOk(a)
    ensures FinalSelect(assigns, select) < NWC_SYSTEMS
    decreases |assigns|
  {
    if assigns != [] {
      assert assigns[|assigns| - 1] in assigns;
      FinalSelectOk(assigns[..|assigns| - 1], select);
    }
  }

  // ---- Where the cache is left behind ---------------------------------------------------------------------

  // gc_init: everything zero, G54 selected and cached.
  function Init(stored: seq<Vec>, n: nat): (r: Parser)
    requires n <= MAX_N_AXIS && |stored| == STORES && forall v :: v in stored ==> |v| == n
    ensures Shaped(r, n) && Cached(r)
  {
    Parser(stored, 0, stored[0], Zeros(n), Zeros(n), Zeros(n), false, [])
  }

  // A line that changes nothing, G90 say.
  function Idle(n: nat): (b: Block)
    ensures BlockOk(b, n) && !HasAxisWords(b)
  {
    Block(seq(n, i => None), None, false, true, NoAction, false, false, false, 0, 0.0, NoCommand, Seek,
          false, false, false, false, [], false, NoFault, false, NotStarted)
  }

  // A line that gives no command.
  predicate NoCommands(b: Block) {
    b.nonModal.NoAction? && b.motion.Seek? && b.axisCommand.NoCommand? && b.select.None? && !b.jog && b.fault.NoFault?
    && !HasAxisWords(b)
  }

  lemma NoCommandsLine(s: Parser, b: Block, checkMode: bool)
    requires Shaped(s, |b.words|) && BlockOk(b, |b.words|) && NoCommands(b)
    ensures ExecuteLine(s, b, checkMode)
         == var queued := s.(pending := s.pending + b.assigns, inches := b.inches);
            var last := DoProgramEnd(queued, b, checkMode);
            (if Unknown in last.pending then ParameterAssignmentFailed else Ok,
             PerformAll(last.(pending := []), last.pending, |b.words|))
  {
    hide PerformAll, DoProgramEnd, Values, Target, HomeData;
    var queued := s.(pending := s.pending + b.assigns);
    assert Commands(queued, b, Checks(queued, b)) == queued.(inches := b.inches);
  }

  /** M2 or M30 in check mode selects G54 and leaves the cache alone: after any such line that is accepted,
      the cache is right if and only if G54 holds the values of the system the line ran in. */
  lemma CheckModeEndExact(s: Parser, b: Block)
    requires Shaped(s, |b.words|) && BlockOk(b, |b.words|) && Cached(s) && b.programEnd && !b.jog
    requires (forall a :: a in s.pending ==> Quiet(a)) && (forall a :: a in b.assigns ==> Quiet(a))
    requires ExecuteLine(s, b, true).0 == Ok
    ensures var s' := ExecuteLine(s, b, true).1;
            s'.select == 0 && (Cached(s') <==> s'.stored[0] == s'.stored[BlockSelect(s, b)])
  {
    hide Checks, Commands, PerformAll;
    var queued := s.(pending := s.pending + b.assigns);
    var plan := Checks(queued, b);
    CommandsKeepCache(queued, b, plan);
    CommandsSelect(queued, b, plan);
    var s1 := Commands(queued, b, plan);
    QuietKeepsSystems(DoProgramEnd(s1, b, true).(pending := []), s1.pending, |b.words|);
  }

  /** For a line that stores no work coordinate system, the condition is one on the state before it. */
  lemma CheckModeEndBefore(s: Parser, b: Block)
    requires Shaped(s, |b.words|) && BlockOk(b, |b.words|) && Cached(s) && b.programEnd && !b.jog
    requires (forall a :: a in s.pending ==> Quiet(a)) && (forall a :: a in b.assigns ==> Quiet(a))
    requires !b.nonModal.SetCoordinateData? && !(b.motion.Probe? && b.probing.Contact? && b.probing.offset.Some?)
    requires ExecuteLine(s, b, true).0 == Ok
    ensures Cached(ExecuteLine(s, b, true).1) <==> s.stored[0] == s.stored[BlockSelect(s, b)]
  {
    CheckModeEndExact(s, b);
    hide Checks, Commands, PerformAll;
    var queued := s.(pending := s.pending + b.assigns);
    var plan := Checks(queued, b);
    CommandsKeepCache(queued, b, plan);
    CommandsKeepSystems(queued, b, plan);
    var s1 := Commands(queued, b, plan);
    QuietKeepsSystems(DoProgramEnd(s1, b, true).(pending := []), s1.pending, |b.words|);
  }

  lemma CommandsKeepSystems(s: Parser, b: Block, plan: Plan)
    requires Shaped(s, |b.words|) && BlockOk(b, |b.words|) && plan == Checks(s, b) && plan.Plan?
    requires !b.nonModal.SetCoordinateData? && !(b.motion.Probe? && b.probing.Contact? && b.probing.offset.Some?)
    ensures forall i :: 0 <= i < NWC_SYSTEMS ==> Commands(s, b, plan).stored[i] == s.stored[i]
  {
    hide Checks, NewLengthOffset, BlockSystem;
  }

  lemma CommandsSelect(s: Parser, b: Block, plan: Plan)
    requires Shaped(s, |b.words|) && BlockOk(b, |b.words|) && plan == Checks(s, b) && plan.Plan?
    ensures Commands(s, b, plan).select == BlockSelect(s, b)
  {
    hide Checks, NewLengthOffset, BlockSystem;
  }

  lemma {:induction false} QuietKeepsSystems(s: Parser, assigns: seq<Assign>, n: nat)
    requires Shaped(s, n) && forall a :: a in assigns ==> AssignOk(a) && Quiet(a)
    ensures var r := PerformAll(s, assigns, n);
            && r.select == s.select && r.system == s.system && r.pending == s.pending
            && forall i :: 0 <= i < NWC_SYSTEMS ==> r.stored[i] == s.stored[i]
    decreases |assigns|
  {
    if assigns != [] {
      QuietKeepsSystems(Perform(s, assigns[0]), assigns[1..], n);
    }
  }

  // G55 X10 stored and selected, then M2 in check mode: G54 is selected, and G55 is still the one in use.
  lemma CheckModeEndLeavesCache(n: nat)
    requires 0 < n <= MAX_N_AXIS
    ensures var g55 := Zeros(n)[0 := 10.0];
            var s := Init(seq(STORES, i => Zeros(n))[1 := g55], n).(select := 1, system := g55);
            var r := ExecuteLine(s, Idle(n).(programEnd := true), true);
            Cached(s) && r.0 == Ok && !Cached(r.1) && r.1.system[0] == 10.0
  {
    var g55 := Zeros(n)[0 := 10.0];
    var s := Init(seq(STORES, i => Zeros(n))[1 := g55], n).(select := 1, system := g55);
    var b := Idle(n).(programEnd := true);
    NoCommandsLine(s, b, true);
    assert s.pending + b.assigns == [] && s.stored[0] == Zeros(n) && s.stored[1] == g55;
    hide ExecuteLine, Zeros;
    var r := ExecuteLine(s, b, true);
    assert r.1 == DoProgramEnd(s.(inches := false), b, true);
    assert g55[0] == 10.0 && Zeros(n)[0] == 0.0 by { ZeroAt(n); }
  }

  lemma ZeroAt(n: nat)
    requires n > 0
    ensures Zeros(n)[0] == 0.0
  {
  }

  // #5221=10 right after gc_init is accepted and leaves the cache behind.
  lemma AssignmentLeavesCache(n: nat)
    requires 0 < n <= MAX_N_AXIS
    ensures var s := Init(seq(STORES, i => Zeros(n)), n);
            var r := ExecuteLine(s, Idle(n).(assigns := [ToStore(0, 0, 10.0)]), false);
            r.0 == Ok && !Cached(r.1) && r.1.stored[0][0] == 10.0 && r.1.system[0] == 0.0
  {
    var s := Init(seq(STORES, i => Zeros(n)), n);
    NoCommandsLine(s, Idle(n).(assigns := [ToStore(0, 0, 10.0)]), false);
  }

  // #5220 reads as one more than what writing it selects, so this is the line #5220=#5220.
  function SelfAssign(s: Parser, b: Block): Block {
    b.(assigns := [ToSelect(s.select + 1)])
  }

  // That line, k times in a row.
  function SelfAssigned(s: Parser, b: Block, k: nat): (r: Parser)
    requires Shaped(s, |b.words|) && BlockOk(b, |b.words|) && NoCommands(b) && !b.programEnd
    requires s.pending == [] && s.select + k < NWC_SYSTEMS
    ensures Shaped(r, |b.words|) && r == s.(select := s.select + k, inches := if k == 0 then s.inches else b.inches)
  {
    if k == 0 then s
    else
      var t := SelfAssigned(s, b, k - 1);
      NoCommandsLine(t, SelfAssign(t, b), false);
      assert [ToSelect(t.select + 1)][1..] == [];
      ExecuteLine(t, SelfAssign(t, b), false).1
  }

  /** #5220=#5220 is not without effect: run k times it is accepted each time and selects the k-th next
      system, while the cache still holds the first; it is right if and only if the two are equal. */
  lemma SelfAssignMovesOn(s: Parser, b: Block, k: nat)
    requires Shaped(s, |b.words|) && BlockOk(b, |b.words|) && NoCommands(b) && !b.programEnd
    requires s.pending == [] && 0 < k && s.select + k < NWC_SYSTEMS && Cached(s)
    ensures var t := SelfAssigned(s, b, k - 1);
            ExecuteLine(t, SelfAssign(t, b), false) == (Ok, SelfAssigned(s, b, k))
    ensures var r := SelfAssigned(s, b, k);
            r.select == s.select + k && (Cached(r) <==> s.stored[s.select + k] == s.stored[s.select])
  {
    var t := SelfAssigned(s, b, k - 1);
    NoCommandsLine(t, SelfAssign(t, b), false);
  }

  // ---- Assignments of a rejected line ---------------------------------------------------------------------

  // Two lines in two states that are alike but for their assignments and those pending.
  predicate Alike(s: Parser, b: Block, t: Parser, c: Block) {
    && Shaped(s, |b.words|) && BlockOk(b, |b.words|) && Shaped(t, |b.words|) && BlockOk(c, |b.words|)
    && t == s.(pending := t.pending) && c == b.(assigns := c.assigns)
  }

  lemma ValuesApart(s: Parser, b: Block, t: Parser, c: Block)
    requires Alike(s, b, t, c)
    ensures Values(c) == Values(b) && HasAxisWords(c) == HasAxisWords(b) && BlockSystem(t, c) == BlockSystem(s, b)
  {
  }

  lemma ChecksApart(s: Parser, b: Block, t: Parser, c: Block)
    requires Alike(s, b, t, c)
    ensures Checks(t, c) == Checks(s, b)
  {
    hide Values, HasAxisWords, BlockSystem;
    ValuesApart(s, b, t, c);
    assert Target(t, c) == Target(s, b);
    assert G92Offsets(t, c) == G92Offsets(s, b);
    assert HomeData(t, c) == HomeData(s, b);
    assert G10Select(s, b) < NWC_SYSTEMS ==> G10Data(t, c) == G10Data(s, b);
    hide Target, G92Offsets, HomeData, G10Data;
  }

  lemma LengthOffsetApart(s: Parser, b: Block, t: Parser, c: Block, plan: Plan)
    requires Alike(s, b, t, c) && plan.Plan? && |plan.xyz| == |b.words|
    ensures Alike(DoLengthOffset(s, b, plan), b, DoLengthOffset(t, c, plan), c)
  {
    assert NewLengthOffset(t, c, plan.xyz) == NewLengthOffset(s, b, plan.xyz);
  }

  lemma SelectApart(s: Parser, b: Block, t: Parser, c: Block, blockSystem: Vec)
    requires Alike(s, b, t, c) && |blockSystem| == |b.words|
    ensures Alike(DoSelect(s, b, blockSystem), b, DoSelect(t, c, blockSystem), c)
  {
  }

  lemma NonModalApart(s: Parser, b: Block, t: Parser, c: Block, plan: Plan, g10Select: nat)
    requires Alike(s, b, t, c) && plan.Plan? && |plan.xyz| == |plan.coordData| == |b.words|
    requires b.nonModal.SetCoordinateData? ==> g10Select < NWC_SYSTEMS
    ensures Alike(DoNonModal(s, b, plan, g10Select), b, DoNonModal(t, c, plan, g10Select), c)
  {
  }

  lemma MotionApart(s: Parser, b: Block, t: Parser, c: Block, plan: Plan)
    requires Alike(s, b, t, c) && plan.Plan? && |plan.xyz| == |b.words|
    ensures Alike(DoMotion(s, b, plan), b, DoMotion(t, c, plan), c)
  {
  }

  lemma CommandsApart(s: Parser, b: Block, t: Parser, c: Block)
    requires Alike(s, b, t, c) && Checks(s, b).Plan?
    ensures Checks(t, c) == Checks(s, b) && Alike(Commands(s, b, Checks(s, b)), b, Commands(t, c, Checks(t, c)), c)
  {
    hide BlockSystem, DoLengthOffset, DoSelect, DoNonModal, DoMotion, Values, HasAxisWords;
    assert b.nonModal.SetCoordinateData? ==> G10Select(s, b) < NWC_SYSTEMS;
    hide Checks;
    var plan := Checks(s, b);
    ChecksApart(s, b, t, c);
    ValuesApart(s, b, t, c);
    var s0, t0 := s.(inches := b.inches), t.(inches := b.inches);
    LengthOffsetApart(s0, b, t0, c, plan);
    var s1, t1 := DoLengthOffset(s0, b, plan), DoLengthOffset(t0, c, plan);
    var system := BlockSystem(s, b);
    SelectApart(s1, b, t1, c, system);
    var s2, t2 := DoSelect(s1, b, system), DoSelect(t1, c, system);
    var g := if b.nonModal.SetCoordinateData? then G10Select(s, b) else 0;
    NonModalApart(s2, b, t2, c, plan, g);
    MotionApart(DoNonModal(s2, b, plan, g), b, DoNonModal(t2, c, plan, g), c, plan);
  }

  /** A line rejected by any check leaves its assignments pending: it and the line after it, whatever that
      is, do together what the second line does with the assignments of both. */
  lemma RejectedThenNext(s: Parser, b: Block, next: Block, checkMode: bool)
    requires Shaped(s, |b.words|) && BlockOk(b, |b.words|) && |next.words| == |b.words| && BlockOk(next, |b.words|)
    requires ExecuteLine(s, b, checkMode).0 !in {Ok, Reset, ParameterAssignmentFailed}
    ensures ExecuteLine(ExecuteLine(s, b, checkMode).1, next, checkMode)
         == ExecuteLine(s, next.(assigns := b.assigns + next.assigns), checkMode)
  {
    hide Checks, Commands, PerformAll;
    var t, joined := ExecuteLine(s, b, checkMode).1, next.(assigns := b.assigns + next.assigns);
    var queued := s.(pending := s.pending + joined.assigns);
    assert t == s.(pending := s.pending + b.assigns);
    assert t.(pending := t.pending + next.assigns) == queued;
    ChecksApart(queued, next, queued, joined);
    if Checks(queued, next).Plan? {
      CommandsApart(queued, next, queued, joined);
      CommandsKeepCache(queued, next, Checks(queued, next));
      CommandsKeepCache(queued, joined, Checks(queued, next));
    }
  }

  // G92 #5221=10 is rejected for want of an axis word; a mere G90 after it stores the 10.
  lemma RejectedAssignmentIsPerformed(n: nat)
    requires 0 < n <= MAX_N_AXIS
    ensures var s := Init(seq(STORES, i => Zeros(n)), n);
            var r1 := ExecuteLine(s, Idle(n).(nonModal := SetCoordinateOffset, axisCommand := AxisNonModal,
                                               assigns := [ToStore(0, 0, 10.0)]), false);
            var r2 := ExecuteLine(r1.1, Idle(n), false);
            r1.0 == NoAxisWords && r2.0 == Ok && r1.1.stored == s.stored && r2.1.stored[0][0] == 10.0
  {
    var s := Init(seq(STORES, i => Zeros(n)), n);
    var b := Idle(n).(nonModal := SetCoordinateOffset, axisCommand := AxisNonModal, assigns := [ToStore(0, 0, 10.0)]);
    assert ExecuteLine(s, b, false).0 == NoAxisWords && ExecuteLine(s, b, false).1.stored == s.stored;
    RejectedThenNext(s, b, Idle(n), false);
    assert b.assigns + Idle(n).assigns == b.assigns;
    AssignmentLeavesCache(n);
  }

  datatype Line = Line(block: Block, checkMode: bool)

  predicate LinesOk(lines: seq<Line>, n: nat) {
    forall l :: l in lines ==> |l.block.words| == n && BlockOk(l.block, n)
  }

  function RunLines(s: Parser, lines: seq<Line>, n: nat): (r: Parser)
    requires Shaped(s, n) && LinesOk(lines, n)
    ensures Shaped(r, n)
    decreases |lines|
  {
    if lines == [] then s else RunLines(ExecuteLine(s, lines[0].block, lines[0].checkMode).1, lines[1..], n)
  }

  /** Over whole jobs: from gc_init on, the cache is right after every line. */
  lemma {:induction false} CacheOverRuns(s: Parser, lines: seq<Line>, n: nat)
    requires Shaped(s, n) && LinesOk(lines, n) && Cached(s) && forall a :: a in s.pending ==> Quiet(a)
    requires forall l :: l in lines ==>
               !(l.checkMode && l.block.programEnd) && forall a :: a in l.block.assigns ==> Quiet(a)
    ensures Cached(RunLines(s, lines, n))
    decreases |lines|
  {
    hide ExecuteLine, Cached;
    if lines != [] {
      LineKeepsCache(s, lines[0].block, lines[0].checkMode);
      CacheOverRuns(ExecuteLine(s, lines[0].block, lines[0].checkMode).1, lines[1..], n);
    }
  }

  // ---- Work positions --------------------------------------------------------------------------------------

  function WorkPosition(s: Parser, axis: nat): real
    requires axis < |s.position| && |s.system| == |s.offset| == |s.tlo| == |s.position|
  {
    s.position[axis] - s.system[axis] - s.offset[axis] - s.tlo[axis]
  }

  // A block that only sets coordinates.
  predicate Setting(b: Block) {
    b.axisCommand.AxisNonModal? && !b.programEnd && b.assigns == [] && !b.jog
  }

  lemma OnlyCommands(s: Parser, b: Block, checkMode: bool)
    requires Shaped(s, |b.words|) && BlockOk(b, |b.words|) && s.pending == [] && Setting(b)
    requires ExecuteLine(s, b, checkMode).0 == Ok
    ensures Checks(s, b).Plan? && ExecuteLine(s, b, checkMode).1 == Commands(s, b, Checks(s, b))
  {
    hide Checks, Commands;
    assert s.(pending := s.pending + b.assigns) == s;
    if Checks(s, b).Plan? {
      CommandsKeepCache(s, b, Checks(s, b));
    }
  }

  /** After an accepted G92 the work position is the programmed value on the axes named; without a change
      of system it is what it was on the others. The machine does not move. */
  lemma G92SetsWorkPosition(s: Parser, b: Block, checkMode: bool, axis: nat)
    requires Shaped(s, |b.words|) && BlockOk(b, |b.words|) && s.pending == [] && Setting(b)
    requires b.nonModal.SetCoordinateOffset? && axis < |b.words| && ExecuteLine(s, b, checkMode).0 == Ok
    ensures var s' := ExecuteLine(s, b, checkMode).1;
            && s'.position == s.position && s'.stored == s.stored && s'.tlo == s.tlo
            && (Named(b, axis) ==> WorkPosition(s', axis) == Values(b)[axis])
            && (!Named(b, axis) && BlockSelect(s, b) == s.select ==> WorkPosition(s', axis) == WorkPosition(s, axis))
  {
    OnlyCommands(s, b, checkMode);
    hide ExecuteLine, Target, HomeData, G10Data;
    var s' := Commands(s, b, Checks(s, b));
    assert s'.offset == G92Offsets(s, b) && s'.system == BlockSystem(s, b) && s'.tlo == s.tlo && s'.position == s.position;
  }

  /** After an accepted G10 L20 for the system then selected, the same; other systems keep their values. */
  lemma G10SetsWorkPosition(s: Parser, b: Block, checkMode: bool, axis: nat)
    requires Shaped(s, |b.words|) && BlockOk(b, |b.words|) && s.pending == [] && Setting(b) && Cached(s)
    requires b.nonModal.SetCoordinateData? && axis < |b.words| && ExecuteLine(s, b, checkMode).0 == Ok
    requires G10Select(s, b) == BlockSelect(s, b)
    ensures var s' := ExecuteLine(s, b, checkMode).1;
            && s'.position == s.position && s'.offset == s.offset && s'.tlo == s.tlo
            && (forall i :: 0 <= i < STORES && i != s'.select ==> s'.stored[i] == s.stored[i])
            && (Named(b, axis) && b.l == 20 ==> WorkPosition(s', axis) == Values(b)[axis])
            && (Named(b, axis) && b.l == 2 ==> s'.system[axis] == Values(b)[axis])
            && (!Named(b, axis) && BlockSelect(s, b) == s.select ==> WorkPosition(s', axis) == WorkPosition(s, axis))
  {
    OnlyCommands(s, b, checkMode);
    hide ExecuteLine, Target, HomeData, G92Offsets;
    var s' := Commands(s, b, Checks(s, b));
    assert s'.system == G10Data(s, b) && s'.offset == s.offset && s'.tlo == s.tlo && s'.position == s.position;
  }

  /** G10 asks for P and L but is accepted without P: exactly when there is an L word, and P, or no P at
      all, names one of the nine systems. Without L it is always refused, with P or not. */
  lemma G10NeedsOnlyL(s: Parser, b: Block, checkMode: bool)
    requires Shaped(s, |b.words|) && BlockOk(b, |b.words|) && s.pending == [] && Setting(b)
    requires b.nonModal.SetCoordinateData?
    ensures ExecuteLine(s, b, checkMode).0 == Ok <==>
            && b.fault.NoFault? && HasAxisWords(b) && !b.motion.NoMotion?
            && b.hasL && (b.l == 20 || (b.l == 2 && !b.hasR)) && (!b.hasP || PValue(b.p) <= NWC_SYSTEMS)
    ensures ExecuteLine(s, b, checkMode).0 == Ok && !b.hasP ==>
            forall i :: 0 <= i < STORES && i != BlockSelect(s, b) ==> ExecuteLine(s, b, checkMode).1.stored[i] == s.stored[i]
  {
    hide Values, G10Data, Target, HomeData, G92Offsets, PerformAll;
    assert s.(pending := s.pending + b.assigns) == s;
    if Checks(s, b).Plan? {
      CommandsKeepCache(s, b, Checks(s, b));
    }
    if ExecuteLine(s, b, checkMode).0 == Ok {
      OnlyCommands(s, b, checkMode);
    }
  }

  /** A G10 for another system than the one selected moves no work position. */
  lemma G10ElsewhereIsQuiet(s: Parser, b: Block, checkMode: bool)
    requires Shaped(s, |b.words|) && BlockOk(b, |b.words|) && s.pending == [] && Setting(b)
    requires b.nonModal.SetCoordinateData? && ExecuteLine(s, b, checkMode).0 == Ok
    requires G10Select(s, b) != BlockSelect(s, b) && BlockSelect(s, b) == s.select
    ensures var s' := ExecuteLine(s, b, checkMode).1;
            s' == s.(inches := b.inches, stored := s.stored[G10Select(s, b) := G10Data(s, b)])
  {
    OnlyCommands(s, b, checkMode);
    hide ExecuteLine, Target, HomeData, G92Offsets, G10Data;
  }

  // The target of an absolute move is the machine position that has the programmed work position.
  lemma TargetInverse(s: Parser, b: Block, axis: nat)
    requires Shaped(s, |b.words|) && BlockOk(b, |b.words|) && axis < |b.words|
    requires b.absolute && !b.nonmodalG38 && !b.nonModal.AbsoluteOverride? && b.select.None?
    ensures Named(b, axis) ==> WorkPosition(s.(position := Target(s, b)), axis) == Values(b)[axis]
    ensures !Named(b, axis) ==> Target(s, b)[axis] == s.position[axis]
  {
  }

  /** Where the work position is v, an absolute move to v on any of the axes targets the machine position
      the machine is at. */
  lemma MoveBackStays(s: Parser, b: Block)
    requires Shaped(s, |b.words|) && BlockOk(b, |b.words|)
    requires b.absolute && !b.nonmodalG38 && !b.nonModal.AbsoluteOverride? && b.select.None?
    requires forall axis :: 0 <= axis < |b.words| && Named(b, axis) ==> Values(b)[axis] == WorkPosition(s, axis)
    ensures Target(s, b) == s.position
  {
    forall axis | 0 <= axis < |b.words| ensures Target(s, b)[axis] == s.position[axis] {
      TargetInverse(s, b, axis);
    }
  }

  /** G92 X.. and then an absolute move to the same values: the machine stays where it was. */
  lemma G92ThenMoveBack(s: Parser, b: Block, move: Block)
    requires Shaped(s, |b.words|) && BlockOk(b, |b.words|) && s.pending == [] && Setting(b)
    requires b.nonModal.SetCoordinateOffset? && ExecuteLine(s, b, false).0 == Ok && |b.words| > 0
    requires BlockOk(move, |b.words|) && move.words == b.words && move.inches == b.inches && !b.nonmodalG38
    requires move.absolute && !move.nonmodalG38 && move.nonModal.NoAction? && move.select.None?
    ensures Target(ExecuteLine(s, b, false).1, move) == s.position
  {
    hide ExecuteLine, Target, Values;
    var s' := ExecuteLine(s, b, false).1;
    SameValues(b, move);
    forall axis | 0 <= axis < |b.words| && Named(move, axis) ensures Values(move)[axis] == WorkPosition(s', axis) {
      G92SetsWorkPosition(s, b, false, axis);
    }
    MoveBackStays(s', move);
    G92SetsWorkPosition(s, b, false, 0);
  }

  lemma SameValues(b: Block, move: Block)
    requires move.words == b.words && move.inches == b.inches && !b.nonmodalG38 && !move.nonmodalG38
    ensures Values(b) == Values(move)
  {
  }

  /** The same after G10 L20. */
  lemma G10ThenMoveBack(s: Parser, b: Block, move: Block)
    requires Shaped(s, |b.words|) && BlockOk(b, |b.words|) && s.pending == [] && Setting(b) && Cached(s)
    requires b.nonModal.SetCoordinateData? && b.l == 20 && G10Select(s, b) == BlockSelect(s, b)
    requires ExecuteLine(s, b, false).0 == Ok && |b.words| > 0
    requires BlockOk(move, |b.words|) && move.words == b.words && move.inches == b.inches && !b.nonmodalG38
    requires move.absolute && !move.nonmodalG38 && move.nonModal.NoAction? && move.select.None?
    ensures Target(ExecuteLine(s, b, false).1, move) == s.position
  {
    hide ExecuteLine, Target, Values;
    var s' := ExecuteLine(s, b, false).1;
    SameValues(b, move);
    forall axis | 0 <= axis < |b.words| && Named(move, axis) ensures Values(move)[axis] == WorkPosition(s', axis) {
      G10SetsWorkPosition(s, b, false, axis);
    }
    MoveBackStays(s', move);
    G10SetsWorkPosition(s, b, false, 0);
  }

  /** Selecting another system and coming back restores everything. */
  lemma SelectAndBack(s: Parser, away: Block, back: Block)
    requires Shaped(s, |away.words|) && BlockOk(away, |away.words|) && |back.words| == |away.words| && BlockOk(back, |back.words|)
    requires Cached(s) && away.select.Some? && back.select == Some(s.select)
    ensures var s1 := DoSelect(s, away, BlockSystem(s, away));
            DoSelect(s1, back, BlockSystem(s1, back)) == s
  {
  }

  // ---- The program -----------------------------------------------------------------------------------------

  class GcodeParser {
    const nAxis: nat
    const system: array<real>
    const offset: array<real>
    const tlo: array<real>
    const position: array<real>
    var stored: seq<Vec>
    var select: nat
    var inches: bool
    var pending: seq<Assign>

    ghost predicate Valid()
      reads this, system, offset, tlo, position
    {
      && system.Length == offset.Length == tlo.Length == position.Length == nAxis
      && system != offset && system != tlo && system != position && offset != tlo && offset != position && tlo != position
      && Shaped(State(), nAxis)
    }

    ghost function State(): Parser
      reads this, system, offset, tlo, position
    {
      Parser(stored, select, system[..], offset[..], tlo[..], position[..], inches, pending)
    }

    constructor (nAxis: nat, stored: seq<Vec>)
      requires nAxis <= MAX_N_AXIS && |stored| == STORES && forall v :: v in stored ==> |v| == nAxis
      ensures Valid() && fresh(system) && fresh(offset) && fresh(tlo) && fresh(position) && this.nAxis == nAxis
      ensures State() == Init(stored, nAxis)
    {
      this.nAxis, this.stored, select, inches, pending := nAxis, stored, 0, false, [];
      system := new real[nAxis](_ => 0.0);
      offset := new real[nAxis](_ => 0.0);
      tlo := new real[nAxis](_ => 0.0);
      position := new real[nAxis](_ => 0.0);
      new;
      GetCoords(0, system);
    }

    static method CopyAxes(dest: array<real>, src: array<real>)
      requires dest.Length == src.Length && dest != src
      modifies dest
      ensures dest[..] == src[..]
    {
      var axis := 0;
      while axis < dest.Length
        invariant axis <= dest.Length && dest[..axis] == src[..axis]
      {
        dest[axis] := src[axis];
        axis := axis + 1;
      }
    }

    method GetCoords(index: nat, dest: array<real>)
      requires index < |stored| && dest.Length == |stored[index]|
      modifies dest
      ensures dest[..] == stored[index]
    {
      var axis := 0;
      while axis < dest.Length
        invariant axis <= dest.Length && dest[..axis] == stored[index][..axis]
      {
        dest[axis] := stored[index][axis];
        axis := axis + 1;
      }
    }

    method SetCoords(index: nat, src: array<real>)
      requires index < |stored|
      modifies this`stored
      ensures stored == old(stored)[index := src[..]]
    {
      stored := stored[index := src[..]];
    }

    // The axis words as parsed and pre-converted to millimetres.
    method ConvertUnits(b: Block) returns (xyz: array<real>)
      ensures fresh(xyz) && xyz.Length == |b.words| && xyz[..] == Values(b)
    {
      xyz := new real[|b.words|](_ => 0.0);
      var axis := 0;
      while axis < |b.words|
        invariant axis <= |b.words| && forall i :: 0 <= i < axis ==> xyz[i] == Values(b)[i]
        invariant forall i :: axis <= i < |b.words| ==> xyz[i] == 0.0
      {
        if b.words[axis].Some? {
          xyz[axis] := b.words[axis].value;
          if !b.nonmodalG38 && b.inches && IsLinear(axis) {
            xyz[axis] := xyz[axis] * MM_PER_INCH;
          }
        }
        axis := axis + 1;
      }
    }

    method PlanG10(b: Block, xyz: array<real>, coordSelect: nat, coordData: array<real>)
      requires Valid() && nAxis == |b.words| && BlockOk(b, nAxis) && coordData.Length == nAxis && xyz[..] == Values(b)
      requires coordSelect == G10Select(State(), b) && coordSelect < NWC_SYSTEMS
      requires coordData != xyz && coordData != system && coordData != offset && coordData != tlo && coordData != position
      modifies coordData
      ensures coordData[..] == G10Data(State(), b)
    {
      GetCoords(coordSelect, coordData);
      assert forall i :: 0 <= i < nAxis ==> coordData[..][i] == coordData[i];
      ghost var s := State();
      var axis := 0;
      while axis < nAxis
        invariant axis <= nAxis && State() == s && xyz[..] == Values(b)
        invariant forall i :: 0 <= i < axis ==> coordData[i] == G10Data(s, b)[i]
        invariant forall i :: axis <= i < nAxis ==> coordData[i] == stored[coordSelect][i]
      {
        if b.words[axis].Some? {
          if b.l == 20 {
            coordData[axis] := position[axis] - offset[axis] - xyz[axis];
            coordData[axis] := coordData[axis] - tlo[axis];
          } else {
            coordData[axis] := xyz[axis];
          }
          assert Values(b)[axis] == xyz[..][axis];
        }
        axis := axis + 1;
      }
    }

    method PlanG92(b: Block, xyz: array<real>, blockSystem: array<real>)
      requires Valid() && nAxis == |b.words| && BlockOk(b, nAxis) && xyz[..] == Values(b)
      requires blockSystem[..] == BlockSystem(State(), b) && blockSystem != xyz
      requires xyz != system && xyz != offset && xyz != tlo && xyz != position
      modifies xyz
      ensures xyz[..] == G92Offsets(State(), b)
    {
      ghost var s := State();
      assert forall i :: 0 <= i < nAxis ==> xyz[..][i] == xyz[i] && blockSystem[..][i] == blockSystem[i];
      var axis := 0;
      while axis < nAxis
        invariant axis <= nAxis && State() == s && blockSystem[..] == BlockSystem(s, b)
        invariant forall i :: 0 <= i < axis ==> xyz[i] == G92Offsets(s, b)[i]
        invariant forall i :: axis <= i < nAxis ==> xyz[i] == Values(b)[i]
      {
        if b.words[axis].Some? {
          assert blockSystem[..][axis] == blockSystem[axis];
          xyz[axis] := position[axis] - blockSystem[axis] - xyz[axis];
          xyz[axis] := xyz[axis] - tlo[axis];
        } else {
          xyz[axis] := offset[axis];
        }
        axis := axis + 1;
      }
    }

    method PlanTarget(b: Block, xyz: array<real>, blockSystem: array<real>)
      requires Valid() && nAxis == |b.words| && BlockOk(b, nAxis) && xyz[..] == Values(b)
      requires blockSystem[..] == BlockSystem(State(), b) && blockSystem != xyz
      requires xyz != system && xyz != offset && xyz != tlo && xyz != position
      modifies xyz
      ensures xyz[..] == Target(State(), b)
    {
      ghost var s := State();
      assert forall i :: 0 <= i < nAxis ==> xyz[..][i] == xyz[i];
      var axis := 0;
      while axis < nAxis
        invariant axis <= nAxis && State() == s && blockSystem[..] == BlockSystem(s, b)
        invariant forall i :: 0 <= i < axis ==> xyz[i] == Target(s, b)[i]
        invariant forall i :: axis <= i < nAxis ==> xyz[i] == Values(b)[i]
      {
        if b.words[axis].None? {
          xyz[axis] := position[axis];
        } else if !b.nonModal.AbsoluteOverride? {
          if !b.nonmodalG38 && b.absolute {
            assert blockSystem[..][axis] == blockSystem[axis];
            xyz[axis] := xyz[axis] + (blockSystem[axis] + offset[axis]);
            xyz[axis] := xyz[axis] + tlo[axis];
          } else {
            xyz[axis] := xyz[axis] + position[axis];
          }
        }
        axis := axis + 1;
      }
    }

    method PlanHome(b: Block, coordData: array<real>, hasWords: bool)
      requires Valid() && nAxis == |b.words| && BlockOk(b, nAxis) && coordData.Length == nAxis && hasWords == HasAxisWords(b)
      requires coordData != system && coordData != offset && coordData != tlo && coordData != position
      modifies coordData
      ensures coordData[..] == HomeData(State(), b)
    {
      GetCoords(if b.nonModal.GoHome0? then G28_POS else G30_POS, coordData);
      assert forall i :: 0 <= i < nAxis ==> coordData[..][i] == coordData[i];
      if hasWords {
        ghost var s := State();
        ghost var home := coordData[..];
        var axis := 0;
        while axis < nAxis
          invariant axis <= nAxis && State() == s
          invariant forall i :: 0 <= i < axis ==> coordData[i] == HomeData(s, b)[i]
          invariant forall i :: axis <= i < nAxis ==> coordData[i] == home[i]
        {
          if b.words[axis].None? {
            coordData[axis] := position[axis];
          }
          axis := axis + 1;
        }
      }
    }

    static method AnyAxisWord(b: Block) returns (any: bool)
      ensures any == HasAxisWords(b)
    {
      any := false;
      var axis := 0;
      while axis < |b.words|
        invariant axis <= |b.words| && any == exists i :: 0 <= i < axis && b.words[i].Some?
      {
        any := any || b.words[axis].Some?;
        axis := axis + 1;
      }
    }

    method PerformAssignments()
      requires Valid()
      modifies this`stored, this`select, this`pending
      ensures Valid() && State() == PerformAll(old(State()).(pending := []), old(pending), nAxis)
    {
      var assigns := pending;
      pending := [];
      var i := 0;
      assert assigns[0..] == assigns;
      while i < |assigns|
        invariant i <= |assigns| && Valid() && forall a :: a in assigns ==> AssignOk(a)
        invariant PerformAll(State(), assigns[i..], nAxis) == PerformAll(old(State()).(pending := []), assigns, nAxis)
      {
        var a := assigns[i];
        assert assigns[i..][0] == a && assigns[i..][1..] == assigns[i + 1..];
        ghost var next := Perform(State(), a);
        SetParam(a);
        assert State() == next;
        i := i + 1;
      }
    }

    method SetParam(a: Assign)
      requires Valid() && AssignOk(a)
      modifies this`stored, this`select
      ensures Valid() && State() == Perform(old(State()), a)
    {
      if a.ToStore? {
        if a.axis < nAxis {
          stored := stored[a.index := stored[a.index][a.axis := ToMm(inches, a.axis, a.value)]];
        }
      } else if a.ToSelect? {
        select := a.index;
      }
    }

    // Arrays of this call are none of the parser's own.
    ghost predicate Apart(a: array<real>)
    {
      a.Length == nAxis && a != system && a != offset && a != tlo && a != position
    }

    // STEP 3 for the coordinate commands: the error, or the values to execute with.
    method CheckBlock(b: Block, xyz: array<real>, blockSystem: array<real>, coordData: array<real>)
      returns (error: Status, command: AxisCommand, coordSelect: nat)
      requires Valid() && nAxis == |b.words| && BlockOk(b, nAxis)
      requires Apart(xyz) && Apart(blockSystem) && Apart(coordData) && xyz != blockSystem && xyz != coordData && blockSystem != coordData
      requires xyz[..] == Values(b) && blockSystem[..] == BlockSystem(State(), b) && coordData[..] == Zeros(nAxis)
      modifies xyz, coordData
      ensures Checks(State(), b) == if error == Ok then Plan(xyz[..], coordData[..], command) else Reject(error)
      ensures error == Ok && b.nonModal.SetCoordinateData? ==> coordSelect == G10Select(State(), b)
    {
      hide Values, Target, G10Data, G92Offsets, HomeData, Zeros, BlockSystem;
      coordSelect := 0;
      command := b.axisCommand;
      if b.fault.InChecks? {
        return OtherError, command, coordSelect;
      }
      var axisWords := AnyAxisWord(b);
      if b.nonModal.SetCoordinateData? {
        if !axisWords {
          return NoAxisWords, command, coordSelect;
        }
        if !b.hasP && !b.hasL {
          return ValueWordMissing, command, coordSelect;
        }
        if b.l != 20 {
          if b.l == 2 {
            if b.hasR {
              return UnsupportedCommand, command, coordSelect;
            }
          } else {
            return UnsupportedCommand, command, coordSelect;
          }
        }
        var pValue := PValue(b.p);
        if pValue > 0 {
          coordSelect := pValue - 1;
        } else {
          coordSelect := if b.select.Some? then b.select.value else select;
        }
        if coordSelect >= NWC_SYSTEMS {
          return UnsupportedCoordSys, command, coordSelect;
        }
        PlanG10(b, xyz, coordSelect, coordData);
      } else if b.nonModal.SetCoordinateOffset? {
        if !axisWords {
          return NoAxisWords, command, coordSelect;
        }
        PlanG92(b, xyz, blockSystem);
      } else {
        if !b.axisCommand.LengthOffset? && axisWords {
          PlanTarget(b, xyz, blockSystem);
        }
        if b.nonModal.GoHome0? || b.nonModal.GoHome1? {
          PlanHome(b, coordData, axisWords);
          if !axisWords {
            command := NoCommand;
          }
        } else if b.nonModal.AbsoluteOverride? {
          if !(b.probeExplicit || b.motion.Seek? || b.motion.Linear?) {
            return G53InvalidMotionMode, command, coordSelect;
          }
        }
      }
      if b.motion.NoMotion? {
        if axisWords {
          return AxisWordsExist, command, coordSelect;
        }
      } else if command.MotionMode? {
        if b.motion.Seek? || b.motion.Linear? {
          if !axisWords {
            command := NoCommand;
          }
        }
      }
      return Ok, command, coordSelect;
    }

    method ExecuteLengthOffset(b: Block, xyz: array<real>, ghost plan: Plan, command: AxisCommand)
      requires Valid() && nAxis == |b.words| && Apart(xyz) && plan.Plan? && plan.xyz == xyz[..] && plan.axisCommand == command
      modifies this`stored, tlo
      ensures Valid() && State() == DoLengthOffset(old(State()), b, plan)
    {
      if command.LengthOffset? {
        ghost var s := State();
        var axis := 0;
        while axis < nAxis
          invariant axis <= nAxis && Valid() && State() == s.(tlo := tlo[..])
          invariant forall i :: 0 <= i < axis ==> tlo[i] == NewLengthOffset(s, b, plan.xyz)[i]
          invariant forall i :: axis <= i < nAxis ==> tlo[i] == s.tlo[i]
        {
          assert plan.xyz[axis] == xyz[axis];
          if !b.dynamicOffset {
            tlo[axis] := 0.0;
          } else if b.words[axis].Some? {
            tlo[axis] := xyz[axis];
          }
          axis := axis + 1;
        }
        assert tlo[..] == NewLengthOffset(s, b, plan.xyz);
        SetCoords(TLO_POS, tlo);
      }
    }

    method ExecuteSelect(b: Block, blockSystem: array<real>)
      requires Valid() && nAxis == |b.words| && BlockOk(b, nAxis) && Apart(blockSystem)
      modifies this`select, system
      ensures Valid() && State() == DoSelect(old(State()), b, blockSystem[..])
    {
      var chosen := if b.select.Some? then b.select.value else select;
      if select != chosen {
        select := chosen;
        CopyAxes(system, blockSystem);
      }
    }

    method ExecuteNonModal(b: Block, xyz: array<real>, coordData: array<real>, coordSelect: nat, ghost plan: Plan)
      requires Valid() && nAxis == |b.words| && BlockOk(b, nAxis) && Apart(xyz) && Apart(coordData)
      requires plan.Plan? && plan.xyz == xyz[..] && plan.coordData == coordData[..]
      requires b.nonModal.SetCoordinateData? ==> coordSelect < NWC_SYSTEMS
      modifies this`stored, system, offset, position
      ensures Valid() && State() == DoNonModal(old(State()), b, plan, coordSelect)
    {
      if b.nonModal.SetCoordinateData? {
        SetCoords(coordSelect, coordData);
        if select == coordSelect {
          CopyAxes(system, coordData);
        }
      } else if b.nonModal.GoHome0? || b.nonModal.GoHome1? {
        CopyAxes(position, coordData);
      } else if b.nonModal.SetHome0? {
        SetCoords(G28_POS, position);
      } else if b.nonModal.SetHome1? {
        SetCoords(G30_POS, position);
      } else if b.nonModal.SetCoordinateOffset? {
        CopyAxes(offset, xyz);
      } else if b.nonModal.ResetCoordinateOffset? {
        forall i | 0 <= i < nAxis {
          offset[i] := 0.0;
        }
        assert offset[..] == Zeros(nAxis);
      }
    }

    // A probe with a P word: the contact becomes the origin of one axis of the selected system.
    method ProbeOffset(axis: nat, origin: real)
      requires Valid() && axis < nAxis
      modifies this`stored, system
      ensures Valid()
      ensures var data := old(stored)[select][axis := origin];
              State() == old(State()).(stored := old(stored)[select := data], system := data)
    {
      var coordData := new real[nAxis](_ => 0.0);
      GetCoords(select, coordData);
      coordData[axis] := origin;
      SetCoords(select, coordData);
      CopyAxes(system, coordData);
    }

    // mc_probe_cycle, as far as it touches coordinates.
    method ProbeCycle(b: Block, xyz: array<real>)
      requires Valid() && nAxis == |b.words| && BlockOk(b, nAxis) && Apart(xyz)
      modifies this`stored, system, position
      ensures Valid() && State() == DoProbe(old(State()), b, xyz[..])
    {
      if b.probing.Missed? {
        CopyAxes(position, xyz);
      } else if b.probing.Contact? {
        if b.probing.offset.Some? {
          ProbeOffset(b.probing.offset.value.0, b.probing.position[b.probing.offset.value.0] - b.probing.offset.value.1);
        }
        forall i | 0 <= i < nAxis {
          position[i] := b.probing.position[i];
        }
        assert position[..] == b.probing.position;
      }
    }

    method ExecuteMotion(b: Block, xyz: array<real>, command: AxisCommand, ghost plan: Plan) returns (aborted: bool)
      requires Valid() && nAxis == |b.words| && BlockOk(b, nAxis) && Apart(xyz)
      requires plan.Plan? && plan.xyz == xyz[..] && plan.axisCommand == command
      modifies this`stored, system, position
      ensures Valid() && State() == DoMotion(old(State()), b, plan) && aborted == (Moves(b, plan) && b.abort)
    {
      aborted := false;
      if !b.motion.NoMotion? && command.MotionMode? {
        if b.abort {
          return true;
        }
        if b.motion.Probe? {
          ProbeCycle(b, xyz);
        } else {
          CopyAxes(position, xyz);
        }
      }
    }

    method ExecuteProgramEnd(b: Block, checkMode: bool)
      requires Valid() && nAxis == |b.words|
      modifies this`select, system
      ensures Valid() && State() == DoProgramEnd(old(State()), b, checkMode)
    {
      if b.programEnd {
        select := 0;
        if !checkMode {
          GetCoords(select, system);
        }
      }
    }

    method BlockSystemOf(b: Block) returns (blockSystem: array<real>)
      requires Valid() && nAxis == |b.words| && BlockOk(b, nAxis)
      ensures fresh(blockSystem) && blockSystem.Length == nAxis && blockSystem[..] == BlockSystem(State(), b)
    {
      blockSystem := new real[nAxis](_ => 0.0);
      CopyAxes(blockSystem, system);
      if b.select.Some? && select != b.select.value {
        GetCoords(b.select.value, blockSystem);
      }
    }

    // STEP 4 up to the program flow.
    method ExecuteCommands(b: Block, xyz: array<real>, blockSystem: array<real>, coordData: array<real>,
                           command: AxisCommand, coordSelect: nat, ghost plan: Plan) returns (aborted: bool)
      requires Valid() && nAxis == |b.words| && BlockOk(b, nAxis)
      requires Apart(xyz) && Apart(blockSystem) && Apart(coordData)
      requires plan == Checks(State(), b) && plan == Plan(xyz[..], coordData[..], command)
      requires blockSystem[..] == BlockSystem(State(), b)
      requires b.nonModal.SetCoordinateData? ==> coordSelect == G10Select(State(), b)
      modifies this`inches, this`stored, this`select, system, offset, tlo, position
      ensures Valid() && State() == Commands(old(State()), b, plan) && aborted == (Moves(b, plan) && b.abort)
    {
      hide DoLengthOffset, DoSelect, DoNonModal, DoMotion, BlockSystem;
      inches := b.inches;
      ExecuteLengthOffset(b, xyz, plan, command);
      ExecuteSelect(b, blockSystem);
      ExecuteNonModal(b, xyz, coordData, if b.nonModal.SetCoordinateData? then coordSelect else 0, plan);
      aborted := ExecuteMotion(b, xyz, command, plan);
    }

    /** gc_execute_line, from the parsed block on. */
    method Execute(b: Block, checkMode: bool) returns (status: Status)
      requires Valid() && nAxis == |b.words| && BlockOk(b, nAxis)
      modifies this`inches, this`stored, this`select, this`pending, system, offset, tlo, position
      ensures Valid() && (status, State()) == ExecuteLine(old(State()), b, checkMode)
    {
      hide Checks, Commands, PerformAll, DoProgramEnd, BlockSystem, Values;
      pending := pending + b.assigns;
      var xyz := ConvertUnits(b);
      var blockSystem := BlockSystemOf(b);
      var coordData := new real[nAxis](_ => 0.0);
      assert coordData[..] == Zeros(nAxis);
      var error, command, coordSelect := CheckBlock(b, xyz, blockSystem, coordData);
      ghost var plan := Checks(State(), b);
      if error != Ok {
        return error;
      }
      if b.jog {
        if b.fault.InCommands? {
          return OtherError;
        }
        if !b.abort {
          CopyAxes(position, xyz);
        }
        return Ok;
      }
      if b.fault.InCommands? {
        return OtherError;
      }
      var aborted := ExecuteCommands(b, xyz, blockSystem, coordData, command, coordSelect, plan);
      if aborted {
        return Reset;
      }
      ExecuteProgramEnd(b, checkMode);
      var refused := Unknown in pending;
      PerformAssignments();
      return if refused then ParameterAssignmentFailed else Ok;
    }
  }
}
