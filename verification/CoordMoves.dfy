/** Where accepted lines take the machine: moves in work and machine coordinates, by increments, and to the
    stored positions of G28 and G30 (FluidNC/src/GCode.cpp). */
module CoordMoves {
  import opened Options
  import opened GCodeCoords

  // A line of G0 to G3 with axis words, and nothing beside it but G53 and a choice of system.
  predicate IsMove(b: Block) {
    && b.axisCommand.MotionMode? && (b.motion.Seek? || b.motion.Linear? || b.motion.Arc?) && HasAxisWords(b)
    && (b.nonModal.NoAction? || b.nonModal.AbsoluteOverride?) && !b.nonmodalG38 && !b.programEnd && !b.jog && b.assigns == []
  }

  // The programmed value of an axis is in millimetres, in inches times 25.4; the rotary axes A, B and C are in degrees.
  lemma UnitsOfValues(b: Block, axis: nat)
    requires axis < |b.words| && Named(b, axis) && !b.nonmodalG38
    ensures !b.inches || axis in {3, 4, 5} ==> Values(b)[axis] == b.words[axis].value
    ensures b.inches && axis !in {3, 4, 5} ==> 10.0 * Values(b)[axis] == 254.0 * b.words[axis].value
  {
  }

  lemma MoveCommands(s: Parser, b: Block)
    requires Shaped(s, |b.words|) && BlockOk(b, |b.words|) && IsMove(b) && Checks(s, b).Plan? && !b.abort
    ensures Commands(s, b, Checks(s, b)) == s.(inches := b.inches, select := BlockSelect(s, b), system := BlockSystem(s, b),
                                               position := Target(s, b))
  {
    hide Target, Values, HomeData, HasAxisWords;
    assert Checks(s, b).xyz == Target(s, b) && Checks(s, b).axisCommand.MotionMode?;
    hide Checks;
  }

  lemma MoveLine(s: Parser, b: Block, checkMode: bool)
    requires Shaped(s, |b.words|) && BlockOk(b, |b.words|) && IsMove(b) && s.pending == []
    requires ExecuteLine(s, b, checkMode).0 == Ok
    ensures ExecuteLine(s, b, checkMode).1 == s.(inches := b.inches, select := BlockSelect(s, b), system := BlockSystem(s, b),
                                                 position := Target(s, b))
  {
    assert s.(pending := s.pending + b.assigns) == s;
    hide Target, BlockSystem;
    if Checks(s, b).Plan? && !b.abort {
      MoveCommands(s, b);
    }
    assert Moves(b, Checks(s, b));
    hide Checks, Commands;
  }

  /** After an accepted move in absolute mode the work position is the programmed value on the axes named, in
      the system then selected, and the machine has not moved on the others. */
  lemma AbsoluteMoveArrives(s: Parser, b: Block, checkMode: bool, axis: nat)
    requires Shaped(s, |b.words|) && BlockOk(b, |b.words|) && IsMove(b) && s.pending == [] && axis < |b.words|
    requires b.absolute && b.nonModal.NoAction? && ExecuteLine(s, b, checkMode).0 == Ok
    ensures var r := ExecuteLine(s, b, checkMode).1;
            && (Named(b, axis) ==> WorkPosition(r, axis) == Values(b)[axis])
            && (!Named(b, axis) ==> r.position[axis] == s.position[axis])
            && r.select == BlockSelect(s, b) && r.stored == s.stored && r.offset == s.offset && r.tlo == s.tlo
  {
    MoveLine(s, b, checkMode);
    hide ExecuteLine;
  }

  /** In incremental mode the machine moves by the programmed value. */
  lemma IncrementalMoveAdds(s: Parser, b: Block, checkMode: bool, axis: nat)
    requires Shaped(s, |b.words|) && BlockOk(b, |b.words|) && IsMove(b) && s.pending == [] && axis < |b.words|
    requires !b.absolute && b.nonModal.NoAction? && ExecuteLine(s, b, checkMode).0 == Ok
    ensures ExecuteLine(s, b, checkMode).1.position[axis]
         == s.position[axis] + if Named(b, axis) then Values(b)[axis] else 0.0
  {
    MoveLine(s, b, checkMode);
    hide ExecuteLine;
  }

  /** So any number of incremental moves in a row add up. */
  lemma {:induction false} IncrementsAddUp(s: Parser, lines: seq<Line>, n: nat, axis: nat)
    requires Shaped(s, n) && LinesOk(lines, n) && s.pending == [] && axis < n && AllAccepted(s, lines, n)
    requires forall l :: l in lines ==> IsMove(l.block) && !l.block.absolute && l.block.nonModal.NoAction?
    ensures RunLines(s, lines, n).position[axis] == s.position[axis] + Increments(lines, n, axis)
    decreases |lines|
  {
    hide ExecuteLine;
    if lines != [] {
      var b, checkMode := lines[0].block, lines[0].checkMode;
      assert lines[0] in lines;
      MoveLine(s, b, checkMode);
      IncrementalMoveAdds(s, b, checkMode, axis);
      assert forall l :: l in lines[1..] ==> l in lines;
      IncrementsAddUp(ExecuteLine(s, b, checkMode).1, lines[1..], n, axis);
    }
  }

  predicate AllAccepted(s: Parser, lines: seq<Line>, n: nat)
    requires Shaped(s, n) && LinesOk(lines, n)
    decreases |lines|
  {
    lines == [] ||
    (ExecuteLine(s, lines[0].block, lines[0].checkMode).0 == Ok
     && AllAccepted(ExecuteLine(s, lines[0].block, lines[0].checkMode).1, lines[1..], n))
  }

  function Increments(lines: seq<Line>, n: nat, axis: nat): real
    requires LinesOk(lines, n) && axis < n
    decreases |lines|
  {
    if lines == [] then 0.0
    else
      assert lines[0] in lines;
      (if Named(lines[0].block, axis) then Values(lines[0].block)[axis] else 0.0) + Increments(lines[1..], n, axis)
  }

  /** G53 moves to the programmed machine position, whatever the mode, the systems and the offsets are. */
  lemma MachineMoveArrives(s: Parser, b: Block, checkMode: bool, axis: nat)
    requires Shaped(s, |b.words|) && BlockOk(b, |b.words|) && IsMove(b) && s.pending == [] && axis < |b.words|
    requires b.nonModal.AbsoluteOverride? && ExecuteLine(s, b, checkMode).0 == Ok
    ensures ExecuteLine(s, b, checkMode).1.position[axis] == if Named(b, axis) then Values(b)[axis] else s.position[axis]
  {
    MoveLine(s, b, checkMode);
    hide ExecuteLine;
  }

  /** A jog ends at its target and changes nothing else, unless it is cancelled in flight: then nothing at all. */
  lemma JogArrives(s: Parser, b: Block, checkMode: bool, axis: nat)
    requires Shaped(s, |b.words|) && BlockOk(b, |b.words|) && s.pending == [] && b.assigns == [] && b.jog && axis < |b.words|
    requires b.axisCommand.MotionMode? && b.motion.Linear? && HasAxisWords(b) && !b.nonmodalG38
    requires b.nonModal.NoAction? && ExecuteLine(s, b, checkMode).0 == Ok
    ensures var r := ExecuteLine(s, b, checkMode).1;
            && r == s.(position := r.position)
            && (b.abort ==> r == s)
            && (!b.abort && !Named(b, axis) ==> r.position[axis] == s.position[axis])
            && (!b.abort && Named(b, axis) && !b.absolute ==> r.position[axis] == s.position[axis] + Values(b)[axis])
            && (!b.abort && Named(b, axis) && b.absolute && b.select.None? ==> WorkPosition(r, axis) == Values(b)[axis])
  {
    assert s.(pending := s.pending + b.assigns) == s;
  }

  // ---- Probing, tool length, and what else sets coordinates -----------------------------------------------

  predicate IsProbe(b: Block) {
    && b.axisCommand.MotionMode? && b.motion.Probe? && HasAxisWords(b) && b.nonModal.NoAction? && b.select.None?
    && !b.programEnd && !b.jog && b.assigns == []
  }

  /** A probe that meets something leaves the machine where it met it; with a P word it also makes P the
      work position of that contact on one axis of the system selected, without the offsets of G92 and of
      the tool, and nothing else. One that does not ends at its target, one that never starts stays. */
  lemma ProbeEnds(s: Parser, b: Block, checkMode: bool)
    requires Shaped(s, |b.words|) && BlockOk(b, |b.words|) && IsProbe(b) && s.pending == [] && ExecuteLine(s, b, checkMode).0 == Ok
    ensures var r := ExecuteLine(s, b, checkMode).1;
            && r.select == s.select && r.offset == s.offset && r.tlo == s.tlo
            && r.position == (if b.probing.NotStarted? then s.position
                              else if b.probing.Missed? then Target(s, b) else b.probing.position)
            && (!b.probing.Contact? || b.probing.offset.None? ==> r.stored == s.stored && r.system == s.system)
            && (b.probing.Contact? && b.probing.offset.Some? ==>
                  var (axis, p) := b.probing.offset.value;
                  && r.position[axis] - r.system[axis] == p && r.system == r.stored[s.select]
                  && (forall k :: 0 <= k < |b.words| && k != axis ==> r.system[k] == s.stored[s.select][k])
                  && (forall i :: 0 <= i < STORES && i != s.select ==> r.stored[i] == s.stored[i]))
  {
    assert s.(pending := s.pending + b.assigns) == s;
    hide Target, Values, HomeData, HasAxisWords;
    if Checks(s, b).Plan? {
      assert Checks(s, b).xyz == Target(s, b);
      CommandsKeepCache(s, b, Checks(s, b));
    }
  }

  /** G43.1 sets the length offset of the axes named, and G49 clears all; the machine stays where it is, so
      the work position changes by just as much the other way. */
  lemma LengthOffsetShifts(s: Parser, b: Block, checkMode: bool, axis: nat)
    requires Shaped(s, |b.words|) && BlockOk(b, |b.words|) && s.pending == [] && axis < |b.words|
    requires b.axisCommand.LengthOffset? && b.nonModal.NoAction? && b.select.None? && !b.programEnd && !b.jog && b.assigns == []
    requires ExecuteLine(s, b, checkMode).0 == Ok
    ensures var r := ExecuteLine(s, b, checkMode).1;
            && r.tlo[axis] == (if !b.dynamicOffset then 0.0 else if Named(b, axis) then Values(b)[axis] else s.tlo[axis])
            && r.position == s.position && r.system == s.system && r.offset == s.offset && r.stored[TLO_POS] == r.tlo
            && WorkPosition(r, axis) == WorkPosition(s, axis) - (r.tlo[axis] - s.tlo[axis])
  {
    assert s.(pending := s.pending + b.assigns) == s;
    if Checks(s, b).Plan? {
      CommandsKeepCache(s, b, Checks(s, b));
    }
  }

  // G92.1 takes the offsets of G92 away.
  lemma ResetClears(s: Parser, b: Block, checkMode: bool)
    requires Shaped(s, |b.words|) && BlockOk(b, |b.words|) && s.pending == [] && b.nonModal.ResetCoordinateOffset? && b.select.None?
    requires !b.axisCommand.MotionMode? && !b.axisCommand.LengthOffset? && !b.programEnd && !b.jog && b.assigns == []
    requires ExecuteLine(s, b, checkMode).0 == Ok
    ensures var r := ExecuteLine(s, b, checkMode).1;
            r == s.(inches := b.inches, offset := r.offset) && forall axis :: 0 <= axis < |b.words| ==> r.offset[axis] == 0.0
  {
    assert s.(pending := s.pending + b.assigns) == s;
    hide Values, Target, HomeData, HasAxisWords;
    if Checks(s, b).Plan? {
      CommandsKeepCache(s, b, Checks(s, b));
    }
  }

  lemma G10Stores(s: Parser, b: Block)
    requires Shaped(s, |b.words|) && BlockOk(b, |b.words|) && Setting(b) && b.nonModal.SetCoordinateData?
    requires Checks(s, b).Plan?
    ensures G10Select(s, b) < NWC_SYSTEMS
    ensures var r := Commands(s, b, Checks(s, b));
            r.stored == s.stored[G10Select(s, b) := G10Data(s, b)] && r.position == s.position
  {
    hide Target, HomeData, G92Offsets, G10Data, Values, HasAxisWords, Named;
  }

  /** G10 L2 with a whole P from 1 to 9 writes the P-th of the nine systems, and no other. */
  lemma G10WritesSystem(s: Parser, b: Block, checkMode: bool, p: nat, axis: nat)
    requires Shaped(s, |b.words|) && BlockOk(b, |b.words|) && s.pending == [] && Setting(b) && b.nonModal.SetCoordinateData?
    requires 1 <= p <= 9 && b.p == p as real && b.l == 2 && axis < |b.words| && ExecuteLine(s, b, checkMode).0 == Ok
    ensures var r := ExecuteLine(s, b, checkMode).1;
            && r.stored[p - 1][axis] == (if Named(b, axis) then Values(b)[axis] else s.stored[p - 1][axis])
            && (forall i :: 0 <= i < STORES && i != p - 1 ==> r.stored[i] == s.stored[i]) && r.position == s.position
  {
    hide ExecuteLine, Commands, Checks, Values, Named, Target, BlockSelect, HasAxisWords;
    OnlyCommands(s, b, checkMode);
    assert PValue(b.p) == p;
    G10Stores(s, b);
  }

  /** M2 and M30, but for check mode, leave G54 selected and in use. */
  lemma ProgramEndSelects(s: Parser, b: Block)
    requires Shaped(s, |b.words|) && BlockOk(b, |b.words|) && b.programEnd && !b.jog && s.pending == [] && b.assigns == []
    requires ExecuteLine(s, b, false).0 == Ok
    ensures var r := ExecuteLine(s, b, false).1; r.select == 0 && r.system == r.stored[0]
  {
    hide Commands, Checks;
    assert s.(pending := s.pending + b.assigns) == s;
    CommandsKeepCache(s, b, Checks(s, b));
  }

  // ---- The status of a line -------------------------------------------------------------------------------

  // What is wrong with the coordinates of a line, in the order of the checks.
  predicate WordsMissing(b: Block) {
    (b.nonModal.SetCoordinateData? || b.nonModal.SetCoordinateOffset?) && forall i :: 0 <= i < |b.words| ==> b.words[i].None?
  }

  predicate DataMissing(b: Block) {
    b.nonModal.SetCoordinateData? && !b.hasL && !b.hasP
  }

  predicate DataUnsupported(b: Block) {
    b.nonModal.SetCoordinateData? && !(b.l == 20 || (b.l == 2 && !b.hasR))
  }

  // The P word is taken modulo 256.
  predicate NoSuchSystem(b: Block) {
    b.nonModal.SetCoordinateData? && b.p.Floor % 256 >= 10
  }

  predicate NoMotionFor(b: Block) {
    b.nonModal.AbsoluteOverride? && !b.motion.Seek? && !b.motion.Linear? && !b.probeExplicit
  }

  predicate WordsUnused(b: Block) {
    b.motion.NoMotion? && exists i :: 0 <= i < |b.words| && b.words[i].Some?
  }

  function StatusOf(b: Block): Status {
    if WordsMissing(b) then NoAxisWords
    else if DataMissing(b) then ValueWordMissing
    else if DataUnsupported(b) then UnsupportedCommand
    else if NoSuchSystem(b) then UnsupportedCoordSys
    else if NoMotionFor(b) then G53InvalidMotionMode
    else if WordsUnused(b) then AxisWordsExist
    else Ok
  }

  /** A line without assignments that is not stopped by what is left out here is accepted, unless G10 or G92
      lacks its axis words, G10 its P or L, or has another L, or an R with L2, or a system beyond the ninth,
      G53 its motion, or axis words stand where there is no motion; of these errors the first is reported. */
  lemma StatusExact(s: Parser, b: Block, checkMode: bool)
    requires Shaped(s, |b.words|) && BlockOk(b, |b.words|) && s.pending == [] && b.assigns == []
    requires b.fault.NoFault? && !b.abort
    ensures ExecuteLine(s, b, checkMode).0 == StatusOf(b)
  {
    assert s.(pending := s.pending + b.assigns) == s;
    hide Target, HomeData, Values, G10Data, G92Offsets;
    ChecksExact(s, b);
    hide Checks;
    if Checks(s, b).Plan? {
      CommandsKeepCache(s, b, Checks(s, b));
    }
    hide Commands, StatusOf;
  }

  lemma ChecksExact(s: Parser, b: Block)
    requires Shaped(s, |b.words|) && BlockOk(b, |b.words|) && b.fault.NoFault?
    ensures if Checks(s, b).Plan? then StatusOf(b) == Ok else StatusOf(b) == Checks(s, b).error
  {
    hide Target, HomeData, Values, G10Data, G92Offsets, Command;
  }

  // ---- From gc_init on ------------------------------------------------------------------------------------

  // A move of the first axis of one.
  function FirstAxis(x: real, absolute: bool, inches: bool): (b: Block)
    ensures BlockOk(b, 1) && IsMove(b)
  {
    var b := Idle(1).(words := [Some(x)], axisCommand := MotionMode, absolute := absolute, inches := inches);
    assert b.words[0].Some?;
    b
  }

  // G0 X10 and then G91 X10 end at 20; G20 G0 X1 ends at 25.4.
  lemma MovesFromStart()
    ensures var s := Init(seq(STORES, i => Zeros(1)), 1);
            var r := ExecuteLine(s, FirstAxis(10.0, true, false), false);
            var r' := ExecuteLine(r.1, FirstAxis(10.0, false, false), false);
            r.0 == Ok && r.1.position == [10.0] && r'.0 == Ok && r'.1.position == [20.0]
    ensures var s := Init(seq(STORES, i => Zeros(1)), 1);
            ExecuteLine(s, FirstAxis(1.0, true, true), false).1.position == [25.4]
  {
    var s := Init(seq(STORES, i => Zeros(1)), 1);
    var b, b' := FirstAxis(10.0, true, false), FirstAxis(10.0, false, false);
    Accepted(s, b, false);
    MoveLine(s, b, false);
    var t := ExecuteLine(s, b, false).1;
    assert Target(s, b) == [10.0];
    Accepted(t, b', false);
    MoveLine(t, b', false);
    assert Target(t, b') == [20.0];
    var inch := FirstAxis(1.0, true, true);
    Accepted(s, inch, false);
    MoveLine(s, inch, false);
    assert Target(s, inch) == [25.4];
  }

  lemma Accepted(s: Parser, b: Block, checkMode: bool)
    requires Shaped(s, |b.words|) && BlockOk(b, |b.words|) && IsMove(b) && s.pending == [] && b.fault.NoFault? && !b.abort
    requires b.nonModal.NoAction?
    ensures ExecuteLine(s, b, checkMode).0 == Ok
  {
    assert s.(pending := s.pending + b.assigns) == s;
    hide Target, HomeData, Values;
    assert Checks(s, b).Plan?;
    CommandsKeepCache(s, b, Checks(s, b));
    hide Checks, Commands;
  }

  // ---- Stored positions -----------------------------------------------------------------------------------

  // G28.1 or G30.1, and G28 or G30, alone on a line or with axis words.
  predicate Sets(b: Block, first: bool) {
    && (if first then b.nonModal.SetHome0? else b.nonModal.SetHome1?) && !b.axisCommand.MotionMode?
    && !b.programEnd && b.assigns == [] && !b.jog
  }

  predicate Goes(b: Block, first: bool) {
    (if first then b.nonModal.GoHome0? else b.nonModal.GoHome1?) && Setting(b)
  }

  function HomeOf(first: bool): nat { if first then G28_POS else G30_POS }

  // A line that leaves the stored position alone.
  predicate Spares(b: Block, first: bool) {
    (if first then !b.nonModal.SetHome0? else !b.nonModal.SetHome1?) && forall a :: a in b.assigns ==> a.ToStore? ==> a.index != HomeOf(first)
  }

  lemma SetStores(s: Parser, b: Block, checkMode: bool, first: bool)
    requires Shaped(s, |b.words|) && BlockOk(b, |b.words|) && s.pending == [] && Sets(b, first)
    requires ExecuteLine(s, b, checkMode).0 == Ok
    ensures var r := ExecuteLine(s, b, checkMode).1;
            r.stored[HomeOf(first)] == s.position && r.position == s.position && r.pending == []
  {
    assert s.(pending := s.pending + b.assigns) == s;
    if Checks(s, b).Plan? {
      CommandsKeepCache(s, b, Checks(s, b));
    }
    hide Checks, NewLengthOffset;
  }

  lemma SparedNonModal(s: Parser, b: Block, plan: Plan, g10Select: nat, first: bool)
    requires Shaped(s, |b.words|) && plan.Plan? && |plan.xyz| == |plan.coordData| == |b.words| && Spares(b, first)
    requires b.nonModal.SetCoordinateData? ==> g10Select < NWC_SYSTEMS
    ensures DoNonModal(s, b, plan, g10Select).stored[HomeOf(first)] == s.stored[HomeOf(first)]
  {
  }

  lemma SparedOthers(s: Parser, b: Block, plan: Plan, blockSystem: Vec, k: nat)
    requires Shaped(s, |b.words|) && BlockOk(b, |b.words|) && plan.Plan? && |plan.xyz| == |b.words| == |blockSystem|
    requires NWC_SYSTEMS <= k < TLO_POS
    ensures DoLengthOffset(s, b, plan).stored[k] == s.stored[k]
    ensures DoSelect(s, b, blockSystem).stored[k] == s.stored[k] && DoMotion(s, b, plan).stored[k] == s.stored[k]
  {
    hide NewLengthOffset;
  }

  lemma SparedCommands(s: Parser, b: Block, first: bool)
    requires Shaped(s, |b.words|) && BlockOk(b, |b.words|) && Spares(b, first) && Checks(s, b).Plan?
    ensures Commands(s, b, Checks(s, b)).stored[HomeOf(first)] == s.stored[HomeOf(first)]
    ensures Commands(s, b, Checks(s, b)).pending == s.pending
  {
    assert b.nonModal.SetCoordinateData? ==> G10Select(s, b) < NWC_SYSTEMS;
    hide Checks, BlockSystem, DoLengthOffset, DoSelect, DoNonModal, DoMotion, Spares, Cached;
    var plan, system, k := Checks(s, b), BlockSystem(s, b), HomeOf(first);
    CommandsKeepCache(s, b, plan);
    var s0 := s.(inches := b.inches);
    SparedOthers(s0, b, plan, system, k);
    var s1 := DoLengthOffset(s0, b, plan);
    SparedOthers(s1, b, plan, system, k);
    var s2 := DoSelect(s1, b, system);
    var g := if b.nonModal.SetCoordinateData? then G10Select(s, b) else 0;
    SparedNonModal(s2, b, plan, g, first);
    SparedOthers(DoNonModal(s2, b, plan, g), b, plan, system, k);
  }

  lemma {:induction false} SparedAssigns(s: Parser, assigns: seq<Assign>, n: nat, index: nat)
    requires Shaped(s, n) && index < STORES && forall a :: a in assigns ==> AssignOk(a) && (a.ToStore? ==> a.index != index)
    ensures PerformAll(s, assigns, n).stored[index] == s.stored[index] && PerformAll(s, assigns, n).pending == s.pending
    decreases |assigns|
  {
    if assigns != [] {
      assert assigns[0] in assigns;
      PerformShaped(s, assigns[0], n);
      SparedAssigns(Perform(s, assigns[0]), assigns[1..], n, index);
    }
  }

  lemma SparedLine(s: Parser, b: Block, checkMode: bool, first: bool)
    requires Shaped(s, |b.words|) && BlockOk(b, |b.words|) && Spares(b, first)
    requires forall a :: a in s.pending ==> a.ToStore? ==> a.index != HomeOf(first)
    ensures var r := ExecuteLine(s, b, checkMode).1;
            r.stored[HomeOf(first)] == s.stored[HomeOf(first)] && forall a :: a in r.pending ==> a.ToStore? ==> a.index != HomeOf(first)
  {
    hide Checks, Commands, PerformAll;
    var queued := s.(pending := s.pending + b.assigns);
    if Checks(queued, b).Plan? {
      SparedCommands(queued, b, first);
      var last := DoProgramEnd(Commands(queued, b, Checks(queued, b)), b, checkMode);
      SparedAssigns(last.(pending := []), last.pending, |b.words|, HomeOf(first));
    }
  }

  lemma {:induction false} SparedRun(s: Parser, lines: seq<Line>, n: nat, first: bool)
    requires Shaped(s, n) && LinesOk(lines, n) && forall l :: l in lines ==> Spares(l.block, first)
    requires forall a :: a in s.pending ==> a.ToStore? ==> a.index != HomeOf(first)
    ensures RunLines(s, lines, n).stored[HomeOf(first)] == s.stored[HomeOf(first)]
    decreases |lines|
  {
    hide ExecuteLine, Spares;
    if lines != [] {
      assert lines[0] in lines && forall l :: l in lines[1..] ==> l in lines;
      SparedLine(s, lines[0].block, lines[0].checkMode, first);
      SparedRun(ExecuteLine(s, lines[0].block, lines[0].checkMode).1, lines[1..], n, first);
    }
  }

  lemma GoArrives(s: Parser, b: Block, checkMode: bool, first: bool, axis: nat)
    requires Shaped(s, |b.words|) && BlockOk(b, |b.words|) && s.pending == [] && Goes(b, first) && axis < |b.words|
    requires ExecuteLine(s, b, checkMode).0 == Ok
    ensures ExecuteLine(s, b, checkMode).1.position[axis] ==
            if HasAxisWords(b) && !Named(b, axis) then s.position[axis] else s.stored[HomeOf(first)][axis]
  {
    OnlyCommands(s, b, checkMode);
    hide ExecuteLine, Target, Values, HasAxisWords;
    assert Checks(s, b).coordData == HomeData(s, b);
  }

  /** G28.1 and, after any lines that do not store it anew, G28: the machine is back where it was, on all axes
      or on those named, the others staying where they are then. The same for G30.1 and G30. */
  lemma HomeReturns(s: Parser, store: Block, lines: seq<Line>, go: Block, n: nat, first: bool, checkMode: bool, axis: nat)
    requires Shaped(s, n) && |store.words| == |go.words| == n && BlockOk(store, n) && BlockOk(go, n) && LinesOk(lines, n)
    requires s.pending == [] && Sets(store, first) && Goes(go, first) && axis < n && ExecuteLine(s, store, checkMode).0 == Ok
    requires forall l :: l in lines ==> Spares(l.block, first)
    requires var t := RunLines(ExecuteLine(s, store, checkMode).1, lines, n);
             t.pending == [] && ExecuteLine(t, go, checkMode).0 == Ok
    ensures var t := RunLines(ExecuteLine(s, store, checkMode).1, lines, n);
            ExecuteLine(t, go, checkMode).1.position[axis] ==
            if HasAxisWords(go) && !Named(go, axis) then t.position[axis] else s.position[axis]
  {
    hide ExecuteLine, RunLines, Spares, Sets, Goes;
    SetStores(s, store, checkMode, first);
    var s1 := ExecuteLine(s, store, checkMode).1;
    SparedRun(s1, lines, n, first);
    GoArrives(RunLines(s1, lines, n), go, checkMode, first, axis);
  }
}
