/** What the words of an accepted block leave in it: each command word its field with the code of that word
    in FluidNC/src/GCode.h, each value word its value, and the axis words their command. */
module WordCodes {
  import opened Options
  import opened GCodeWords

  predicate Holds(b: Block, f: Field, code: int) {
    f in b.fields && b.fields[f] == code
  }

  // A word that sets a field to a code.
  predicate Gives(e: Effect, f: Field, code: int) {
    e.Command? && f in e.updates && e.updates[f] == code
  }

  // Once a group has had its command, its fields stay; so does the value of a letter.
  lemma {:induction false} FieldsStay(cfg: Config, b: Block, words: seq<Word>, f: Field, code: int)
    requires Parse(cfg, b, words).Ok? && GroupOf(f) in b.groups && Holds(b, f, code)
    ensures Holds(Parse(cfg, b, words).block, f, code)
    decreases |words|
  {
    hide Decode;
    if words != [] {
      DecodeLocal(cfg, words[0]);
      FieldsStay(cfg, Act(b, Decode(cfg, words[0])).block, words[1..], f, code);
    }
  }

  lemma {:induction false} ValuesStay(cfg: Config, b: Block, words: seq<Word>, letter: char)
    requires Parse(cfg, b, words).Ok? && letter in b.values
    ensures letter in Parse(cfg, b, words).block.values
    ensures Parse(cfg, b, words).block.values[letter] == b.values[letter]
    decreases |words|
  {
    hide Decode;
    if words != [] {
      ValuesStay(cfg, Act(b, Decode(cfg, words[0])).block, words[1..], letter);
    }
  }

  // What a word is decoded to is what the block ends up with.
  lemma {:induction false} WordActs(cfg: Config, b: Block, words: seq<Word>, w: Word)
    requires Parse(cfg, b, words).Ok? && w in words
    ensures var e, r := Decode(cfg, w), Parse(cfg, b, words).block;
            && !e.Refused?
            && (e.Command? ==> e.fault.None?) && (forall f, code :: Gives(e, f, code) ==> Holds(r, f, code))
            && (e.Value? ==> !e.negative && e.letter in r.values && r.values[e.letter] == e.stored)
    decreases |words|
  {
    hide Decode, Holds;
    var e := Decode(cfg, words[0]);
    var next := Act(b, e).block;
    if words[0] == w {
      if e.Command? {
        DecodeLocal(cfg, w);
        forall f, code | Gives(e, f, code) ensures Holds(Parse(cfg, b, words).block, f, code) {
          Written(b, e, f);
          FieldsStay(cfg, next, words[1..], f, code);
        }
      } else {
        ValuesStay(cfg, next, words[1..], e.letter);
      }
    } else {
      assert w in words[1..];
      WordActs(cfg, next, words[1..], w);
    }
  }

  lemma Written(b: Block, e: Effect, f: Field)
    requires e.Command? && Act(b, e).Ok? && f in e.updates
    ensures Holds(Act(b, e).block, f, e.updates[f])
  {
  }

  predicate GNumber(w: Word, v: int) { w.letter == 'G' && Trunc(w.value) == v }
  predicate MNumber(w: Word, v: int) { w.letter == 'M' && Trunc(w.value) == v }

  lemma ModalCodesDecode(cfg: Config, w: Word, v: int)
    requires GNumber(w, v) && !Decode(cfg, w).Refused? && (Decode(cfg, w).Command? ==> Decode(cfg, w).fault.None?)
    ensures var e := Decode(cfg, w);
            && (v == 17 ==> Gives(e, Plane, 170)) && (v == 18 ==> Gives(e, Plane, 180)) && (v == 19 ==> Gives(e, Plane, 190))
            && (v == 20 ==> Gives(e, Units, 200)) && (v == 21 ==> Gives(e, Units, 210))
            && (v == 90 ==> Gives(e, Distance, 900)) && (v == 91 && Mantissa(w.value) == 0 ==> Gives(e, Distance, 910))
            && (v == 93 ==> Gives(e, FeedRate, 930)) && (v == 94 ==> Gives(e, FeedRate, 940))
            && (v == 49 ==> Gives(e, ToolLength, 490)) && (v == 43 ==> Gives(e, ToolLength, 431))
            && (54 <= v <= 59 ==> Gives(e, CoordSelect, v - 54))
  {
    hide Trunc, Mantissa;
    if 54 <= v <= 59 {
      SelectDecodes(cfg, w);
    }
  }

  /** The modal G words, in any accepted block: most leave ten times their number. */
  lemma ModalCodes(cfg: Config, b: Block, words: seq<Word>, w: Word, v: int)
    requires Parse(cfg, b, words).Ok? && w in words && GNumber(w, v)
    ensures var r := Parse(cfg, b, words).block;
            && (v == 17 ==> Holds(r, Plane, 170)) && (v == 18 ==> Holds(r, Plane, 180)) && (v == 19 ==> Holds(r, Plane, 190))
            && (v == 20 ==> Holds(r, Units, 200)) && (v == 21 ==> Holds(r, Units, 210))
            && (v == 90 ==> Holds(r, Distance, 900)) && (v == 91 && Mantissa(w.value) == 0 ==> Holds(r, Distance, 910))
            && (v == 93 ==> Holds(r, FeedRate, 930)) && (v == 94 ==> Holds(r, FeedRate, 940))
            && (v == 49 ==> Holds(r, ToolLength, 490)) && (v == 43 ==> Holds(r, ToolLength, 431))
            && (54 <= v <= 59 ==> Holds(r, CoordSelect, v - 54))
  {
    WordActs(cfg, b, words, w);
    ModalCodesDecode(cfg, w, v);
    hide Parse, Holds, Gives, Decode, Trunc, Mantissa;
  }

  lemma MotionCodesDecode(cfg: Config, w: Word, v: int)
    requires GNumber(w, v) && !Decode(cfg, w).Refused? && (Decode(cfg, w).Command? ==> Decode(cfg, w).fault.None?)
    ensures var e, m := Decode(cfg, w), Mantissa(w.value);
            && (v == 0 ==> Gives(e, Motion, 0)) && (v == 1 ==> Gives(e, Motion, 10)) && (v == 2 ==> Gives(e, Motion, 20))
            && (v == 3 ==> Gives(e, Motion, 30)) && (v == 80 ==> Gives(e, Motion, 800))
            && (v == 38 ==> m in {20, 30, 40, 50, 60, 70, 80, 90} && Gives(e, ProbeExplicit, 1)
                            && (if m <= 50 then Gives(e, Motion, 380 + m / 10) && Gives(e, NonmodalG38, 0)
                                else Gives(e, Motion, 376 + m / 10) && Gives(e, NonmodalG38, 1)))
  {
    hide Trunc, Mantissa;
  }

  /** The motion words. G38.6 to G38.9 are G38.2 to G38.5, in machine coordinates. */
  lemma MotionCodes(cfg: Config, b: Block, words: seq<Word>, w: Word, v: int)
    requires Parse(cfg, b, words).Ok? && w in words && GNumber(w, v)
    ensures var r, m := Parse(cfg, b, words).block, Mantissa(w.value);
            && (v == 0 ==> Holds(r, Motion, 0)) && (v == 1 ==> Holds(r, Motion, 10)) && (v == 2 ==> Holds(r, Motion, 20))
            && (v == 3 ==> Holds(r, Motion, 30)) && (v == 80 ==> Holds(r, Motion, 800))
            && (v == 38 ==> m in {20, 30, 40, 50, 60, 70, 80, 90} && Holds(r, ProbeExplicit, 1)
                            && (if m <= 50 then Holds(r, Motion, 380 + m / 10) && Holds(r, NonmodalG38, 0)
                                else Holds(r, Motion, 376 + m / 10) && Holds(r, NonmodalG38, 1)))
  {
    WordActs(cfg, b, words, w);
    MotionCodesDecode(cfg, w, v);
    hide Parse, Holds, Gives, Decode, Trunc, Mantissa;
  }

  lemma NonModalCodesDecode(cfg: Config, w: Word, v: int)
    requires GNumber(w, v) && !Decode(cfg, w).Refused? && (Decode(cfg, w).Command? ==> Decode(cfg, w).fault.None?)
    ensures var e, m := Decode(cfg, w), Mantissa(w.value);
            && (v == 4 ==> Gives(e, NonModalCommand, 40)) && (v == 10 ==> Gives(e, NonModalCommand, 100))
            && (v == 53 ==> Gives(e, NonModalCommand, 530))
            && (v == 28 ==> (m == 0 && Gives(e, NonModalCommand, 280)) || (m == 10 && Gives(e, NonModalCommand, 281)))
            && (v == 30 ==> (m == 0 && Gives(e, NonModalCommand, 300)) || (m == 10 && Gives(e, NonModalCommand, 301)))
            && (v == 92 ==> (m == 0 && Gives(e, NonModalCommand, 920)) || (m == 10 && Gives(e, NonModalCommand, 921)))
  {
    hide Trunc, Mantissa;
  }

  /** The non-modal words, with and without the fraction .1. */
  lemma NonModalCodes(cfg: Config, b: Block, words: seq<Word>, w: Word, v: int)
    requires Parse(cfg, b, words).Ok? && w in words && GNumber(w, v)
    ensures var r, m := Parse(cfg, b, words).block, Mantissa(w.value);
            && (v == 4 ==> Holds(r, NonModalCommand, 40)) && (v == 10 ==> Holds(r, NonModalCommand, 100))
            && (v == 53 ==> Holds(r, NonModalCommand, 530))
            && (v == 28 ==> (m == 0 && Holds(r, NonModalCommand, 280)) || (m == 10 && Holds(r, NonModalCommand, 281)))
            && (v == 30 ==> (m == 0 && Holds(r, NonModalCommand, 300)) || (m == 10 && Holds(r, NonModalCommand, 301)))
            && (v == 92 ==> (m == 0 && Holds(r, NonModalCommand, 920)) || (m == 10 && Holds(r, NonModalCommand, 921)))
  {
    WordActs(cfg, b, words, w);
    NonModalCodesDecode(cfg, w, v);
    hide Parse, Holds, Gives, Decode, Trunc, Mantissa;
  }

  lemma MCodesDecode(cfg: Config, w: Word, v: int)
    requires MNumber(w, v) && !Decode(cfg, w).Refused? && (Decode(cfg, w).Command? ==> Decode(cfg, w).fault.None?)
    ensures var e := Decode(cfg, w);
            && (v == 0 ==> Gives(e, ProgramFlow, 3)) && (v == 2 ==> Gives(e, ProgramFlow, 2)) && (v == 30 ==> Gives(e, ProgramFlow, 30))
            && (v == 3 ==> Gives(e, Spindle, 3)) && (v == 4 ==> Gives(e, Spindle, 4) && cfg.reversible) && (v == 5 ==> Gives(e, Spindle, 5))
            && (v == 6 ==> Gives(e, ToolChange, 1)) && (v == 61 ==> Gives(e, SetToolNumber, 1))
            && (v == 7 && cfg.hasMist ==> Gives(e, Coolant, 1)) && (v == 8 && cfg.hasFlood ==> Gives(e, Coolant, 2))
            && (v == 9 && (cfg.hasMist || cfg.hasFlood) ==> Gives(e, Coolant, 3))
            && (v == 56 ==> Gives(e, Override, 0) && cfg.parkingOverride)
            && (v == 62 ==> Gives(e, IoControl, 1)) && (v == 63 ==> Gives(e, IoControl, 2)) && (v == 64 ==> Gives(e, IoControl, 3))
            && (v == 65 ==> Gives(e, IoControl, 4)) && (v == 66 ==> Gives(e, IoControl, 5)) && (v == 67 ==> Gives(e, IoControl, 6))
            && (v == 68 ==> Gives(e, IoControl, 7))
  {
    hide Trunc, Mantissa;
  }

  /** The M words. Coolant words count only for what is fitted. */
  lemma MCodes(cfg: Config, b: Block, words: seq<Word>, w: Word, v: int)
    requires Parse(cfg, b, words).Ok? && w in words && MNumber(w, v)
    ensures var r := Parse(cfg, b, words).block;
            && (v == 0 ==> Holds(r, ProgramFlow, 3)) && (v == 2 ==> Holds(r, ProgramFlow, 2)) && (v == 30 ==> Holds(r, ProgramFlow, 30))
            && (v == 3 ==> Holds(r, Spindle, 3)) && (v == 4 ==> Holds(r, Spindle, 4) && cfg.reversible) && (v == 5 ==> Holds(r, Spindle, 5))
            && (v == 6 ==> Holds(r, ToolChange, 1)) && (v == 61 ==> Holds(r, SetToolNumber, 1))
            && (v == 7 && cfg.hasMist ==> Holds(r, Coolant, 1)) && (v == 8 && cfg.hasFlood ==> Holds(r, Coolant, 2))
            && (v == 9 && (cfg.hasMist || cfg.hasFlood) ==> Holds(r, Coolant, 3))
            && (v == 56 ==> Holds(r, Override, 0) && cfg.parkingOverride)
            && (v == 62 ==> Holds(r, IoControl, 1)) && (v == 63 ==> Holds(r, IoControl, 2)) && (v == 64 ==> Holds(r, IoControl, 3))
            && (v == 65 ==> Holds(r, IoControl, 4)) && (v == 66 ==> Holds(r, IoControl, 5)) && (v == 67 ==> Holds(r, IoControl, 6))
            && (v == 68 ==> Holds(r, IoControl, 7))
  {
    WordActs(cfg, b, words, w);
    MCodesDecode(cfg, w, v);
    hide Parse, Holds, Gives, Decode, Trunc, Mantissa;
  }

  /** No other G and M words are in an accepted block, and of fractions only those the words have. */
  lemma OnlyKnownWords(cfg: Config, b: Block, words: seq<Word>, w: Word, v: int)
    requires Parse(cfg, b, words).Ok? && w in words
    ensures GNumber(w, v) ==>
              && v in {0, 1, 2, 3, 4, 10, 17, 18, 19, 20, 21, 28, 30, 38, 40, 43, 49, 53, 54, 55, 56, 57, 58, 59, 61, 80, 90, 91, 92, 93, 94}
              && (Mantissa(w.value) > 0 ==> v == 38 || v == 49 || (Mantissa(w.value) == 10 && v in {28, 30, 43, 91, 92}))
    ensures MNumber(w, v) ==>
              && v in {0, 1, 2, 3, 4, 5, 6, 7, 8, 9, 30, 56, 61, 62, 63, 64, 65, 66, 67, 68}
              && (Mantissa(w.value) > 0 ==> Mantissa(w.value) == 10 && (v == 7 || v == 8))
  {
    WordActs(cfg, b, words, w);
    hide Parse, Holds, Trunc, Mantissa;
  }

  /** A value word leaves its value: whole numbers for E, L, N, O and T, those of E and L modulo 256. */
  lemma ValueStored(cfg: Config, b: Block, words: seq<Word>, w: Word)
    requires Parse(cfg, b, words).Ok? && w in words && w.letter != 'G' && w.letter != 'M'
    ensures var values := Parse(cfg, b, words).block.values;
            && w.letter in values
            && values[w.letter] == (if w.letter in {'E', 'L'} then (Trunc(w.value) % 256) as real
                                    else if w.letter in {'N', 'O', 'T'} then Trunc(w.value) as real else w.value)
            && (w.letter in {'F', 'N', 'P', 'S', 'T'} ==> w.value >= 0.0)
  {
    WordActs(cfg, b, words, w);
    hide Parse, Trunc, Mantissa;
  }

  // ---- What the axis words are for ------------------------------------------------------------------------

  predicate IsMove(w: Word) {
    w.letter == 'G' && 0 <= Trunc(w.value) <= 3
  }

  // Nothing but G0 to G3 changes a command that is set.
  lemma {:induction false} AxisCommandStays(cfg: Config, b: Block, words: seq<Word>)
    requires Parse(cfg, b, words).Ok? && !b.axisCommand.NoCommand?
    ensures Parse(cfg, b, words).block.axisCommand == b.axisCommand
            || (Parse(cfg, b, words).block.axisCommand == MotionMode && exists w :: w in words && IsMove(w))
    decreases |words|
  {
    hide Decode, IsMove;
    if words != [] {
      MovesSet(cfg, words[0]);
      AxisCommandStays(cfg, Act(b, Decode(cfg, words[0])).block, words[1..]);
      assert words[0] in words && forall w :: w in words[1..] ==> w in words;
    }
  }

  lemma MovesSet(cfg: Config, w: Word)
    ensures var e := Decode(cfg, w);
            && (e.Command? && e.use.Sets? ==> IsMove(w) && e.use.command == MotionMode)
            && (IsMove(w) && e.Command? ==> e.use == Sets(MotionMode))
            && (e.Command? && e.use.Claims? ==> !e.use.command.NoCommand?)
  {
    hide Trunc, Mantissa;
  }

  /** With a word of G0 to G3 in an accepted block the axis words are for the motion. */
  lemma {:induction false} AxisWordsMove(cfg: Config, b: Block, words: seq<Word>, w: Word)
    requires Parse(cfg, b, words).Ok? && w in words && IsMove(w)
    ensures Parse(cfg, b, words).block.axisCommand == MotionMode
    decreases |words|
  {
    hide Decode, IsMove;
    var e := Decode(cfg, words[0]);
    var next := Act(b, e).block;
    if words[0] == w {
      WordActs(cfg, b, words, w);
      MovesSet(cfg, w);
      MovesAreCommands(cfg, w);
      AxisCommandStays(cfg, next, words[1..]);
    } else {
      assert w in words[1..];
      AxisWordsMove(cfg, next, words[1..], w);
    }
  }

  lemma MovesAreCommands(cfg: Config, w: Word)
    requires IsMove(w)
    ensures Decode(cfg, w).Command?
  {
    hide Trunc, Mantissa;
  }

  /** Without one, a word that claims them has them: G10, G28, G30 and G92 without a fraction, G43 and G49,
      and G38. */
  lemma {:induction false} AxisWordsClaimed(cfg: Config, b: Block, words: seq<Word>, w: Word, v: int)
    requires Parse(cfg, b, words).Ok? && w in words && GNumber(w, v) && forall x :: x in words ==> !IsMove(x)
    ensures var command := Parse(cfg, b, words).block.axisCommand;
            && (v in {10, 28, 30, 92} && Mantissa(w.value) == 0 ==> command == NonModal)
            && (v in {43, 49} ==> command == ToolLengthOffset) && (v == 38 ==> command == MotionMode)
    decreases |words|
  {
    var e := Decode(cfg, words[0]);
    var next := Act(b, e).block;
    assert forall x :: x in words[1..] ==> x in words;
    if words[0] == w {
      ClaimedBy(cfg, w, v);
      hide Decode, IsMove, Mantissa, Trunc;
      if e.use.Claims? {
        AxisCommandStays(cfg, next, words[1..]);
      }
    } else {
      hide Decode, IsMove, Mantissa, Trunc;
      assert w in words[1..];
      AxisWordsClaimed(cfg, next, words[1..], w, v);
    }
  }

  lemma ClaimedBy(cfg: Config, w: Word, v: int)
    requires GNumber(w, v)
    ensures var e := Decode(cfg, w);
            && (e.Command? && v in {10, 28, 30, 92} && Mantissa(w.value) == 0 ==> e.use == Claims(NonModal))
            && (e.Command? && v in {43, 49} ==> e.use == Claims(ToolLengthOffset))
            && (e.Command? && v == 38 ==> e.use == Claims(MotionMode))
            && !e.Value?
  {
    hide Trunc, Mantissa;
  }
}
