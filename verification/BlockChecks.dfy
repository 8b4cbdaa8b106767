/** Which blocks of words are accepted, exactly, and with which error the others are refused, in terms of
    the numbers of the words (FluidNC/src/GCode.cpp). */
module BlockChecks {
  import opened Options
  import opened GCodeWords

  // ---- The words -----------------------------------------------------------------------------------------

  predicate GoodG(cfg: Config, v: int, m: int) {
    || (m <= 0 && v in {0, 1, 2, 3, 4, 10, 17, 18, 19, 20, 21, 40, 53, 54, 55, 56, 57, 58, 59, 80, 93, 94})
    || v == 49
    || ((m == 0 || m == 10) && v in {28, 30, 91, 92})
    || (m == 0 && v in {61, 90})
    || (m == 10 && v == 43)
    || (v == 38 && cfg.hasProbe && m in {20, 30, 40, 50, 60, 70, 80, 90})
  }

  predicate GoodM(cfg: Config, v: int, m: int) {
    || (m <= 0 && v in {0, 1, 2, 3, 5, 6, 9, 30, 61, 62, 63, 64, 65, 66, 67, 68})
    || (m <= 0 && ((v == 4 && cfg.reversible) || (v == 56 && cfg.parkingOverride)))
    || ((m == 0 || m == 10) && v in {7, 8})
  }

  predicate AxisLetter(cfg: Config, letter: char) {
    exists i :: 0 <= i < cfg.axes && i < 9 && "XYZABCUVW"[i] == letter
  }

  predicate ValueLetter(cfg: Config, letter: char) {
    AxisLetter(cfg, letter) || letter in {'D', 'E', 'F', 'I', 'J', 'K', 'L', 'N', 'O', 'P', 'Q', 'R', 'S', 'T'}
  }

  predicate Negative(w: Word) {
    w.letter in {'F', 'N', 'P', 'S', 'T'} && w.value < 0.0
  }

  // A word that is accepted on its own.
  predicate Good(cfg: Config, w: Word) {
    if w.letter == 'G' then GoodG(cfg, Trunc(w.value), Mantissa(w.value))
    else if w.letter == 'M' then GoodM(cfg, Trunc(w.value), Mantissa(w.value))
    else ValueLetter(cfg, w.letter) && !Negative(w) && (w.letter == 'O' ==> Mantissa(w.value) <= 0)
         && (w.letter == 'T' ==> w.value <= 99999999.0)
  }

  predicate IsCommand(w: Word) {
    w.letter == 'G' || w.letter == 'M'
  }

  // The modal groups by number; of the groups of G91 one is for the fraction .1.
  function GNumberGroup(v: int, m: int): int {
    if v in {4, 10, 28, 30, 53, 92} then 0
    else if v in {0, 1, 2, 3, 38, 80} then 1
    else if v in {17, 18, 19} then 2
    else if v == 90 || (v == 91 && m == 0) then 3
    else if v == 91 then 4
    else if v in {93, 94} then 5
    else if v in {20, 21} then 6
    else if v == 40 then 7
    else if v in {43, 49} then 8
    else if v in {54, 55, 56, 57, 58, 59} then 12
    else 13
  }

  function MNumberGroup(v: int): int {
    if v in {0, 1, 2, 30} then 4
    else if 62 <= v <= 68 then 5
    else if v in {6, 61} then 6
    else if v in {3, 4, 5} then 7
    else if v in {7, 8, 9} then 8
    else 9
  }

  // Words that cannot stand in one block: commands of one modal group, and values of one letter.
  predicate SameGroup(x: Word, y: Word) {
    && x.letter == y.letter
    && (x.letter == 'G' ==> GNumberGroup(Trunc(x.value), Mantissa(x.value)) == GNumberGroup(Trunc(y.value), Mantissa(y.value)))
    && (x.letter == 'M' ==> MNumberGroup(Trunc(x.value)) == MNumberGroup(Trunc(y.value)))
  }

  // Words that take the axis words, if no word before them does.
  predicate Claiming(w: Word) {
    w.letter == 'G' && (Trunc(w.value) in {38, 43, 49} || (Trunc(w.value) in {10, 28, 30, 92} && Mantissa(w.value) == 0))
  }

  predicate Taking(w: Word) {
    Claiming(w) || (w.letter == 'G' && 0 <= Trunc(w.value) <= 3)
  }

  // ---- The words as they are decoded -----------------------------------------------------------------------

  predicate Fine(e: Effect) {
    !e.Refused? && (e.Command? ==> e.fault.None?) && (e.Value? ==> !e.negative)
  }

  lemma GFine(cfg: Config, v: int, m: int)
    ensures Fine(GWord(cfg, v, m)) <==> GoodG(cfg, v, m)
    ensures GWord(cfg, v, m).Command? || GWord(cfg, v, m).Refused?
  {
  }

  lemma MFine(cfg: Config, v: int, m: int)
    ensures Fine(MWord(cfg, v, m)) <==> GoodM(cfg, v, m)
    ensures MWord(cfg, v, m).Command? || MWord(cfg, v, m).Refused?
  {
  }

  lemma AxisLetters(cfg: Config, letter: char)
    ensures AxisLetter(cfg, letter) <==> AxisIndex(letter).Some? && AxisIndex(letter).value < cfg.axes
    ensures AxisIndex(letter).Some? ==> 'A' <= letter <= 'Z' && letter != 'G' && letter != 'M'
  {
    if AxisIndex(letter).Some? && AxisIndex(letter).value < cfg.axes {
      assert "XYZABCUVW"[AxisIndex(letter).value] == letter;
    }
  }

  lemma ValueFine(cfg: Config, w: Word)
    requires !IsCommand(w)
    ensures var e := Decode(cfg, w);
            && (Fine(e) <==> Good(cfg, w)) && !e.Command?
            && (e.Value? ==> e.letter == w.letter && e.negative == Negative(w))
            && (e.Value? <==> ValueLetter(cfg, w.letter) && (w.letter == 'O' ==> Mantissa(w.value) <= 0)
                              && (w.letter == 'T' ==> w.value <= 99999999.0))
  {
    hide Trunc, Mantissa, AxisIndex, AxisLetter;
    AxisLetters(cfg, w.letter);
    assert AxisIndex(w.letter).Some? ==> w.letter !in {'D', 'E', 'F', 'I', 'J', 'K', 'L', 'N', 'O', 'P', 'Q', 'R', 'S', 'T'} by {
      OtherLetters(w.letter);
    }
  }

  lemma OtherLetters(letter: char)
    ensures AxisIndex(letter).Some? ==> letter !in {'D', 'E', 'F', 'I', 'J', 'K', 'L', 'N', 'O', 'P', 'Q', 'R', 'S', 'T'}
  {
  }

  lemma DecodeFine(cfg: Config, w: Word)
    ensures var e := Decode(cfg, w);
            && (Fine(e) <==> Good(cfg, w)) && (Fine(e) ==> (e.Command? <==> IsCommand(w))) && (e.Command? ==> IsCommand(w))
            && (e.Value? ==> e.letter == w.letter && !IsCommand(w))
  {
    hide GWord, MWord, GoodG, GoodM, Trunc, Mantissa, ValueWord, ValueLetter, Negative;
    GFine(cfg, Trunc(w.value), Mantissa(w.value));
    MFine(cfg, Trunc(w.value), Mantissa(w.value));
    if !IsCommand(w) {
      ValueFine(cfg, w);
    }
  }

  function GroupNumber(g: ModalGroup): (bool, int) {
    match g
    case MG0 => (true, 0)
    case MG1 => (true, 1)
    case MG2 => (true, 2)
    case MG3 => (true, 3)
    case MG4 => (true, 4)
    case MG5 => (true, 5)
    case MG6 => (true, 6)
    case MG7 => (true, 7)
    case MG8 => (true, 8)
    case MG12 => (true, 12)
    case MG13 => (true, 13)
    case MM4 => (false, 4)
    case MM5 => (false, 5)
    case MM6 => (false, 6)
    case MM7 => (false, 7)
    case MM8 => (false, 8)
    case MM9 => (false, 9)
  }

  lemma GroupNumbers(g: ModalGroup, h: ModalGroup)
    ensures GroupNumber(g) == GroupNumber(h) <==> g == h
  {
  }

  lemma GGroup(cfg: Config, v: int, m: int)
    requires GoodG(cfg, v, m)
    ensures var e := GWord(cfg, v, m); e.Command? && GroupNumber(e.group) == (true, GNumberGroup(v, m))
  {
  }

  lemma MGroup(cfg: Config, v: int, m: int)
    requires GoodM(cfg, v, m)
    ensures var e := MWord(cfg, v, m); e.Command? && GroupNumber(e.group) == (false, MNumberGroup(v))
  {
  }

  // What a block must be free of for the word.
  predicate Clash(e: Effect, f: Effect) {
    (e.Command? && f.Command? && e.group == f.group) || (e.Value? && f.Value? && e.letter == f.letter)
  }

  lemma ClashExact(cfg: Config, x: Word, y: Word)
    requires Good(cfg, x) && Good(cfg, y)
    ensures Clash(Decode(cfg, x), Decode(cfg, y)) <==> SameGroup(x, y)
  {
    DecodeFine(cfg, x);
    DecodeFine(cfg, y);
    hide GWord, MWord, GoodG, GoodM, Trunc, Mantissa, ValueWord, ValueLetter, Negative, GNumberGroup, MNumberGroup, GroupNumber;
    if IsCommand(x) && IsCommand(y) {
      Numbered(cfg, x);
      Numbered(cfg, y);
      GroupNumbers(Decode(cfg, x).group, Decode(cfg, y).group);
    }
  }

  lemma Numbered(cfg: Config, w: Word)
    requires Good(cfg, w) && IsCommand(w)
    ensures var e := Decode(cfg, w);
            e.Command? && GroupNumber(e.group) ==
              if w.letter == 'G' then (true, GNumberGroup(Trunc(w.value), Mantissa(w.value)))
              else (false, MNumberGroup(Trunc(w.value)))
  {
    hide GWord, MWord, GoodG, GoodM, Trunc, Mantissa, GNumberGroup, MNumberGroup, GroupNumber;
    if w.letter == 'G' {
      GGroup(cfg, Trunc(w.value), Mantissa(w.value));
    } else {
      MGroup(cfg, Trunc(w.value), Mantissa(w.value));
    }
  }

  predicate Claims(e: Effect) { e.Command? && e.use.Claims? }
  predicate Takes(e: Effect) { e.Command? && !e.use.Ignores? }

  lemma GTakes(cfg: Config, v: int, m: int)
    requires GoodG(cfg, v, m)
    ensures var e := GWord(cfg, v, m);
            && (Claims(e) <==> v in {38, 43, 49} || (v in {10, 28, 30, 92} && m == 0))
            && (Takes(e) <==> Claims(e) || 0 <= v <= 3) && (Takes(e) ==> !e.use.command.NoCommand?)
  {
  }

  lemma MTakes(cfg: Config, v: int, m: int)
    ensures !Takes(MWord(cfg, v, m))
  {
  }

  lemma TakesExact(cfg: Config, w: Word)
    requires Good(cfg, w)
    ensures var e := Decode(cfg, w);
            (Claims(e) <==> Claiming(w)) && (Takes(e) <==> Taking(w)) && (Takes(e) ==> !e.use.command.NoCommand?)
  {
    DecodeFine(cfg, w);
    hide GWord, MWord, GoodG, GoodM, Trunc, Mantissa, ValueWord, ValueLetter, Negative;
    if w.letter == 'G' {
      GTakes(cfg, Trunc(w.value), Mantissa(w.value));
    } else if w.letter == 'M' {
      MTakes(cfg, Trunc(w.value), Mantissa(w.value));
    }
  }

  // ---- The block -----------------------------------------------------------------------------------------

  const EMPTY := Block(map[], {}, map[], NoCommand)

  // The masks show a word like it.
  predicate Occupied(b: Block, e: Effect) {
    (e.Command? && e.group in b.groups) || (e.Value? && e.letter in b.values)
  }

  lemma ActExact(b: Block, e: Effect)
    ensures Act(b, e).Ok? <==> Fine(e) && !Occupied(b, e) && (Claims(e) ==> b.axisCommand.NoCommand?)
  {
  }

  lemma ActLeaves(b: Block, e: Effect, f: Effect)
    requires Act(b, e).Ok? && (Takes(e) ==> !e.use.command.NoCommand?)
    ensures var next := Act(b, e).block;
            && (Occupied(next, f) <==> Occupied(b, f) || Clash(e, f))
            && (next.axisCommand.NoCommand? <==> b.axisCommand.NoCommand? && !Takes(e))
  {
  }

  // Words that fit into a block and with each other.
  ghost predicate Fits(cfg: Config, b: Block, words: seq<Word>) {
    && (forall i :: 0 <= i < |words| ==>
          Good(cfg, words[i]) && !Occupied(b, Decode(cfg, words[i])) && (Claiming(words[i]) ==> b.axisCommand.NoCommand?))
    && Together(words)
  }

  // No two of one group, no claim behind a word that takes the axis words, and an O word only at the end.
  predicate Together(words: seq<Word>) {
    && (forall i, j :: 0 <= i < j < |words| ==>
          !SameGroup(words[i], words[j]) && !(Taking(words[i]) && Claiming(words[j])))
    && (forall i :: 0 <= i < |words| - 1 ==> words[i].letter != 'O')
  }

  lemma TogetherTail(words: seq<Word>)
    requires words != []
    ensures Together(words) <==>
            && Together(words[1..]) && (words[1..] != [] ==> words[0].letter != 'O')
            && (forall k :: 0 <= k < |words[1..]| ==>
                  !SameGroup(words[0], words[1..][k]) && !(Taking(words[0]) && Claiming(words[1..][k])))
  {
    hide SameGroup, Taking, Claiming;
    var rest := words[1..];
    assert forall k :: 0 <= k < |rest| ==> rest[k] == words[k + 1];
    if Together(words) {
      forall i, j | 0 <= i < j < |rest| ensures !SameGroup(rest[i], rest[j]) && !(Taking(rest[i]) && Claiming(rest[j])) {
        assert rest[i] == words[i + 1] && rest[j] == words[j + 1];
      }
    }
    if Together(rest) && (rest != [] ==> words[0].letter != 'O')
       && (forall k :: 0 <= k < |rest| ==> !SameGroup(words[0], rest[k]) && !(Taking(words[0]) && Claiming(rest[k]))) {
      forall i, j | 0 <= i < j < |words| ensures !SameGroup(words[i], words[j]) && !(Taking(words[i]) && Claiming(words[j])) {
        assert words[j] == rest[j - 1];
        if i > 0 {
          assert words[i] == rest[i - 1];
        }
      }
      forall i | 0 <= i < |words| - 1 ensures words[i].letter != 'O' {
        if i > 0 {
          assert words[i] == rest[i - 1];
        }
      }
    }
  }

  // What the first word leaves for the others.
  lemma FirstFits(cfg: Config, b: Block, words: seq<Word>)
    requires words != [] && Act(b, Decode(cfg, words[0])).Ok?
    requires words[1..] != [] ==> words[0].letter != 'O'
    ensures Fits(cfg, Act(b, Decode(cfg, words[0])).block, words[1..]) <==> Fits(cfg, b, words)
  {
    var w, rest := words[0], words[1..];
    var e := Decode(cfg, w);
    var next := Act(b, e).block;
    ActExact(b, e);
    DecodeFine(cfg, w);
    TakesExact(cfg, w);
    TogetherTail(words);
    hide Decode, Act, Fine, Good, Claims, Claiming, Takes, Taking, SameGroup, Clash, Together, Occupied;
    forall k | 0 <= k < |rest| && Good(cfg, rest[k])
      ensures Occupied(next, Decode(cfg, rest[k])) <==> Occupied(b, Decode(cfg, rest[k])) || SameGroup(w, rest[k])
      ensures next.axisCommand.NoCommand? <==> b.axisCommand.NoCommand? && !Taking(w)
    {
      ActLeaves(b, e, Decode(cfg, rest[k]));
      ClashExact(cfg, w, rest[k]);
    }
    assert forall k :: 0 <= k < |rest| ==> rest[k] == words[k + 1];
    assert forall i :: 0 < i < |words| ==> words[i] == rest[i - 1];
  }

  lemma {:induction false} ParseExact(cfg: Config, b: Block, words: seq<Word>)
    requires 'O' !in b.values
    ensures Parse(cfg, b, words).Ok? <==> Fits(cfg, b, words)
    decreases |words|
  {
    if words != [] {
      var e := Decode(cfg, words[0]);
      ActExact(b, e);
      DecodeFine(cfg, words[0]);
      if Act(b, e).Ok? {
        TakesExact(cfg, words[0]);
        ActO(cfg, b, words[0]);
        hide Decode, Act, Good, SameGroup, Taking, Claiming, Fine;
        if words[1..] == [] || words[0].letter != 'O' {
          FirstFits(cfg, b, words);
          if words[0].letter != 'O' {
            ParseExact(cfg, Act(b, e).block, words[1..]);
          }
        }
      } else if Good(cfg, words[0]) {
        TakesExact(cfg, words[0]);
      }
    }
  }

  lemma ActO(cfg: Config, b: Block, w: Word)
    requires Act(b, Decode(cfg, w)).Ok? && 'O' !in b.values
    ensures 'O' in Act(b, Decode(cfg, w)).block.values <==> w.letter == 'O'
  {
    DecodeFine(cfg, w);
    hide Decode, Good;
  }

  /** A line is accepted exactly when each of its words is, no two commands are of one modal group and no two
      values of one letter, no word claims the axis words behind one that takes them, and nothing follows
      an O word. */
  lemma AcceptedExact(cfg: Config, words: seq<Word>)
    ensures Parse(cfg, EMPTY, words).Ok? <==> (forall i :: 0 <= i < |words| ==> Good(cfg, words[i])) && Together(words)
  {
    ParseExact(cfg, EMPTY, words);
    hide Parse, Good, Together, Decode;
  }

  // ---- The error -----------------------------------------------------------------------------------------

  predicate NoFlow(words: seq<Word>) {
    forall i :: 0 <= i < |words| ==> words[i].letter != 'O'
  }

  lemma {:induction false} ParseOn(cfg: Config, b: Block, front: seq<Word>, rest: seq<Word>)
    requires 'O' !in b.values && NoFlow(front) && Parse(cfg, b, front).Ok?
    ensures var r := Parse(cfg, b, front).block; 'O' !in r.values && Parse(cfg, b, front + rest) == Parse(cfg, r, rest)
    decreases |front|
  {
    hide Decode, Act;
    if front == [] {
      assert front + rest == rest;
    } else {
      assert (front + rest)[1..] == front[1..] + rest;
      ActO(cfg, b, front[0]);
      ParseOn(cfg, Act(b, Decode(cfg, front[0])).block, front[1..], rest);
    }
  }

  // What the masks and axis_command show after words that were accepted.
  lemma {:induction false} StateAfter(cfg: Config, b: Block, front: seq<Word>, f: Effect)
    requires Parse(cfg, b, front).Ok?
    ensures var r := Parse(cfg, b, front).block;
            && (Occupied(r, f) <==> Occupied(b, f) || exists i :: 0 <= i < |front| && Clash(Decode(cfg, front[i]), f))
            && (r.axisCommand.NoCommand? <==> b.axisCommand.NoCommand? && forall i :: 0 <= i < |front| ==> !Taking(front[i]))
            && (forall i :: 0 <= i < |front| ==> Good(cfg, front[i]))
    decreases |front|
  {
    hide Decode, Act, Good, Taking, Fine, Takes, Claims, Clash, Occupied;
    if front != [] {
      var e := Decode(cfg, front[0]);
      ActExact(b, e);
      DecodeFine(cfg, front[0]);
      TakesExact(cfg, front[0]);
      ActLeaves(b, e, f);
      StateAfter(cfg, Act(b, e).block, front[1..], f);
      assert forall i :: 0 <= i < |front[1..]| ==> front[1..][i] == front[i + 1];
      assert forall i :: 0 < i < |front| ==> front[i] == front[1..][i - 1];
    }
  }

  // The word `w` behind words that were accepted is the first that is not.
  lemma FirstRefused(cfg: Config, front: seq<Word>, w: Word, rest: seq<Word>)
    requires Parse(cfg, EMPTY, front).Ok? && NoFlow(front)
    ensures var b := Parse(cfg, EMPTY, front).block;
            Act(b, Decode(cfg, w)).Err? ==> Parse(cfg, EMPTY, front + ([w] + rest)) == Act(b, Decode(cfg, w))
  {
    ParseOn(cfg, EMPTY, front, [w] + rest);
    hide Act, Decode;
    assert ([w] + rest)[0] == w;
  }

  /** A word that would be accepted on its own is refused behind others: a value of a letter they have is
      a repeated word, a claim on the axis words they take a conflict, and a command of a modal group they
      have a violation of the group. */
  lemma ConflictErrors(cfg: Config, front: seq<Word>, w: Word, rest: seq<Word>)
    requires Parse(cfg, EMPTY, front).Ok? && NoFlow(front) && Good(cfg, w)
    ensures var r := Parse(cfg, EMPTY, front + ([w] + rest));
            var same, taken := exists i :: 0 <= i < |front| && SameGroup(front[i], w), exists i :: 0 <= i < |front| && Taking(front[i]);
            && (!IsCommand(w) && same ==> r == Err(GcodeWordRepeated))
            && (Claiming(w) && taken ==> r == Err(GcodeAxisCommandConflict))
            && (IsCommand(w) && same && !(Claiming(w) && taken) ==> r == Err(GcodeModalGroupViolation))
  {
    var e := Decode(cfg, w);
    StateAfter(cfg, EMPTY, front, e);
    DecodeFine(cfg, w);
    TakesExact(cfg, w);
    hide Decode, Good, Taking, Claiming, SameGroup, Clash, Parse;
    forall i | 0 <= i < |front| ensures Clash(Decode(cfg, front[i]), e) <==> SameGroup(front[i], w) {
      ClashExact(cfg, front[i], w);
    }
    FirstRefused(cfg, front, w, rest);
  }

  // The words whose number is a whole one.
  predicate WholeG(v: int) {
    v in {0, 1, 2, 3, 4, 17, 18, 19, 20, 21, 40, 53, 54, 55, 56, 57, 58, 59, 80, 93, 94}
  }

  predicate KnownG(v: int) {
    WholeG(v) || v in {10, 28, 30, 38, 43, 49, 61, 90, 91, 92}
  }

  predicate KnownM(v: int) {
    v in {0, 1, 2, 3, 4, 5, 6, 7, 8, 9, 30, 56, 61, 62, 63, 64, 65, 66, 67, 68}
  }

  /** Commands that are never accepted: an unknown number is not supported, nor is a word the machine is not
      fitted for, and a fraction on a word for whole numbers is an error of its own. */
  lemma CommandErrors(cfg: Config, front: seq<Word>, w: Word, rest: seq<Word>)
    requires Parse(cfg, EMPTY, front).Ok? && NoFlow(front)
    ensures var r, v, m := Parse(cfg, EMPTY, front + ([w] + rest)), Trunc(w.value), Mantissa(w.value);
            && (w.letter == 'G' && !KnownG(v) ==> r == Err(GcodeUnsupportedCommand))
            && (w.letter == 'G' && WholeG(v) && m > 0 ==> r == Err(GcodeCommandValueNotInteger))
            && (w.letter == 'G' && v in {28, 30, 61, 90, 91, 92} && m != 0 && m != 10 ==> r == Err(GcodeUnsupportedCommand))
            && (w.letter == 'G' && v in {61, 90} && m == 10 ==> r == Err(GcodeUnsupportedCommand))
            && (w.letter == 'G' && v == 38 && !cfg.hasProbe ==> r == Err(GcodeUnsupportedCommand))
            && (w.letter == 'M' && m > 0 && v != 7 && v != 8 ==> r == Err(GcodeCommandValueNotInteger))
            && (w.letter == 'M' && m <= 0 && !KnownM(v) ==> r == Err(GcodeUnsupportedCommand))
            && (w.letter == 'M' && m <= 0 && ((v == 4 && !cfg.reversible) || (v == 56 && !cfg.parkingOverride)) ==>
                  r == Err(GcodeUnsupportedCommand))
            && (w.letter == 'M' && v in {7, 8} && m != 0 && m != 10 ==> r == Err(GcodeUnsupportedCommand))
  {
    FirstRefused(cfg, front, w, rest);
    if w.letter == 'G' {
      GErrors(cfg, Parse(cfg, EMPTY, front).block, Trunc(w.value), Mantissa(w.value));
    } else if w.letter == 'M' {
      MErrors(cfg, Parse(cfg, EMPTY, front).block, Trunc(w.value), Mantissa(w.value));
    }
    hide Trunc, Mantissa, GWord, MWord, Parse, KnownG, KnownM, WholeG, Act;
  }

  lemma GErrors(cfg: Config, b: Block, v: int, m: int)
    ensures var r := Act(b, GWord(cfg, v, m));
            && (!KnownG(v) ==> r == Err(GcodeUnsupportedCommand))
            && (WholeG(v) && m > 0 ==> r == Err(GcodeCommandValueNotInteger))
            && (v in {28, 30, 61, 90, 91, 92} && m != 0 && m != 10 ==> r == Err(GcodeUnsupportedCommand))
            && (v in {61, 90} && m == 10 ==> r == Err(GcodeUnsupportedCommand))
            && (v == 38 && !cfg.hasProbe ==> r == Err(GcodeUnsupportedCommand))
  {
  }

  lemma MErrors(cfg: Config, b: Block, v: int, m: int)
    ensures var r := Act(b, MWord(cfg, v, m));
            && (m > 0 && v != 7 && v != 8 ==> r == Err(GcodeCommandValueNotInteger))
            && (m <= 0 && !KnownM(v) ==> r == Err(GcodeUnsupportedCommand))
            && (m <= 0 && ((v == 4 && !cfg.reversible) || (v == 56 && !cfg.parkingOverride)) ==> r == Err(GcodeUnsupportedCommand))
            && (v in {7, 8} && m != 0 && m != 10 ==> r == Err(GcodeUnsupportedCommand))
  {
  }

  /** Values that are never accepted. A letter given before is reported before a negative value. */
  lemma ValueErrors(cfg: Config, front: seq<Word>, w: Word, rest: seq<Word>)
    requires Parse(cfg, EMPTY, front).Ok? && NoFlow(front) && !IsCommand(w)
    ensures var r, given := Parse(cfg, EMPTY, front + ([w] + rest)), exists i :: 0 <= i < |front| && front[i].letter == w.letter;
            && (!('A' <= w.letter <= 'Z') ==> r == Err(ExpectedCommandLetter))
            && ('A' <= w.letter <= 'Z' && !ValueLetter(cfg, w.letter) ==> r == Err(GcodeUnsupportedCommand))
            && (w.letter == 'O' && Mantissa(w.value) > 0 ==> r == Err(GcodeCommandValueNotInteger))
            && (w.letter == 'T' && w.value > 99999999.0 ==> r == Err(GcodeMaxValueExceeded))
            && (Negative(w) ==> r == Err(if given then GcodeWordRepeated else NegativeValue))
  {
    var e := Decode(cfg, w);
    FirstRefused(cfg, front, w, rest);
    StateAfter(cfg, EMPTY, front, e);
    ValueFine(cfg, w);
    RefusedValue(cfg, w);
    hide Decode, Good, Taking, Mantissa, Trunc, Parse, ValueLetter, Negative;
    if e.Value? {
      forall i | 0 <= i < |front| ensures Clash(Decode(cfg, front[i]), e) <==> front[i].letter == w.letter {
        DecodeFine(cfg, front[i]);
      }
    }
  }

  lemma RefusedValue(cfg: Config, w: Word)
    requires !IsCommand(w)
    ensures var e := Decode(cfg, w);
            && (!('A' <= w.letter <= 'Z') ==> e == Refused(ExpectedCommandLetter))
            && ('A' <= w.letter <= 'Z' && !ValueLetter(cfg, w.letter) ==> e == Refused(GcodeUnsupportedCommand))
            && (w.letter == 'O' && Mantissa(w.value) > 0 ==> e == Refused(GcodeCommandValueNotInteger))
            && (w.letter == 'T' && w.value > 99999999.0 ==> e == Refused(GcodeMaxValueExceeded))
  {
    AxisLetters(cfg, w.letter);
    OtherLetters(w.letter);
    hide Trunc, Mantissa, AxisIndex, AxisLetter;
  }
}
