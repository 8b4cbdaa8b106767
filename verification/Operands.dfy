/** What expression() reads as operands: read_number() and get_param_ref() of FluidNC/src/Parameters.cpp,
    read_unary() and read_atan() of FluidNC/src/Expression.cpp. They call expression() again for what is
    in brackets; here one level is a function of the reader used below it, and the reader of the program
    is the one that uses itself. */
module Operands {
  import opened Expression
  import opened Options
  import CollapseLine

  datatype Fun = ABS | ACOS | ASIN | ATAN | COS | EXISTS | EXP | FIX | FUP | LN | ROUND | SIN | SQRT | TAN

  // The library functions, the literal reader and the parameter tables.
  datatype Env = Env(
    math: Math,
    apply: (Fun, real) -> real,             // the functions that are not computed here, in degrees
    atan2: (real, real) -> real,
    float: Reader,                          // read_float
    named: string -> Option<real>,
    known: string -> bool,                  // what named_param_exists looks up
    numbered: real -> Option<real>)

  // ---- Unary operations ----------------------------------------------------------------------------------

  const NAMES: seq<(string, Fun)> :=
    [("ABS", ABS), ("ACOS", ACOS), ("ASIN", ASIN), ("ATAN", ATAN), ("COS", COS), ("EXP", EXP), ("EXISTS", EXISTS),
     ("FIX", FIX), ("FUP", FUP), ("LN", LN), ("ROUND", ROUND), ("SIN", SIN), ("SQRT", SQRT), ("TAN", TAN)]

  datatype Name = Name(fun: Fun, next: nat) | UnknownName

  // No name is the beginning of another one, so the first that stands in the line is the one.
  function ReadName(line: string, pos: nat, from: nat): (r: Name)
    requires from <= |NAMES|
    ensures r.Name? ==> pos < r.next <= |line|
    decreases |NAMES| - from
  {
    if from == |NAMES| then UnknownName
    else if Follows(line, pos, NAMES[from].0) && NAMES[from].0 != "" then Name(NAMES[from].1, pos + |NAMES[from].0|)
    else ReadName(line, pos, from + 1)
  }

  function Rounded(x: real): real {
    if x < 0.0 then -((-x + 0.5).Floor as real) else (x + 0.5).Floor as real
  }

  function ExecuteUnary(env: Env, f: Fun, x: real): Option<real> {
    match f
    case ABS => Some(if x < 0.0 then -x else x)
    case FIX => Some(x.Floor as real)
    case FUP => Some(-((-x).Floor as real))
    case ROUND => Some(Rounded(x))
    case EXISTS => Some(x)
    case ATAN => None
    case ACOS => if x < -1.0 || x > 1.0 then None else Some(env.apply(f, x))
    case ASIN => if x < -1.0 || x > 1.0 then None else Some(env.apply(f, x))
    case LN => if x <= 0.0 then None else Some(env.apply(f, x))
    case SQRT => if x < 0.0 then None else Some(env.apply(f, x))
    case COS => Some(env.apply(f, x))
    case SIN => Some(env.apply(f, x))
    case TAN => Some(env.apply(f, x))
    case EXP => Some(env.apply(f, x))
  }

  // FIX and FUP enclose their argument within one unit, and ROUND is within a half of it.
  lemma RoundingsEnclose(env: Env, x: real)
    ensures var fix, fup, round := ExecuteUnary(env, FIX, x), ExecuteUnary(env, FUP, x), ExecuteUnary(env, ROUND, x);
            && fix.value <= x < fix.value + 1.0 && fup.value - 1.0 < x <= fup.value
            && round.value - 0.5 <= x <= round.value + 0.5
  {
  }

  // ABS is the value without its sign.
  lemma AbsoluteValue(env: Env, x: real)
    ensures var r := ExecuteUnary(env, ABS, x).value;
            ExecuteUnary(env, ABS, x).Some? && r >= 0.0 && r * r == x * x && ExecuteUnary(env, ABS, -x).value == r
  {
    assert (-x) * (-x) == x * x;
  }

  /** Arguments out of range are refused: beyond one to either side for the arcs, below zero for a root, and
      not above zero for a logarithm. No other function refuses any. */
  lemma DomainsExact(env: Env, f: Fun, x: real)
    requires f != ATAN
    ensures ExecuteUnary(env, f, x).None? <==>
            ((f == ACOS || f == ASIN) && x * x > 1.0) || (f == SQRT && x < 0.0) || (f == LN && !(x > 0.0))
  {
    if x > 1.0 {
      assert x * x > x;
    } else if x < -1.0 {
      assert x * x > -x;
    } else if x >= 0.0 {
      assert x * x <= x;
    } else {
      assert x * x <= -x;
    }
  }

  // The first letters tell the names apart.
  lemma NamesDiffer(j: nat, k: nat)
    requires j < k < |NAMES|
    ensures var a, b := NAMES[j].0, NAMES[k].0;
            |a| >= 2 && |b| >= 2 && (a[0] != b[0] || a[1] != b[1] || (|a| > 2 && |b| > 2 && a[2] != b[2]))
  {
  }

  lemma Letters(line: string, pos: nat, word: string)
    ensures Follows(line, pos, word) ==>
            pos + |word| <= |line| && forall i :: 0 <= i < |word| ==> word[i] == line[pos + i]
  {
  }

  lemma NotBoth(line: string, pos: nat, j: nat, k: nat)
    requires j < k < |NAMES| && Follows(line, pos, NAMES[k].0)
    ensures !Follows(line, pos, NAMES[j].0)
  {
    NamesDiffer(j, k);
    Letters(line, pos, NAMES[j].0);
    Letters(line, pos, NAMES[k].0);
    hide Follows;
  }

  lemma {:induction false} NameIsRead(line: string, pos: nat, from: nat, k: nat)
    requires from <= k < |NAMES| && Follows(line, pos, NAMES[k].0)
    ensures ReadName(line, pos, from) == Name(NAMES[k].1, pos + |NAMES[k].0|)
    decreases k - from
  {
    hide Follows;
    if from < k {
      NotBoth(line, pos, from, k);
      NameIsRead(line, pos, from + 1, k);
    }
  }

  /** Each function is read by its name. */
  lemma NamesAreRead(line: string, pos: nat)
    ensures Follows(line, pos, "ABS") ==> ReadName(line, pos, 0) == Name(ABS, pos + 3)
    ensures Follows(line, pos, "ACOS") ==> ReadName(line, pos, 0) == Name(ACOS, pos + 4)
    ensures Follows(line, pos, "ASIN") ==> ReadName(line, pos, 0) == Name(ASIN, pos + 4)
    ensures Follows(line, pos, "ATAN") ==> ReadName(line, pos, 0) == Name(ATAN, pos + 4)
    ensures Follows(line, pos, "COS") ==> ReadName(line, pos, 0) == Name(COS, pos + 3)
    ensures Follows(line, pos, "EXISTS") ==> ReadName(line, pos, 0) == Name(EXISTS, pos + 6)
    ensures Follows(line, pos, "EXP") ==> ReadName(line, pos, 0) == Name(EXP, pos + 3)
    ensures Follows(line, pos, "FIX") ==> ReadName(line, pos, 0) == Name(FIX, pos + 3)
    ensures Follows(line, pos, "FUP") ==> ReadName(line, pos, 0) == Name(FUP, pos + 3)
    ensures Follows(line, pos, "LN") ==> ReadName(line, pos, 0) == Name(LN, pos + 2)
    ensures Follows(line, pos, "ROUND") ==> ReadName(line, pos, 0) == Name(ROUND, pos + 5)
    ensures Follows(line, pos, "SIN") ==> ReadName(line, pos, 0) == Name(SIN, pos + 3)
    ensures Follows(line, pos, "SQRT") ==> ReadName(line, pos, 0) == Name(SQRT, pos + 4)
    ensures Follows(line, pos, "TAN") ==> ReadName(line, pos, 0) == Name(TAN, pos + 3)
  {
    hide Follows, ReadName;
    for k := 0 to |NAMES|
      invariant forall j :: 0 <= j < k && Follows(line, pos, NAMES[j].0) ==>
        ReadName(line, pos, 0) == Name(NAMES[j].1, pos + |NAMES[j].0|)
    {
      if Follows(line, pos, NAMES[k].0) {
        NameIsRead(line, pos, 0, k);
      }
    }
    assert NAMES[0].0 == "ABS" && NAMES[1].0 == "ACOS" && NAMES[2].0 == "ASIN" && NAMES[3].0 == "ATAN" && NAMES[4].0 == "COS";
    assert NAMES[5].0 == "EXP" && NAMES[6].0 == "EXISTS" && NAMES[7].0 == "FIX" && NAMES[8].0 == "FUP" && NAMES[9].0 == "LN";
    assert NAMES[10].0 == "ROUND" && NAMES[11].0 == "SIN" && NAMES[12].0 == "SQRT" && NAMES[13].0 == "TAN";
  }

  // ---- Expressions in brackets ---------------------------------------------------------------------------

  lemma {:induction false} ScanMovesOn(read: Reader, line: string, pos: nat)
    requires Advances(read, line)
    ensures var end := Scan(read, line, pos).end; end.Closed? ==> pos < end.next <= |line|
    decreases |line| - pos
  {
    var v := read(line, pos);
    if v.Operand? {
      var o := ReadOperation(line, v.next);
      if o.Operator? && !o.op.RightBracket? {
        ScanMovesOn(read, line, o.next);
      }
    }
  }

  lemma MeaningCloses(math: Math, read: Reader, line: string, pos: nat)
    requires Advances(read, line)
    ensures Meaning(math, read, line, pos).Ok? ==> Scan(read, line, pos + 1).end.Closed?
  {
    ScanClosed(read, line, pos + 1);
    hide FeedAll;
  }

  // expression() as an operand: its value and the position after its bracket, or any error.
  ghost function Bracket(math: Math, read: Reader, line: string, pos: nat): (r: Operand)
    requires Advances(read, line)
    ensures r.Operand? ==> pos + 1 < r.next <= |line|
  {
    MeaningCloses(math, read, line, pos);
    ScanMovesOn(read, line, pos + 1);
    match Meaning(math, read, line, pos)
    case Ok(v) => Operand(v, Scan(read, line, pos + 1).end.next)
    case Err(_) => NoOperand
  }

  // ---- One level of read_number --------------------------------------------------------------------------

  // The text up to a closing character, and the position after it.
  datatype Text = Text(text: string, next: nat) | Open

  function Upto(line: string, pos: nat, close: char): (r: Text)
    ensures r.Text? ==> pos < r.next <= |line|
    decreases |line| - pos
  {
    if pos >= |line| then Open
    else if line[pos] == close then Text("", pos + 1)
    else
      var rest := Upto(line, pos + 1, close);
      if rest.Text? then Text([line[pos]] + rest.text, rest.next) else Open
  }

  // A parameter's name as it is kept: without white space and in upper case.
  function Canonical(text: string): string
    decreases |text|
  {
    if text == "" then ""
    else (if CollapseLine.IsSpace(text[0]) then "" else [CollapseLine.ToUpper(text[0])]) + Canonical(text[1..])
  }

  // EXISTS takes the name with or without "#<" and ">" around it.
  function Stripped(arg: string): string {
    if |arg| > 3 && arg[..2] == "#<" && arg[|arg| - 1] == '>' then arg[2..|arg| - 1] else arg
  }

  datatype Ref = Named(name: string, next: nat) | Numbered(id: real, next: nat) | NoRef

  function Lookup(env: Env, ref: Ref): Option<real>
    requires !ref.NoRef?
  {
    if ref.Named? then env.named(ref.name) else env.numbered(ref.id)
  }

  // get_param_ref, after the '#'.
  ghost function ReadRef(env: Env, read: Reader, line: string, pos: nat): (r: Ref)
    requires Advances(read, line) && Advances(env.float, line)
    ensures !r.NoRef? ==> pos < r.next <= |line|
    decreases |line| - pos
  {
    if pos < |line| && line[pos] == '#' then
      var inner := ReadRef(env, read, line, pos + 1);
      if inner.NoRef? || Lookup(env, inner).None? then NoRef else Numbered(Lookup(env, inner).value, inner.next)
    else if At(line, pos) == '<' then
      var name := Upto(line, pos + 1, '>');
      if name.Text? then Named(Canonical(name.text), name.next) else NoRef
    else if At(line, pos) == '[' then
      var v := Bracket(env.math, read, line, pos);
      if v.Operand? then Numbered(v.value, v.next) else NoRef
    else
      var v := env.float(line, pos);
      if v.Operand? then Numbered(v.value, v.next) else NoRef
  }

  // read_atan, with the first argument.
  ghost function ReadAtan(env: Env, read: Reader, line: string, pos: nat, first: real): (r: Operand)
    requires Advances(read, line)
    ensures r.Operand? ==> pos < r.next <= |line|
  {
    if At(line, pos) != '/' || At(line, pos + 1) != '[' then NoOperand
    else
      var v := Bracket(env.math, read, line, pos + 1);
      if v.Operand? then Operand(env.atan2(first, v.value), v.next) else NoOperand
  }

  // read_unary
  ghost function ReadUnary(env: Env, read: Reader, line: string, pos: nat): (r: Operand)
    requires Advances(read, line)
    ensures r.Operand? ==> pos < r.next <= |line|
  {
    var name := ReadName(line, pos, 0);
    if name.UnknownName? || At(line, name.next) != '[' then NoOperand
    else if name.fun.EXISTS? then
      var arg := Upto(line, name.next + 1, ']');
      if arg.Text? then Operand(Truth(Stripped(arg.text) != "" && env.known(Stripped(arg.text))), arg.next) else NoOperand
    else
      var v := Bracket(env.math, read, line, name.next);
      if v.NoOperand? then NoOperand
      else if name.fun.ATAN? then ReadAtan(env, read, line, v.next, v.value)
      else
        var x := ExecuteUnary(env, name.fun, v.value);
        if x.Some? then Operand(x.value, v.next) else NoOperand
  }

  predicate IsAlpha(c: char) { 'A' <= c <= 'Z' || 'a' <= c <= 'z' }

  // read_number inside an expression, reading what is nested with `read`.
  ghost function Level(env: Env, read: Reader, line: string, pos: nat): (r: Operand)
    requires Advances(read, line) && Advances(env.float, line)
    ensures r.Operand? ==> pos < r.next <= |line|
  {
    var c := At(line, pos);
    if c == '#' then
      var ref := ReadRef(env, read, line, pos + 1);
      if ref.NoRef? || Lookup(env, ref).None? then NoOperand else Operand(Lookup(env, ref).value, ref.next)
    else if c == '[' then Bracket(env.math, read, line, pos)
    else if IsAlpha(c) then ReadUnary(env, read, line, pos)
    else if c == '-' then
      var v := read(line, pos + 1);
      if v.Operand? then Operand(-v.value, v.next) else NoOperand
    else if c == '+' then read(line, pos + 1)
    else env.float(line, pos)
  }

  // ---- The reader that uses itself -----------------------------------------------------------------------

  // Nesting down to `depth`.
  ghost function ReadDepth(env: Env, line: string, depth: nat, pos: nat): (r: Operand)
    requires Advances(env.float, line)
    ensures r.Operand? ==> pos < r.next <= |line|
    decreases depth, 0
  {
    if depth == 0 then NoOperand else Level(env, Nested(env, line, depth - 1), line, pos)
  }

  ghost function Nested(env: Env, line: string, depth: nat): (read: Reader)
    requires Advances(env.float, line)
    ensures Advances(read, line) && forall pos: nat :: read(line, pos) == ReadDepth(env, line, depth, pos)
    decreases depth, 1
  {
    (l: string, pos: nat) => if l == line then ReadDepth(env, line, depth, pos) else NoOperand
  }

  // Readers that agree from a position on.
  ghost predicate Agree(a: Reader, b: Reader, line: string, from: nat) {
    forall pos: nat :: pos >= from ==> a(line, pos) == b(line, pos)
  }

  lemma {:induction false} ScanAgrees(a: Reader, b: Reader, line: string, pos: nat)
    requires Advances(a, line) && Advances(b, line) && Agree(a, b, line, pos)
    ensures Scan(a, line, pos) == Scan(b, line, pos)
    decreases |line| - pos
  {
    var v := a(line, pos);
    assert v == b(line, pos);
    if v.Operand? {
      var o := ReadOperation(line, v.next);
      if o.Operator? && !o.op.RightBracket? {
        ScanAgrees(a, b, line, o.next);
      }
    }
  }

  lemma BracketAgrees(math: Math, a: Reader, b: Reader, line: string, pos: nat)
    requires Advances(a, line) && Advances(b, line) && Agree(a, b, line, pos + 1)
    ensures Bracket(math, a, line, pos) == Bracket(math, b, line, pos)
  {
    ScanAgrees(a, b, line, pos + 1);
  }

  lemma {:induction false} RefAgrees(env: Env, a: Reader, b: Reader, line: string, pos: nat)
    requires Advances(a, line) && Advances(b, line) && Advances(env.float, line) && Agree(a, b, line, pos)
    ensures ReadRef(env, a, line, pos) == ReadRef(env, b, line, pos)
    decreases |line| - pos
  {
    hide Bracket;
    if pos < |line| && line[pos] == '#' {
      RefAgrees(env, a, b, line, pos + 1);
    }
    BracketAgrees(env.math, a, b, line, pos);
  }

  lemma UnaryAgrees(env: Env, a: Reader, b: Reader, line: string, pos: nat)
    requires Advances(a, line) && Advances(b, line) && Agree(a, b, line, pos + 1)
    ensures ReadUnary(env, a, line, pos) == ReadUnary(env, b, line, pos)
  {
    hide Bracket, ReadName, ExecuteUnary;
    var name := ReadName(line, pos, 0);
    if name.Name? {
      BracketAgrees(env.math, a, b, line, name.next);
      var v := Bracket(env.math, a, line, name.next);
      if v.Operand? {
        BracketAgrees(env.math, a, b, line, v.next + 1);
      }
    }
  }

  // One level looks at the nested reader behind its own position only.
  lemma LevelAgrees(env: Env, a: Reader, b: Reader, line: string, pos: nat)
    requires Advances(a, line) && Advances(b, line) && Advances(env.float, line) && Agree(a, b, line, pos + 1)
    ensures Level(env, a, line, pos) == Level(env, b, line, pos)
  {
    hide Bracket, ReadRef, ReadUnary;
    RefAgrees(env, a, b, line, pos + 1);
    BracketAgrees(env.math, a, b, line, pos);
    if IsAlpha(At(line, pos)) {
      UnaryAgrees(env, a, b, line, pos);
    }
  }

  /** Nesting cannot be deeper than the line is long: from that depth on, a deeper reader reads the same. */
  lemma {:induction false} DeepEnough(env: Env, line: string, j: nat, k: nat, pos: nat)
    requires Advances(env.float, line) && j + pos > |line| && k + pos > |line|
    ensures j > 0 && k > 0 ==> ReadDepth(env, line, j, pos) == ReadDepth(env, line, k, pos)
    decreases j, 0
  {
    hide Level;
    if j > 0 && k > 0 {
      var a, b := Nested(env, line, j - 1), Nested(env, line, k - 1);
      forall p: nat | p >= pos + 1 ensures a(line, p) == b(line, p) {
        DeepEnoughBelow(env, line, j - 1, k - 1, p);
      }
      LevelAgrees(env, a, b, line, pos);
    }
  }

  lemma DeepEnoughBelow(env: Env, line: string, j: nat, k: nat, pos: nat)
    requires Advances(env.float, line) && j + pos > |line| && k + pos > |line|
    ensures ReadDepth(env, line, j, pos) == ReadDepth(env, line, k, pos)
    decreases j, 1
  {
    if pos > |line| {
      PastTheEnd(env, line, j, pos);
      PastTheEnd(env, line, k, pos);
    } else {
      DeepEnough(env, line, j, k, pos);
    }
  }

  // Nothing is read behind the end of the line.
  lemma PastTheEnd(env: Env, line: string, depth: nat, pos: nat)
    requires Advances(env.float, line) && pos >= |line|
    ensures ReadDepth(env, line, depth, pos) == NoOperand
  {
    hide Level;
  }

  // The reader of the program.
  ghost function ReadNumber(env: Env, line: string): (read: Reader)
    requires Advances(env.float, line)
    ensures Advances(read, line)
  {
    Nested(env, line, |line| + 1)
  }

  /** It reads one level and itself below, and it moves on within the line: all that is said of
      expression() for such a reader is said of nested expressions of any depth. */
  lemma ReadNumberIsRecursive(env: Env, line: string, pos: nat)
    requires Advances(env.float, line)
    ensures ReadNumber(env, line)(line, pos) == Level(env, ReadNumber(env, line), line, pos)
  {
    hide Level;
    var a, b := Nested(env, line, |line|), Nested(env, line, |line| + 1);
    forall p: nat | p >= pos + 1 ensures a(line, p) == b(line, p) {
      DeepEnoughBelow(env, line, |line|, |line| + 1, p);
    }
    LevelAgrees(env, a, b, line, pos);
  }

  /** A sign in front of an operand, and in front of signs: '-' negates what is read behind it, and '+'
      leaves it. */
  lemma SignsNegate(env: Env, line: string, pos: nat)
    requires Advances(env.float, line) && pos < |line|
    ensures var read := ReadNumber(env, line);
            var behind := read(line, pos + 1);
            && (line[pos] == '+' ==> read(line, pos) == behind)
            && (line[pos] == '-' ==> read(line, pos).Operand? == behind.Operand?)
            && (line[pos] == '-' && behind.Operand? ==>
                  read(line, pos).value + behind.value == 0.0 && read(line, pos).next == behind.next)
  {
    ReadNumberIsRecursive(env, line, pos);
    hide ReadNumber, ReadUnary, ReadRef, Bracket;
  }

  lemma {:induction false} UptoFinds(line: string, pos: nat, close: char, k: nat)
    requires pos <= k < |line| && line[k] == close && forall i :: pos <= i < k ==> line[i] != close
    ensures Upto(line, pos, close) == Text(line[pos..k], k + 1)
    decreases k - pos
  {
    if pos < k {
      UptoFinds(line, pos + 1, close, k);
      assert line[pos..k] == [line[pos]] + line[pos + 1..k];
    } else {
      assert line[pos..k] == "";
    }
  }

  function Found(v: Option<real>, next: nat): Operand {
    if v.Some? then Operand(v.value, next) else NoOperand
  }

  /** "#<name>" is the parameter of that name, "#5" and the like the parameter of that number, and with an
      operand of its own behind the '#', "#[...]" or "##...", the parameter of the number that operand has. */
  lemma References(env: Env, line: string, pos: nat, k: nat)
    requires Advances(env.float, line) && pos + 1 < |line| && line[pos] == '#'
    ensures var read, c := ReadNumber(env, line), line[pos + 1];
            && (c == '<' && pos + 2 <= k < |line| && line[k] == '>' && '>' !in line[pos + 2..k] ==>
                  read(line, pos) == Found(env.named(Canonical(line[pos + 2..k])), k + 1))
            && (c == '[' || c == '#' ==>
                  var inner := read(line, pos + 1);
                  read(line, pos) == if inner.Operand? then Found(env.numbered(inner.value), inner.next) else NoOperand)
            && (c != '<' && c != '[' && c != '#' ==>
                  var id := env.float(line, pos + 1);
                  read(line, pos) == if id.Operand? then Found(env.numbered(id.value), id.next) else NoOperand)
  {
    ReadNumberIsRecursive(env, line, pos);
    ReadNumberIsRecursive(env, line, pos + 1);
    hide ReadNumber, ReadUnary, Bracket, Upto, Canonical;
    if line[pos + 1] == '<' && pos + 2 <= k < |line| && line[k] == '>' && '>' !in line[pos + 2..k] {
      assert forall i :: pos + 2 <= i < k ==> line[i] == line[pos + 2..k][i - (pos + 2)];
      UptoFinds(line, pos + 2, '>', k);
    }
  }

  lemma NameStarts(line: string, pos: nat, k: nat)
    requires k < |NAMES| && Follows(line, pos, NAMES[k].0)
    ensures pos < |line| && 'A' <= line[pos] <= 'Z'
  {
    Letters(line, pos, NAMES[k].0);
    hide Follows;
    assert NAMES[k].0 != "" && 'A' <= NAMES[k].0[0] <= 'Z';
    assert line[pos] == line[pos + 0];
  }

  // At the name of a function and a bracket the reader is read_unary.
  lemma ReadsUnary(env: Env, line: string, pos: nat, k: nat)
    requires Advances(env.float, line) && k < |NAMES| && Follows(line, pos, NAMES[k].0)
    ensures ReadName(line, pos, 0) == Name(NAMES[k].1, pos + |NAMES[k].0|)
    ensures ReadNumber(env, line)(line, pos) == ReadUnary(env, ReadNumber(env, line), line, pos)
  {
    NameIsRead(line, pos, 0, k);
    NameStarts(line, pos, k);
    ReadNumberIsRecursive(env, line, pos);
    hide ReadNumber, ReadRef, Bracket, ReadUnary, ReadName, Follows;
  }

  lemma ReadsBracket(env: Env, line: string, pos: nat)
    requires Advances(env.float, line) && pos < |line| && line[pos] == '['
    ensures ReadNumber(env, line)(line, pos) == Bracket(env.math, ReadNumber(env, line), line, pos)
  {
    ReadNumberIsRecursive(env, line, pos);
    hide ReadNumber, ReadRef, Bracket, ReadUnary;
  }

  /** A function by its name and an operand in brackets is what it makes of that operand, and ATAN takes a
      second one behind a '/'. */
  lemma FunctionsApply(env: Env, line: string, pos: nat, k: nat)
    requires Advances(env.float, line) && k < |NAMES| && Follows(line, pos, NAMES[k].0) && NAMES[k].1 != EXISTS
    requires pos + |NAMES[k].0| < |line| && line[pos + |NAMES[k].0|] == '['
    ensures var read, f := ReadNumber(env, line), NAMES[k].1;
            var x := read(line, pos + |NAMES[k].0|);
            && (x.NoOperand? ==> read(line, pos) == NoOperand)
            && (f != ATAN && x.Operand? ==> read(line, pos) == Found(ExecuteUnary(env, f, x.value), x.next))
            && (f == ATAN && x.Operand? ==>
                  read(line, pos) ==
                  if x.next + 1 < |line| && line[x.next] == '/' && line[x.next + 1] == '[' && read(line, x.next + 1).Operand?
                  then Operand(env.atan2(x.value, read(line, x.next + 1).value), read(line, x.next + 1).next)
                  else NoOperand)
  {
    hide *;
    var f, bracket := NAMES[k].1, pos + |NAMES[k].0|;
    ReadsUnary(env, line, pos, k);
    ReadsBracket(env, line, bracket);
    var x := ReadNumber(env, line)(line, bracket);
    UnaryApplies(env, ReadNumber(env, line), line, pos, f, bracket);
    if x.Operand? && x.next + 1 < |line| && line[x.next + 1] == '[' {
      ReadsBracket(env, line, x.next + 1);
    }
  }

  lemma UnaryApplies(env: Env, read: Reader, line: string, pos: nat, f: Fun, bracket: nat)
    requires Advances(read, line) && ReadName(line, pos, 0) == Name(f, bracket) && f != EXISTS
    requires bracket < |line| && line[bracket] == '['
    ensures var x, r := Bracket(env.math, read, line, bracket), ReadUnary(env, read, line, pos);
            && (x.NoOperand? ==> r == NoOperand)
            && (f != ATAN && x.Operand? ==> r == Found(ExecuteUnary(env, f, x.value), x.next))
            && (f == ATAN && x.Operand? ==>
                  if x.next + 1 < |line| && line[x.next] == '/' && line[x.next + 1] == '[' then
                    var y := Bracket(env.math, read, line, x.next + 1);
                    r == if y.Operand? then Operand(env.atan2(x.value, y.value), y.next) else NoOperand
                  else r == NoOperand)
  {
    hide Bracket, ExecuteUnary, ReadName;
  }

  // EXISTS tells whether there is a parameter of the name in its brackets.
  lemma ExistsLooks(env: Env, line: string, pos: nat, name: string, marked: bool)
    requires Advances(env.float, line) && name != "" && ']' !in name && !('#' in name)
    requires Follows(line, pos, "EXISTS[" + (if marked then "#<" + name + ">" else name) + "]")
    ensures var arg := if marked then "#<" + name + ">" else name;
            ReadNumber(env, line)(line, pos) == Operand(if env.known(name) then 1.0 else 0.0, pos + 8 + |arg|)
  {
    var arg := if marked then "#<" + name + ">" else name;
    hide *;
    Located(line, pos, arg);
    StripMarks(name, marked);
    ExistsReads(env, line, pos, arg);
  }

  lemma Located(line: string, pos: nat, arg: string)
    requires Follows(line, pos, "EXISTS[" + arg + "]")
    ensures pos + 7 + |arg| < |line| && line[pos + 6] == '[' && line[pos + 7..pos + 7 + |arg|] == arg && line[pos + 7 + |arg|] == ']'
    ensures Follows(line, pos, "EXISTS")
  {
    var word := "EXISTS[" + arg + "]";
    assert |word| == |arg| + 8 && word[..6] == "EXISTS" && word[6] == '[' && word[7..7 + |arg|] == arg;
    assert line[pos..pos + |word|] == word;
    Inside(line, pos, |word|, 0, 6);
    Inside(line, pos, |word|, 7, 7 + |arg|);
    assert line[pos + 6] == word[6] && line[pos + 7 + |arg|] == word[7 + |arg|] == ']';
  }

  lemma Inside(line: string, pos: nat, n: nat, i: nat, j: nat)
    requires pos + n <= |line| && i <= j <= n
    ensures line[pos..pos + n][i..j] == line[pos + i..pos + j]
  {
    var text := line[pos..pos + n];
    assert forall k :: 0 <= k < j - i ==> text[i..j][k] == text[i + k] == line[pos + (i + k)];
    assert text[i..j] == line[pos + i..pos + j];
  }

  lemma StripMarks(name: string, marked: bool)
    requires name != "" && ']' !in name && '#' !in name
    ensures Stripped(if marked then "#<" + name + ">" else name) == name && ']' !in if marked then "#<" + name + ">" else name
  {
    if marked {
      var arg := "#<" + name + ">";
      assert arg[..2] == "#<" && arg[2..|arg| - 1] == name;
    } else {
      assert name[0] in name && (|name| > 3 ==> name[..2][0] == name[0]);
    }
  }

  lemma ExistsReads(env: Env, line: string, pos: nat, arg: string)
    requires Advances(env.float, line) && pos + 7 + |arg| < |line| && ']' !in arg && Stripped(arg) != ""
    requires Follows(line, pos, "EXISTS") && line[pos + 6] == '['
    requires line[pos + 7..pos + 7 + |arg|] == arg && line[pos + 7 + |arg|] == ']'
    ensures ReadNumber(env, line)(line, pos) == Operand(if env.known(Stripped(arg)) then 1.0 else 0.0, pos + 8 + |arg|)
  {
    hide *;
    ReadsExists(env, line, pos);
    UptoText(line, pos + 7, ']', arg);
    ExistsUnary(env, ReadNumber(env, line), line, pos, arg);
  }

  lemma ReadsExists(env: Env, line: string, pos: nat)
    requires Advances(env.float, line) && Follows(line, pos, "EXISTS")
    ensures ReadName(line, pos, 0) == Name(EXISTS, pos + 6)
    ensures ReadNumber(env, line)(line, pos) == ReadUnary(env, ReadNumber(env, line), line, pos)
  {
    hide ReadNumber, ReadUnary, ReadName, Follows;
    assert NAMES[6] == ("EXISTS", EXISTS);
    ReadsUnary(env, line, pos, 6);
  }

  lemma UptoText(line: string, pos: nat, close: char, text: string)
    requires pos + |text| < |line| && line[pos..pos + |text|] == text && line[pos + |text|] == close && close !in text
    ensures Upto(line, pos, close) == Text(text, pos + |text| + 1)
  {
    var k := pos + |text|;
    assert forall i :: pos <= i < k ==> line[i] == line[pos..k][i - pos];
    UptoFinds(line, pos, close, k);
  }

  lemma ExistsUnary(env: Env, read: Reader, line: string, pos: nat, arg: string)
    requires Advances(read, line) && pos + 7 < |line| && line[pos + 6] == '[' && ReadName(line, pos, 0) == Name(EXISTS, pos + 6)
    requires Upto(line, pos + 7, ']') == Text(arg, pos + 7 + |arg| + 1) && Stripped(arg) != ""
    ensures ReadUnary(env, read, line, pos) == Operand(if env.known(Stripped(arg)) then 1.0 else 0.0, pos + 8 + |arg|)
  {
    hide ReadName, Upto, Stripped, Bracket, ReadAtan, ExecuteUnary;
  }

  lemma CanonicalFirst(c: char, rest: string)
    ensures Canonical([c] + rest) == (if CollapseLine.IsSpace(c) then "" else [CollapseLine.ToUpper(c)]) + Canonical(rest)
  {
    assert ([c] + rest)[1..] == rest;
  }

  /** In a name white space is dropped, 'a' to 'z' count as 'A' to 'Z', and everything else as it is. */
  lemma {:induction false} CanonicalName(a: string, c: char, b: string)
    ensures Canonical(a + [c] + b) ==
            Canonical(a) + (if c == ' ' || '\t' <= c <= '\r' then "" else if 'a' <= c <= 'z' then [c - (32 as char)] else [c]) + Canonical(b)
    ensures Canonical("") == ""
    decreases |a|
  {
    if a == "" {
      assert a + [c] + b == [c] + b && ([c] + b)[1..] == b;
    } else {
      var rest := a[1..] + [c] + b;
      assert a + [c] + b == [a[0]] + rest;
      CanonicalName(a[1..], c, b);
      CanonicalFirst(a[0], rest);
      CanonicalFirst(a[0], a[1..]);
      assert a == [a[0]] + a[1..];
      hide Canonical;
    }
  }

  // The tokens read from `from` up to the operand at `p`, if the reading gets to an operand there.
  ghost function Before(read: Reader, line: string, from: nat, p: nat): Option<seq<Token>>
    requires Advances(read, line)
    decreases |line| - from
  {
    if from == p then Some([])
    else
      var v := read(line, from);
      if v.NoOperand? then None
      else
        var o := ReadOperation(line, v.next);
        if o.UnknownOp? || o.op.RightBracket? then None
        else
          var rest := Before(read, line, o.next, p);
          if rest.None? then None else Some([Token(v.value, o.op)] + rest.value)
  }

  lemma {:induction false} ScanBreaksAt(read: Reader, line: string, from: nat, p: nat)
    requires Advances(read, line) && Before(read, line, from, p).Some? && read(line, p).NoOperand?
    ensures Scan(read, line, from) == Tokens(Before(read, line, from, p).value, Broken(BadNumberFormat))
    decreases |line| - from
  {
    if from != p {
      ScanBreaksAt(read, line, ReadOperation(line, read(line, from).next).next, p);
    }
  }

  /** Whatever goes wrong inside a nested expression, wherever it stands as an operand, the one around it
      reports a bad number, unless one of the operators applied before it has failed: then it is that
      operator's error. */
  lemma NestedErrorIsBadNumber(env: Env, line: string, pos: nat, p: nat)
    requires Advances(env.float, line) && At(line, pos) == '['
    requires Before(ReadNumber(env, line), line, pos + 1, p).Some?
    requires At(line, p) == '[' && Meaning(env.math, ReadNumber(env, line), line, p).Err?
    ensures var fed := FeedAll(env.math, [], Before(ReadNumber(env, line), line, pos + 1, p).value);
            Meaning(env.math, ReadNumber(env, line), line, pos) == Err(if fed.Failed? then fed.error else BadNumberFormat)
  {
    hide FeedAll, Scan, ReadDepth;
    ReadNumberIsRecursive(env, line, p);
    var read := ReadNumber(env, line);
    assert read(line, p) == Bracket(env.math, read, line, p) == NoOperand;
    ScanBreaksAt(read, line, pos + 1, p);
  }
}
