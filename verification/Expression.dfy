/** The expression evaluator of FluidNC/src/Expression.cpp: a shift/reduce loop over two arrays of
    seven entries. The loop reads operands and operators from the line as it goes; `Run` is the
    same computation on a sequence of tokens. */
module Expression {

  const MAX_STACK := 7

  datatype Error =
    | GcodeUnsupportedCommand | BadNumberFormat | ExpressionUnknownOp
    | ExpressionDivideByZero | ExpressionInvalidArgument

  datatype Op =
    | DividedBy | Modulo | Power | Times
    | And2 | ExclusiveOR | Minus | NotExclusiveOR | Plus | RightBracket
    | LT | EQ | NE | LE | GE | GT

  datatype Result = Ok(value: real) | Err(error: Error)

  // The library functions of binary operators, on reals.
  datatype Math = Math(fmod: (real, real) -> real, pow: (real, real) -> real)

  // read_number() inside an expression: an operand and the position after it.
  datatype Operand = Operand(value: real, next: nat) | NoOperand
  type Reader = (string, nat) -> Operand

  const TOLERANCE_EQUAL := 0.00001

  function Truth(b: bool): real {
    if b then 1.0 else 0.0
  }

  function Abs(x: real): real {
    if x < 0.0 then -x else x
  }

  function ExecuteBinary1(math: Math, lhs: real, op: Op, rhs: real): Result {
    match op
    case DividedBy => if rhs == 0.0 then Err(ExpressionDivideByZero) else Ok(lhs / rhs)
    case Modulo =>
      var r := math.fmod(lhs, rhs);
      Ok(if r < 0.0 then r + Abs(rhs) else r)
    case Power =>
      if lhs < 0.0 && rhs.Floor as real != rhs then Err(ExpressionInvalidArgument) else Ok(math.pow(lhs, rhs))
    case Times => Ok(lhs * rhs)
    case _ => Err(ExpressionUnknownOp)
  }

  function ExecuteBinary2(lhs: real, op: Op, rhs: real): Result {
    match op
    case And2 => Ok(Truth(lhs != 0.0 && rhs != 0.0))
    case ExclusiveOR => Ok(Truth((lhs == 0.0) != (rhs == 0.0)))
    case Minus => Ok(lhs - rhs)
    case NotExclusiveOR => Ok(Truth(lhs != 0.0 || rhs != 0.0))
    case Plus => Ok(lhs + rhs)
    case LT => Ok(Truth(lhs < rhs))
    case EQ => Ok(Truth(Abs(lhs - rhs) < TOLERANCE_EQUAL))
    case NE => Ok(Truth(Abs(lhs - rhs) >= TOLERANCE_EQUAL))
    case LE => Ok(Truth(lhs <= rhs))
    case GE => Ok(Truth(lhs >= rhs))
    case GT => Ok(Truth(lhs > rhs))
    case _ => Err(ExpressionUnknownOp)
  }

  // The operators up to Binary_Binary2 in the enumeration go to the first group.
  function ExecuteBinary(math: Math, lhs: real, op: Op, rhs: real): Result {
    if op.DividedBy? || op.Modulo? || op.Power? || op.Times? then ExecuteBinary1(math, lhs, op, rhs)
    else ExecuteBinary2(lhs, op, rhs)
  }

  function Precedence(op: Op): (p: nat)
    ensures 1 <= p <= 6 && (p == 1 <==> op.RightBracket?)
  {
    match op
    case RightBracket => 1
    case And2 | ExclusiveOR | NotExclusiveOR => 2
    case LT | EQ | NE | LE | GE | GT => 3
    case Minus | Plus => 4
    case DividedBy | Modulo | Times => 5
    case Power => 6
  }

  // ---- Reading operators ------------------------------------------------------------------------

  datatype Operator = Operator(op: Op, next: nat) | UnknownOp

  // The line is NUL-terminated.
  function At(line: string, pos: nat): char {
    if pos < |line| then line[pos] else '\0'
  }

  function Follows(line: string, pos: nat, word: string): bool {
    pos + |word| <= |line| && line[pos..pos + |word|] == word
  }

  function ReadOperation(line: string, pos: nat): (r: Operator)
    ensures r.Operator? ==> pos < r.next <= |line|
  {
    var c := At(line, pos);
    var p := pos + 1;
    if pos >= |line| then UnknownOp
    else if c == '+' then Operator(Plus, p)
    else if c == '-' then Operator(Minus, p)
    else if c == '/' then Operator(DividedBy, p)
    else if c == '*' then (if At(line, p) == '*' && p < |line| then Operator(Power, p + 1) else Operator(Times, p))
    else if c == ']' then Operator(RightBracket, p)
    else if c == 'A' then (if Follows(line, p, "ND") then Operator(And2, p + 2) else UnknownOp)
    else if c == 'M' then (if Follows(line, p, "OD") then Operator(Modulo, p + 2) else UnknownOp)
    else if c == 'O' then (if Follows(line, p, "R") then Operator(NotExclusiveOR, p + 1) else UnknownOp)
    else if c == 'X' then (if Follows(line, p, "OR") then Operator(ExclusiveOR, p + 2) else UnknownOp)
    else if c == 'E' then (if Follows(line, p, "Q") then Operator(EQ, p + 1) else UnknownOp)
    else if c == 'N' then (if Follows(line, p, "E") then Operator(NE, p + 1) else UnknownOp)
    else if c == 'G' then
      (if Follows(line, p, "E") then Operator(GE, p + 1) else if Follows(line, p, "T") then Operator(GT, p + 1) else UnknownOp)
    else if c == 'L' then
      (if Follows(line, p, "E") then Operator(LE, p + 1) else if Follows(line, p, "T") then Operator(LT, p + 1) else UnknownOp)
    else UnknownOp
  }

  function Spelling(op: Op): string {
    match op
    case Plus => "+"
    case Minus => "-"
    case DividedBy => "/"
    case Times => "*"
    case Power => "**"
    case RightBracket => "]"
    case And2 => "AND"
    case Modulo => "MOD"
    case NotExclusiveOR => "OR"
    case ExclusiveOR => "XOR"
    case EQ => "EQ"
    case NE => "NE"
    case GE => "GE"
    case GT => "GT"
    case LE => "LE"
    case LT => "LT"
  }

  lemma FollowsChars(line: string, pos: nat, word: string)
    requires 1 <= |word| <= 3
    ensures Follows(line, pos, word) <==>
              && pos + |word| <= |line| && line[pos] == word[0]
              && (|word| > 1 ==> line[pos + 1] == word[1])
              && (|word| > 2 ==> line[pos + 2] == word[2])
  {
    if pos + |word| <= |line| {
      var part := line[pos..pos + |word|];
      assert forall i :: 0 <= i < |word| ==> part[i] == line[pos + i];
      assert part == word <==> forall i :: 0 <= i < |word| ==> part[i] == word[i];
      assert part[0] == line[pos];
      assert |word| > 1 ==> part[1] == line[pos + 1];
      assert |word| > 2 ==> part[2] == line[pos + 2];
    }
  }

  /** An operator is read exactly when its spelling stands in the line, and all of it is read; `**` is
      never taken for `*`. */
  lemma ReadsSpelling(line: string, pos: nat, op: Op)
    ensures var n := pos + |Spelling(op)|;
            ReadOperation(line, pos) == Operator(op, n) <==>
              Follows(line, pos, Spelling(op)) && (op.Times? ==> !Follows(line, n, "*"))
  {
    hide Follows;
    FollowsChars(line, pos, Spelling(op));
    FollowsChars(line, pos + 1, "*");
    FollowsChars(line, pos + 1, "ND");
    FollowsChars(line, pos + 1, "OD");
    FollowsChars(line, pos + 1, "R");
    FollowsChars(line, pos + 1, "OR");
    FollowsChars(line, pos + 1, "Q");
    FollowsChars(line, pos + 1, "E");
    FollowsChars(line, pos + 1, "T");
    FollowsChars(line, pos + |Spelling(op)|, "*");
  }

  // ---- What the operators compute -----------------------------------------------------------------

  // MOD is never negative, for any fmod() that stays below the divisor.
  lemma ModuloIsPositive(math: Math, a: real, b: real)
    requires -Abs(b) < math.fmod(a, b) < Abs(b)
    ensures var r := ExecuteBinary(math, a, Modulo, b);
            r.Ok? && 0.0 <= r.value < Abs(b) && (r.value == math.fmod(a, b) || r.value == math.fmod(a, b) + Abs(b))
  {
  }

  // ---- Tokens -----------------------------------------------------------------------------------

  // An operand and the operator after it.
  datatype Token = Token(value: real, op: Op)

  // What the line holds after the opening bracket: tokens up to and including the first right
  // bracket, and the position after it; or tokens up to a reading error.
  datatype Tokens = Tokens(list: seq<Token>, end: End)
  datatype End = Closed(next: nat) | Broken(error: Error)

  // A reader that fails, or moves on within the line.
  ghost predicate Advances(read: Reader, line: string) {
    forall pos: nat :: read(line, pos).Operand? ==> pos < read(line, pos).next <= |line|
  }

  ghost function Scan(read: Reader, line: string, pos: nat): Tokens
    requires Advances(read, line)
    decreases |line| - pos
  {
    var v := read(line, pos);
    if v.NoOperand? then Tokens([], Broken(BadNumberFormat))
    else
      var o := ReadOperation(line, v.next);
      if o.UnknownOp? then Tokens([], Broken(ExpressionUnknownOp))
      else if o.op.RightBracket? then Tokens([Token(v.value, o.op)], Closed(o.next))
      else
        var rest := Scan(read, line, o.next);
        Tokens([Token(v.value, o.op)] + rest.list, rest.end)
  }

  // ---- Shift and reduce -------------------------------------------------------------------------

  datatype Stack = Stack(items: seq<Token>) | Failed(error: Error)

  /** One token against the stack: as long as the operator on top binds at least as tightly as the
      new one it is applied; then the token is pushed. */
  function Feed(math: Math, stack: seq<Token>, t: Token): Stack
    decreases |stack|
  {
    if stack == [] then Stack([t])
    else
      var top := stack[|stack| - 1];
      if Precedence(t.op) > Precedence(top.op) then Stack(stack + [t])
      else match ExecuteBinary(math, top.value, top.op, t.value)
           case Err(e) => Failed(e)
           case Ok(v) => Feed(math, stack[..|stack| - 1], Token(v, t.op))
  }

  function FeedAll(math: Math, stack: seq<Token>, tokens: seq<Token>): Stack
    decreases |tokens|
  {
    if tokens == [] then Stack(stack)
    else match Feed(math, stack, tokens[0])
         case Failed(e) => Failed(e)
         case Stack(s) => FeedAll(math, s, tokens[1..])
  }

  // The value of the expression: an operator's error, else the reading error, else entry 0.
  function Run(math: Math, stack: seq<Token>, tokens: Tokens): Result
    requires stack == [] && tokens.end.Closed? ==> tokens.list != []
  {
    match FeedAll(math, stack, tokens.list)
    case Failed(e) => Err(e)
    case Stack(s) =>
      match tokens.end
      case Broken(e) => Err(e)
      case Closed(_) => FeedAllNotEmpty(math, stack, tokens.list); Ok(s[0].value)
  }

  lemma {:induction false} FeedNotEmpty(math: Math, stack: seq<Token>, t: Token)
    ensures var r := Feed(math, stack, t); r.Stack? ==> r.items != []
    decreases |stack|
  {
    if stack != [] {
      var top := stack[|stack| - 1];
      var v := ExecuteBinary(math, top.value, top.op, t.value);
      if v.Ok? {
        FeedNotEmpty(math, stack[..|stack| - 1], Token(v.value, t.op));
      }
    }
  }

  lemma {:induction false} FeedAllNotEmpty(math: Math, stack: seq<Token>, tokens: seq<Token>)
    requires stack != [] || tokens != []
    ensures var r := FeedAll(math, stack, tokens); r.Stack? ==> r.items != []
    decreases |tokens|
  {
    if tokens != [] {
      FeedNotEmpty(math, stack, tokens[0]);
      var s := Feed(math, stack, tokens[0]);
      if s.Stack? {
        FeedAllNotEmpty(math, s.items, tokens[1..]);
      }
    }
  }

  // ---- The stack stays shallow --------------------------------------------------------------------

  // Operators on the stack bind more and more tightly towards the top.
  predicate Rising(stack: seq<Token>) {
    forall i, j :: 0 <= i < j < |stack| ==> Precedence(stack[i].op) < Precedence(stack[j].op)
  }

  lemma {:induction false} FeedKeepsRising(math: Math, stack: seq<Token>, t: Token)
    requires Rising(stack)
    ensures var r := Feed(math, stack, t);
            r.Stack? ==>
              && Rising(r.items) && 1 <= |r.items| <= |stack| + 1
              && r.items[|r.items| - 1].op == t.op
              && forall i :: 0 <= i < |r.items| - 1 ==> r.items[i] == stack[i]
    decreases |stack|
  {
    if stack != [] {
      var top := stack[|stack| - 1];
      var v := ExecuteBinary(math, top.value, top.op, t.value);
      if Precedence(t.op) <= Precedence(top.op) && v.Ok? {
        FeedKeepsRising(math, stack[..|stack| - 1], Token(v.value, t.op));
      }
    }
  }

  // Each entry of a rising stack is on a precedence level of its own.
  lemma {:induction false} RisingIsShallow(stack: seq<Token>)
    requires Rising(stack) && stack != []
    ensures |stack| <= Precedence(stack[|stack| - 1].op) - Precedence(stack[0].op) + 1
    decreases |stack|
  {
    if |stack| > 1 {
      RisingIsShallow(stack[..|stack| - 1]);
      assert Precedence(stack[|stack| - 2].op) < Precedence(stack[|stack| - 1].op);
    }
  }

  // A stack between two tokens: rising, and a right bracket only as the one and last entry.
  predicate Between(stack: seq<Token>) {
    && Rising(stack)
    && forall i :: 0 <= i < |stack| && stack[i].op.RightBracket? ==> |stack| == 1
  }

  /** Whatever was read so far, the stack holds at most five entries, and a right bracket leaves
      exactly one: itself, with the value. */
  lemma StackBound(math: Math, stack: seq<Token>, t: Token)
    requires Between(stack) && (stack != [] ==> !stack[0].op.RightBracket?)
    ensures |stack| <= 5
    ensures var r := Feed(math, stack, t);
            r.Stack? ==>
              && r.items != [] && |r.items| <= 5 && Between(r.items)
              && (t.op.RightBracket? <==> r.items[0].op.RightBracket?)
  {
    FeedKeepsRising(math, stack, t);
    if stack != [] {
      RisingIsShallow(stack);
    }
    var r := Feed(math, stack, t);
    if r.Stack? {
      RisingIsShallow(r.items);
      assert forall i :: 0 < i < |r.items| ==> Precedence(r.items[0].op) < Precedence(r.items[i].op);
    }
  }

  // ---- The evaluator --------------------------------------------------------------------------------

  ghost function Meaning(math: Math, read: Reader, line: string, pos: nat): Result
    requires Advances(read, line)
  {
    if At(line, pos) != '[' then Err(GcodeUnsupportedCommand)
    else
      ScanClosed(read, line, pos + 1);
      Run(math, [], Scan(read, line, pos + 1))
  }

  lemma {:induction false} ScanClosed(read: Reader, line: string, pos: nat)
    requires Advances(read, line)
    ensures var ts := Scan(read, line, pos);
            && (ts.end.Closed? ==> ts.list != [] && ts.list[|ts.list| - 1].op.RightBracket?)
            && forall i :: 0 <= i < |ts.list| && ts.list[i].op.RightBracket? ==> i == |ts.list| - 1 && ts.end.Closed?
    decreases |line| - pos
  {
    var v := read(line, pos);
    if v.Operand? {
      var o := ReadOperation(line, v.next);
      if o.Operator? && !o.op.RightBracket? {
        ScanClosed(read, line, o.next);
      }
    }
  }

  // The two arrays, read as the stack of tokens.
  ghost function Items(values: array<real>, operators: array<Op>, n: nat): (r: seq<Token>)
    requires n <= values.Length && n <= operators.Length
    reads values, operators
    ensures |r| == n && forall i :: 0 <= i < n ==> r[i] == Token(values[i], operators[i])
  {
    seq(n, i requires 0 <= i < n reads values, operators requires n <= values.Length && n <= operators.Length
             => Token(values[i], operators[i]))
  }

  /** expression(): reads tokens into the arrays and reduces, with every index inside MAX_STACK. */
  method Evaluate(math: Math, read: Reader, line: string, pos: nat) returns (r: Result, next: nat)
    requires Advances(read, line)
    ensures r == Meaning(math, read, line, pos)
    ensures r.Ok? ==> Scan(read, line, pos + 1).end == Closed(next)
  {
    var values := new real[MAX_STACK];
    var operators := new Op[MAX_STACK];
    var stackIndex := 1;
    next := pos;
    if At(line, pos) != '[' {
      return Err(GcodeUnsupportedCommand), next;
    }
    next := next + 1;
    ScanClosed(read, line, pos + 1);
    ghost var all := Scan(read, line, pos + 1);
    var v := read(line, next);
    if v.NoOperand? {
      return Err(BadNumberFormat), next;
    }
    var o := ReadOperation(line, v.next);
    if o.UnknownOp? {
      return Err(ExpressionUnknownOp), next;
    }
    values[0], operators[0], next := v.value, o.op, o.next;
    ghost var rest := if o.op.RightBracket? then Tokens([], Closed(next)) else Scan(read, line, next);
    assert Items(values, operators, 1) == [Token(v.value, o.op)];
    assert all.list[1..] == rest.list;
    assert Run(math, [], all) == Run(math, Items(values, operators, 1), rest);

    while !operators[0].RightBracket?
      invariant 1 <= stackIndex <= 5 && next <= |line|
      invariant Between(Items(values, operators, stackIndex))
      invariant rest == if operators[0].RightBracket? then Tokens([], Closed(next)) else Scan(read, line, next)
      invariant rest.end == all.end
      invariant Run(math, [], all) == Run(math, Items(values, operators, stackIndex), rest)
      decreases |line| - next, !operators[0].RightBracket?
    {
      ghost var stack := Items(values, operators, stackIndex);
      v := read(line, next);
      if v.NoOperand? {
        return Err(BadNumberFormat), next;
      }
      o := ReadOperation(line, v.next);
      if o.UnknownOp? {
        return Err(ExpressionUnknownOp), next;
      }
      ghost var t := Token(v.value, o.op);
      ghost var after := if o.op.RightBracket? then Tokens([], Closed(o.next)) else Scan(read, line, o.next);
      assert rest.list == [t] + after.list;
      assert rest.list[1..] == after.list;
      StackBound(math, stack, t);
      var reduced, items := Reduce(math, values, operators, stackIndex, v.value, o.op);
      match reduced {
        case Err(e) => return Err(e), next;
        case Ok(_) =>
      }
      stackIndex, next, rest := items, o.next, after;
    }
    r := Ok(values[0]);
  }

  // Storing one operand and operator above the stack and reducing as far as they allow.
  method Reduce(math: Math, values: array<real>, operators: array<Op>, stackIndex: nat, value: real, op: Op)
    returns (status: Result, stackIndex': nat)
    requires values.Length == operators.Length == MAX_STACK && 1 <= stackIndex <= 5
    modifies values, operators
    ensures 1 <= stackIndex' <= 6
    ensures match Feed(math, old(Items(values, operators, stackIndex)), Token(value, op))
            case Failed(e) => status == Err(e)
            case Stack(s) => status.Ok? && Items(values, operators, stackIndex') == s
  {
    hide ExecuteBinary;
    ghost var stack, t := Items(values, operators, stackIndex), Token(value, op);
    values[stackIndex], operators[stackIndex] := value, op;
    stackIndex' := stackIndex;
    status := Ok(0.0);
    assert Items(values, operators, stackIndex) == stack;
    if Precedence(operators[stackIndex']) > Precedence(operators[stackIndex' - 1]) {
      stackIndex' := stackIndex' + 1;
      assert Items(values, operators, stackIndex') == stack + [t];
      return;
    }
    while Precedence(operators[stackIndex']) <= Precedence(operators[stackIndex' - 1])
      invariant 1 <= stackIndex' <= stackIndex
      invariant Precedence(operators[stackIndex']) <= Precedence(operators[stackIndex' - 1])
      invariant Feed(math, Items(values, operators, stackIndex'), Token(values[stackIndex'], operators[stackIndex'])) == Feed(math, stack, t)
      decreases stackIndex'
    {
      ghost var before := Items(values, operators, stackIndex');
      var result := ExecuteBinary(math, values[stackIndex' - 1], operators[stackIndex' - 1], values[stackIndex']);
      match result {
        case Err(e) => return Err(e), stackIndex';
        case Ok(v) => values[stackIndex' - 1] := v;
      }
      operators[stackIndex' - 1] := operators[stackIndex'];
      assert Items(values, operators, stackIndex' - 1) == before[..stackIndex' - 1];
      if stackIndex' > 1 && Precedence(operators[stackIndex' - 1]) <= Precedence(operators[stackIndex' - 2]) {
        stackIndex' := stackIndex' - 1;
      } else {
        assert Items(values, operators, stackIndex') == before[..stackIndex' - 1] + [Token(values[stackIndex' - 1], operators[stackIndex' - 1])];
        break;
      }
    }
  }
}
