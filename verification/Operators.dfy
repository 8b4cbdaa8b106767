/** What the operators of FluidNC/src/Expression.cpp compute and how tightly they bind, stated by laws and
    closed results. */
module Operators {
  import opened Expression

  // ---- Arithmetic ---------------------------------------------------------------------------------

  // Addition: commutative and associative with 0 as its unit, and subtraction undoes it.
  lemma SumLaws(math: Math, a: real, b: real, c: real)
    ensures ExecuteBinary(math, a, Plus, b).Ok? && ExecuteBinary(math, a, Minus, b).Ok?
    ensures ExecuteBinary(math, a, Plus, b) == ExecuteBinary(math, b, Plus, a)
    ensures ExecuteBinary(math, ExecuteBinary(math, a, Plus, b).value, Plus, c)
         == ExecuteBinary(math, a, Plus, ExecuteBinary(math, b, Plus, c).value)
    ensures ExecuteBinary(math, a, Plus, 0.0) == Ok(a) && ExecuteBinary(math, 1.0, Plus, 1.0) == Ok(2.0)
    ensures ExecuteBinary(math, ExecuteBinary(math, a, Minus, b).value, Plus, b) == Ok(a)
    ensures ExecuteBinary(math, a, Minus, b).value >= 0.0 <==> a >= b
  {
  }

  // Multiplication: commutative with 1 as its unit, over addition; division undoes it, but for a zero divisor.
  lemma ProductLaws(math: Math, a: real, b: real, c: real)
    ensures ExecuteBinary(math, a, Times, b).Ok?
    ensures ExecuteBinary(math, a, Times, b) == ExecuteBinary(math, b, Times, a) && ExecuteBinary(math, a, Times, 1.0) == Ok(a)
    ensures ExecuteBinary(math, a, Times, b + c)
         == Ok(ExecuteBinary(math, a, Times, b).value + ExecuteBinary(math, a, Times, c).value)
    ensures b == 0.0 <==> ExecuteBinary(math, a, DividedBy, b) == Err(ExpressionDivideByZero)
    ensures b != 0.0 ==> ExecuteBinary(math, a, DividedBy, b).Ok?
                         && ExecuteBinary(math, ExecuteBinary(math, a, DividedBy, b).value, Times, b) == Ok(a)
  {
    assert a * (b + c) == a * b + a * c;
    if b != 0.0 {
      assert a / b * b == a;
    }
  }

  // A power is refused exactly for a negative base and an exponent that is not whole.
  lemma PowerLaws(math: Math, a: real, b: real)
    ensures ExecuteBinary(math, a, Power, b) == Err(ExpressionInvalidArgument) <==> a < 0.0 && b.Floor as real < b
    ensures ExecuteBinary(math, a, Power, b).Ok? ==> ExecuteBinary(math, a, Power, b) == Ok(math.pow(a, b))
  {
  }

  // ---- Relations and truth values -----------------------------------------------------------------

  predicate IsTruth(r: Result, b: bool) {
    r == if b then Ok(1.0) else Ok(0.0)
  }

  // The relations are those of the numbers, EQ and NE up to a difference of 0.00001.
  lemma RelationLaws(math: Math, a: real, b: real)
    ensures IsTruth(ExecuteBinary(math, a, LT, b), a < b) && IsTruth(ExecuteBinary(math, a, LE, b), a <= b)
    ensures IsTruth(ExecuteBinary(math, a, GT, b), a > b) && IsTruth(ExecuteBinary(math, a, GE, b), a >= b)
    ensures IsTruth(ExecuteBinary(math, a, EQ, b), -0.00001 < a - b < 0.00001)
    ensures IsTruth(ExecuteBinary(math, a, NE, b), a - b <= -0.00001 || 0.00001 <= a - b)
  {
  }

  // The truth tables: any number but 0 is true.
  lemma LogicLaws(math: Math, a: real, b: real)
    ensures IsTruth(ExecuteBinary(math, a, And2, b), a != 0.0 && b != 0.0)
    ensures IsTruth(ExecuteBinary(math, a, NotExclusiveOR, b), a != 0.0 || b != 0.0)
    ensures IsTruth(ExecuteBinary(math, a, ExclusiveOR, b), (a != 0.0) != (b != 0.0))
  {
  }

  // ---- Binding ------------------------------------------------------------------------------------

  // The operators in the order in which they bind, loosest first.
  const LEVELS: seq<set<Op>> :=
    [{And2, ExclusiveOR, NotExclusiveOR}, {LT, EQ, NE, LE, GE, GT}, {Plus, Minus}, {Times, DividedBy, Modulo}, {Power}]

  predicate OnLevel(level: nat, op: Op) {
    level < |LEVELS| && op in LEVELS[level]
  }

  function Apply(math: Math, a: Result, op: Op, b: Result): Result {
    if a.Err? then a else if b.Err? then b else ExecuteBinary(math, a.value, op, b.value)
  }

  // The value of a x b y c in brackets.
  function Three(math: Math, a: real, x: Op, b: real, y: Op, c: real): Result {
    Run(math, [], Tokens([Token(a, x), Token(b, y), Token(c, RightBracket)], Closed(0)))
  }

  /** The operator of the higher level is applied first, and of two on the same level the one on the left. */
  lemma HigherBindsTighter(math: Math, a: real, x: Op, b: real, y: Op, c: real, i: nat, j: nat)
    requires OnLevel(i, x) && OnLevel(j, y)
    ensures Three(math, a, x, b, y, c) ==
            if i < j then Apply(math, Ok(a), x, Apply(math, Ok(b), y, Ok(c)))
            else Apply(math, Apply(math, Ok(a), x, Ok(b)), y, Ok(c))
  {
    var t0, t1, t2 := Token(a, x), Token(b, y), Token(c, RightBracket);
    LevelsRise(x, i);
    LevelsRise(y, j);
    FeedFirst(math, t0);
    ClosedThree(math, t0, t1, t2);
    hide Run, FeedAll, ExecuteBinary;
    if i < j {
      assert Feed(math, [t0], t1) == Stack([t0, t1]) by {
        assert [t0] + [t1] == [t0, t1];
      }
      FeedLast(math, [t0], t1, t2);
      assert [t0] + [t1] == [t0, t1];
      hide Feed;
      ApplyFirst(math, t0, ExecuteBinary(math, b, y, c));
    } else {
      hide Feed;
      ApplyFirst(math, t0, Ok(b));
      FeedLast(math, [], t0, t1);
      assert [] + [t0] == [t0];
      var v := ExecuteBinary(math, a, x, b);
      if v.Ok? {
        FeedFirst(math, Token(v.value, y));
        ApplyFirst(math, Token(v.value, y), Ok(c));
      }
    }
  }

  lemma FeedFirst(math: Math, t: Token)
    ensures Feed(math, [], t) == Stack([t])
  {
  }

  // A right bracket applies the one operator left on the stack.
  lemma ApplyFirst(math: Math, t: Token, v: Result)
    ensures v.Ok? && !t.op.RightBracket? ==>
              var r := ExecuteBinary(math, t.value, t.op, v.value);
              Feed(math, [t], Token(v.value, RightBracket)) ==
              if r.Err? then Failed(r.error) else Stack([Token(r.value, RightBracket)])
  {
    if v.Ok? && !t.op.RightBracket? {
      FeedLast(math, [], t, Token(v.value, RightBracket));
      assert [] + [t] == [t];
    }
  }

  lemma LevelsRise(op: Op, i: nat)
    requires OnLevel(i, op)
    ensures Precedence(op) == i + 2
  {
  }

  // An operator that binds at most as tightly as the one on top applies that one.
  lemma FeedLast(math: Math, below: seq<Token>, top: Token, t: Token)
    requires Precedence(t.op) <= Precedence(top.op)
    ensures var v := ExecuteBinary(math, top.value, top.op, t.value);
            Feed(math, below + [top], t) == if v.Err? then Failed(v.error) else Feed(math, below, Token(v.value, t.op))
  {
    assert (below + [top])[..|below|] == below;
  }

  lemma ClosedThree(math: Math, t0: Token, t1: Token, t2: Token)
    requires Feed(math, [], t0) == Stack([t0])
    ensures Run(math, [], Tokens([t0, t1, t2], Closed(0))) ==
            var r := Feed(math, [t0], t1);
            if r.Failed? then Err(r.error)
            else
              var r' := Feed(math, r.items, t2);
              if r'.Failed? then Err(r'.error) else (FeedNotEmpty(math, r.items, t2); Ok(r'.items[0].value))
  {
    hide Feed;
    assert [t0, t1, t2][1..] == [t1, t2] && [t1, t2][1..] == [t2] && [t2][1..] == [];
    var r := Feed(math, [t0], t1);
    if r.Stack? {
      var r' := Feed(math, r.items, t2);
      assert r'.Stack? ==> FeedAll(math, r'.items, []) == r';
      assert FeedAll(math, r.items, [t2]) == r';
      assert FeedAll(math, [t0], [t1, t2]) == r';
    }
    assert FeedAll(math, [], [t0, t1, t2]) == FeedAll(math, [t0], [t1, t2]);
  }

  const SUBTRACTION := "[5-3]"

  // A line read to its value: [5-3] is 2.
  lemma FiveMinusThree(math: Math, read: Reader)
    requires Advances(read, SUBTRACTION)
    requires read(SUBTRACTION, 1) == Operand(5.0, 2) && read(SUBTRACTION, 3) == Operand(3.0, 4)
    ensures Meaning(math, read, SUBTRACTION, 0) == Ok(2.0)
  {
    ScanSubtraction(read);
    RunSubtraction(math);
    hide Scan, Run, Advances;
  }

  lemma ScanSubtraction(read: Reader)
    requires Advances(read, SUBTRACTION)
    requires read(SUBTRACTION, 1) == Operand(5.0, 2) && read(SUBTRACTION, 3) == Operand(3.0, 4)
    ensures Scan(read, SUBTRACTION, 1) == Tokens([Token(5.0, Minus), Token(3.0, RightBracket)], Closed(5))
  {
    assert ReadOperation(SUBTRACTION, 2) == Operator(Minus, 3) && ReadOperation(SUBTRACTION, 4) == Operator(RightBracket, 5);
    hide ReadOperation;
    assert Scan(read, SUBTRACTION, 3) == Tokens([Token(3.0, RightBracket)], Closed(5));
  }

  lemma RunSubtraction(math: Math)
    ensures var tokens := [Token(5.0, Minus), Token(3.0, RightBracket)];
            Run(math, [], Tokens(tokens, Closed(5))) == Ok(2.0)
  {
    var t0, t1, t := Token(5.0, Minus), Token(3.0, RightBracket), Token(2.0, RightBracket);
    assert [t0, t1][1..] == [t1] && [t1][1..] == [];
    assert Feed(math, [], t0) == Stack([t0]) && Feed(math, [], t) == Stack([t]);
    FeedLast(math, [], t0, t1);
    assert [] + [t0] == [t0];
    hide Feed;
    assert FeedAll(math, [t], []) == Stack([t]);
    assert FeedAll(math, [t0], [t1]) == Stack([t]);
    assert FeedAll(math, [], [t0, t1]) == FeedAll(math, [t0], [t1]);
  }
}
