/** The grammar the shift/reduce loop implements: expression trees in which every operator binds by
    its precedence and operators of one level associate to the left. */
module ExpressionGrammar {
  import opened Expression

  datatype Tree = Leaf(value: real) | Node(left: Tree, op: Op, right: Tree)

  // Leaves bind tighter than any operator.
  function Level(t: Tree): nat {
    if t.Leaf? then 7 else Precedence(t.op)
  }

  /** The trees of the grammar: the left operand of an operator is on its level or tighter, the right
      operand is tighter, and a right bracket is no operator. */
  predicate Grammatical(t: Tree) {
    t.Node? ==>
      && !t.op.RightBracket?
      && Grammatical(t.left) && Level(t.left) >= Precedence(t.op)
      && Grammatical(t.right) && Level(t.right) > Precedence(t.op)
  }

  // The tokens of a tree followed by the operator `next`, in reading order.
  function Yield(t: Tree, next: Op): (r: seq<Token>)
    ensures r != []
  {
    match t
    case Leaf(v) => [Token(v, next)]
    case Node(l, op, r) => Yield(l, op) + Yield(r, next)
  }

  // Post-order evaluation: left operand, right operand, then the operator; the first error stands.
  function Eval(math: Math, t: Tree): Result {
    match t
    case Leaf(v) => Ok(v)
    case Node(l, op, r) =>
      match Eval(math, l)
      case Err(e) => Err(e)
      case Ok(a) =>
        match Eval(math, r)
        case Err(e) => Err(e)
        case Ok(b) => ExecuteBinary(math, a, op, b)
  }

  lemma {:induction false} FeedAllAppend(math: Math, stack: seq<Token>, a: seq<Token>, b: seq<Token>)
    ensures FeedAll(math, stack, a + b) ==
            match FeedAll(math, stack, a)
            case Failed(e) => Stack.Failed(e)
            case Stack(s) => FeedAll(math, s, b)
    decreases |a|
  {
    if a == [] {
      assert a + b == b;
    } else {
      assert (a + b)[1..] == a[1..] + b;
      var r := Feed(math, stack, a[0]);
      if r.Stack? {
        FeedAllAppend(math, r.items, a[1..], b);
      }
    }
  }

  /** Reading the tokens of a grammatical tree over a stack that binds less tightly, up to an operator
      that does not bind more tightly, leaves the tree's value in place of its tokens, or stops with
      the tree's first error. */
  lemma {:induction false} FeedTree(math: Math, stack: seq<Token>, t: Tree, next: Op)
    requires Grammatical(t) && Precedence(next) <= Level(t)
    requires stack != [] ==> Precedence(stack[|stack| - 1].op) < Level(t)
    ensures FeedAll(math, stack, Yield(t, next)) ==
            match Eval(math, t)
            case Err(e) => Stack.Failed(e)
            case Ok(v) => Feed(math, stack, Token(v, next))
    decreases t
  {
    hide ExecuteBinary;
    match t
    case Leaf(v) =>
      assert Yield(t, next)[1..] == [];
    case Node(l, op, r) =>
      FeedAllAppend(math, stack, Yield(l, op), Yield(r, next));
      FeedTree(math, stack, l, op);
      var a := Eval(math, l);
      if a.Ok? {
        var pushed := stack + [Token(a.value, op)];
        assert Feed(math, stack, Token(a.value, op)) == Stack.Stack(pushed);
        FeedTree(math, pushed, r, next);
        assert pushed[..|pushed| - 1] == stack;
      }
  }

  /** The evaluator is the grammar: for every tree of the grammar, of any size, the loop run on its
      tokens closed by a right bracket gives the tree's value, or its first error in post-order. */
  lemma RunIsEval(math: Math, t: Tree, next: nat)
    requires Grammatical(t)
    ensures Run(math, [], Tokens(Yield(t, RightBracket), Closed(next))) == Eval(math, t)
  {
    FeedTree(math, [], t, RightBracket);
  }

  // ---- Every token sequence is the yield of exactly one tree ------------------------------------------

  // The tree of the tokens read so far, extended by an operator and one more operand.
  function Extend(t: Tree, op: Op, v: real): Tree {
    if Precedence(op) <= Level(t) then Node(t, op, Leaf(v)) else Node(t.left, t.op, Extend(t.right, op, v))
  }

  // The tree of v, op, tokens: `op` is the operator in front of the tokens.
  function Build(t: Tree, op: Op, tokens: seq<Token>): Tree
    decreases |tokens|
  {
    if tokens == [] then t else Build(Extend(t, op, tokens[0].value), tokens[0].op, tokens[1..])
  }

  function TreeOf(tokens: seq<Token>): Tree
    requires tokens != []
  {
    Build(Leaf(tokens[0].value), tokens[0].op, tokens[1..])
  }

  // Tokens as they stand in a closed expression: the right bracket is the last operator.
  predicate ClosedTokens(tokens: seq<Token>) {
    tokens != [] && forall i :: 0 <= i < |tokens| ==> (tokens[i].op.RightBracket? <==> i == |tokens| - 1)
  }

  lemma {:induction false} ExtendWorks(t: Tree, op: Op, v: real, next: Op)
    requires Grammatical(t) && !op.RightBracket?
    ensures Grammatical(Extend(t, op, v)) && Yield(Extend(t, op, v), next) == Yield(t, op) + [Token(v, next)]
    ensures Precedence(op) > Level(t) ==> Level(Extend(t, op, v)) == Level(t)
    ensures Precedence(op) <= Level(t) ==> Level(Extend(t, op, v)) == Precedence(op)
    decreases t
  {
    if Precedence(op) > Level(t) {
      ExtendWorks(t.right, op, v, next);
      assert Yield(t.left, t.op) + (Yield(t.right, op) + [Token(v, next)]) == Yield(t.left, t.op) + Yield(t.right, op) + [Token(v, next)];
    }
  }

  lemma ClosedRest(tokens: seq<Token>)
    requires ClosedTokens(tokens)
    ensures |tokens| > 1 ==> ClosedTokens(tokens[1..])
    ensures tokens[0].op.RightBracket? <==> tokens[1..] == []
  {
  }

  lemma {:induction false} BuildWorks(t: Tree, op: Op, tokens: seq<Token>)
    requires Grammatical(t)
    requires if tokens == [] then op.RightBracket? else !op.RightBracket? && ClosedTokens(tokens)
    ensures Grammatical(Build(t, op, tokens)) && Yield(Build(t, op, tokens), RightBracket) == Yield(t, op) + tokens
    decreases |tokens|
  {
    if tokens == [] {
      assert Yield(t, op) + tokens == Yield(t, op);
    } else {
      hide ClosedTokens, Extend, Yield, Grammatical;
      ClosedRest(tokens);
      ExtendWorks(t, op, tokens[0].value, tokens[0].op);
      BuildWorks(Extend(t, op, tokens[0].value), tokens[0].op, tokens[1..]);
      assert Yield(t, op) + [tokens[0]] + tokens[1..] == Yield(t, op) + tokens;
    }
  }

  lemma {:induction false} BuildAppend(t: Tree, op: Op, a: seq<Token>, b: seq<Token>)
    requires a != []
    ensures Build(t, op, a + b) == Build(Build(t, op, a), a[|a| - 1].op, b)
    decreases |a|
  {
    assert (a + b)[1..] == a[1..] + b && (a + b)[0] == a[0];
    if |a| == 1 {
      assert a[1..] + b == b;
    } else {
      BuildAppend(Extend(t, op, a[0].value), a[0].op, a[1..], b);
    }
  }

  // The operators of a tree's tokens are on its level or tighter, but for the one that follows it.
  lemma {:induction false} YieldLevels(t: Tree, next: Op)
    requires Grammatical(t)
    ensures var y := Yield(t, next);
            && y[|y| - 1].op == next
            && forall i :: 0 <= i < |y| - 1 ==> Precedence(y[i].op) >= Level(t)
    decreases t
  {
    if t.Node? {
      YieldLevels(t.left, t.op);
      YieldLevels(t.right, next);
      var a, b := Yield(t.left, t.op), Yield(t.right, next);
      var y: seq<Token> := a + b;
      forall i: nat | i < |y| - 1 ensures Precedence(y[i].op) >= Level(t) {
        if i >= |a| {
          assert y[i] == b[i - |a|];
        }
      }
    }
  }

  // Tokens that bind more tightly than `op` all go to the right of it.
  lemma {:induction false} BuildUnder(l: Tree, op: Op, x: Tree, o: Op, tokens: seq<Token>)
    requires tokens != [] ==> Precedence(o) > Precedence(op)
    requires forall i :: 0 <= i < |tokens| - 1 ==> Precedence(tokens[i].op) > Precedence(op)
    ensures Build(Node(l, op, x), o, tokens) == Node(l, op, Build(x, o, tokens))
    decreases |tokens|
  {
    if tokens != [] {
      assert forall i :: 0 <= i < |tokens[1..]| - 1 ==> tokens[1..][i] == tokens[i + 1];
      BuildUnder(l, op, Extend(x, o, tokens[0].value), tokens[0].op, tokens[1..]);
    }
  }

  /** The grammar is unambiguous: a tree is recovered from its tokens. */
  lemma {:induction false} TreeOfYield(t: Tree, next: Op)
    requires Grammatical(t) && Precedence(next) <= Level(t)
    ensures TreeOf(Yield(t, next)) == t
    decreases t
  {
    if t.Node? {
      var l, op, r := t.left, t.op, t.right;
      var a, b := Yield(l, op), Yield(r, next);
      TreeOfYield(l, op);
      TreeOfYield(r, next);
      YieldLevels(l, op);
      YieldLevels(r, next);
      assert Yield(t, next) == a + b;
      hide Yield, Extend;
      TreeOfJoin(a, b);
      hide Build;
      BuildUnder(l, op, Leaf(b[0].value), b[0].op, b[1..]);
      BuildFirst(l, op, b);
    }
  }

  lemma TreeOfJoin(a: seq<Token>, b: seq<Token>)
    requires a != []
    ensures TreeOf(a + b) == Build(TreeOf(a), a[|a| - 1].op, b)
  {
    assert (a + b)[1..] == a[1..] + b && (a + b)[0] == a[0];
    if |a| == 1 {
      assert a[1..] + b == b;
    } else {
      BuildAppend(Leaf(a[0].value), a[0].op, a[1..], b);
    }
  }

  lemma BuildFirst(t: Tree, op: Op, tokens: seq<Token>)
    requires tokens != []
    ensures Build(t, op, tokens) == Build(Extend(t, op, tokens[0].value), tokens[0].op, tokens[1..])
  {
  }

  /** Every closed token sequence is the yield of a grammatical tree, and of no other. */
  lemma TokensAreOneTree(tokens: seq<Token>)
    requires ClosedTokens(tokens)
    ensures Grammatical(TreeOf(tokens)) && Yield(TreeOf(tokens), RightBracket) == tokens
    ensures forall t :: Grammatical(t) && Yield(t, RightBracket) == tokens ==> t == TreeOf(tokens)
  {
    ClosedRest(tokens);
    BuildWorks(Leaf(tokens[0].value), tokens[0].op, tokens[1..]);
    assert [tokens[0]] + tokens[1..] == tokens;
    forall t | Grammatical(t) && Yield(t, RightBracket) == tokens ensures t == TreeOf(tokens) {
      TreeOfYield(t, RightBracket);
    }
  }

  // ---- expression() ------------------------------------------------------------------------------------

  /** What expression() returns for a line whose tokens can all be read: the value of the one tree
      they form, or the first error of that tree in post-order. */
  lemma MeaningIsTree(math: Math, read: Reader, line: string, pos: nat)
    requires Advances(read, line) && At(line, pos) == '['
    requires Scan(read, line, pos + 1).end.Closed?
    ensures var tokens := Scan(read, line, pos + 1).list;
            ClosedTokens(tokens) && Meaning(math, read, line, pos) == Eval(math, TreeOf(tokens))
  {
    var ts := Scan(read, line, pos + 1);
    ScanClosed(read, line, pos + 1);
    TokensAreOneTree(ts.list);
    RunIsEval(math, TreeOf(ts.list), ts.end.next);
  }

  /** When the line cannot be read to the closing bracket, the reading error is reported, unless an
      operator already applied has failed; and that failure is the one that every expression
      starting with these tokens has. */
  lemma ReadErrorComesLast(math: Math, tokens: seq<Token>, e: Error)
    requires tokens != []
    ensures var r := Run(math, [], Tokens(tokens, Broken(e)));
            || r == Err(e)
            || (r.Err? && forall t :: Grammatical(t) && tokens <= Yield(t, RightBracket) ==> Eval(math, t) == r)
  {
    var r := Run(math, [], Tokens(tokens, Broken(e)));
    if r != Err(e) {
      forall t | Grammatical(t) && tokens <= Yield(t, RightBracket) ensures Eval(math, t) == r {
        var y := Yield(t, RightBracket);
        assert tokens + y[|tokens|..] == y;
        FeedAllAppend(math, [], tokens, y[|tokens|..]);
        RunIsEval(math, t, 0);
      }
    }
  }
}
