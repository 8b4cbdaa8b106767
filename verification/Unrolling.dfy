/** REPEAT n runs its body n times: what it means against the body written n times in a row. */
module Unrolling {
  import opened Flowcontrol
  import opened FlowJob
  import opened Structured

  function Append(a: Block, b: Block): Block {
    match a
    case Nil => b
    case Seq(st, rest) => Seq(st, Append(rest, b))
  }

  function Times(b: Block, n: nat): Block {
    if n == 0 then Nil else Append(b, Times(b, n - 1))
  }

  lemma AfterNothing(r: Result)
    ensures After([], r) == r
  {
    if !r.Timeout? {
      assert [] + r.events == r.events;
    }
  }

  lemma AfterAfter(a: seq<Event>, b: seq<Event>, r: Result)
    ensures After(a, After(b, r)) == After(a + b, r)
  {
    if !r.Timeout? {
      assert a + (b + r.events) == a + b + r.events;
    }
  }

  lemma {:induction false} FlatAppend(a: Block, b: Block)
    ensures Flat(Append(a, b)) == Flat(a) + Flat(b)
  {
    if a.Seq? {
      FlatAppend(a.rest, b);
      assert Flat(Append(a, b)) == FlatStmt(a.first) + (Flat(a.rest) + Flat(b));
    }
  }

  lemma PassTwo(env: Env, a: seq<Line>, b: seq<Line>, p: nat, r: Result)
    ensures PassOver(env, a + b, p, r) == PassOver(env, b, p + |a|, PassOver(env, a, p, r))
  {
    if r.Normal? || r.Breaking? {
      SkimAppend(env, a, b, r.memory, p);
    }
  }

  /** One block after another: the second runs if the first ends, and is passed over if it breaks out. */
  lemma {:induction false} EvalAppend(env: Env, fuel: nat, a: Block, b: Block, s: Memory, p: nat)
    ensures var r, q := EvalBlock(env, fuel, a, s, p), p + |Flat(a)|;
            EvalBlock(env, fuel, Append(a, b), s, p) ==
            if r.Normal? then After(r.events, EvalBlock(env, fuel, b, r.memory, q)) else PassOver(env, Flat(b), q, r)
    decreases a
  {
    hide Skim, FlatStmt, EvalStmt;
    if a.Nil? {
      AfterNothing(EvalBlock(env, fuel, b, s, p));
    } else {
      var st, rest := a.first, a.rest;
      var r1, p1 := EvalStmt(env, fuel, st, s, p), p + |FlatStmt(st)|;
      FlatAppend(rest, b);
      if r1.Normal? {
        hide PassOver;
        EvalAppend(env, fuel, rest, b, r1.memory, p1);
        var r2 := EvalBlock(env, fuel, rest, r1.memory, p1);
        if r2.Normal? {
          AfterAfter(r1.events, r2.events, EvalBlock(env, fuel, b, r2.memory, p1 + |Flat(rest)|));
        } else {
          AfterPass(env, Flat(b), p1 + |Flat(rest)|, r1.events, r2);
        }
      } else {
        PassTwo(env, Flat(rest), Flat(b), p1, r1);
      }
    }
  }

  lemma AfterPass(env: Env, text: seq<Line>, p: nat, e: seq<Event>, r: Result)
    ensures After(e, PassOver(env, text, p, r)) == PassOver(env, text, p, After(e, r))
  {
  }

  // ---- Text without a '%' means the same wherever it stands ---------------------------------------------

  predicate NoPercent(env: Env, text: seq<Line>) {
    forall i :: 0 <= i < |text| && text[i].Plain? ==> !env.percent(text[i].text)
  }

  lemma NoPercentParts(env: Env, a: seq<Line>, b: seq<Line>)
    requires NoPercent(env, a + b)
    ensures NoPercent(env, a) && NoPercent(env, b)
  {
    assert forall i :: 0 <= i < |a| ==> (a + b)[i] == a[i];
    assert forall i :: 0 <= i < |b| ==> (a + b)[|a| + i] == b[i];
  }

  // The results are the same but for where the job has stopped, and on what of the stack.
  predicate Alike(r: Result, r': Result) {
    match r
    case Stopped(err, s, e, _, _) => r'.Stopped? && r'.error == err && r'.memory == s && r'.events == e
    case _ => r' == r
  }

  lemma {:induction false} SkimMoved(env: Env, text: seq<Line>, s: Memory, p: nat, p': nat)
    requires NoPercent(env, text)
    ensures var r, r' := Skim(env, text, s, p), Skim(env, text, s, p');
            if r.Passed? then r' == r else r'.Halting? && r'.error == r.error && r'.memory == r.memory
    decreases |text|
  {
    if text != [] {
      NoPercentParts(env, [text[0]], text[1..]);
      assert [text[0]] + text[1..] == text;
      assert [text[0]][0] == text[0];
      var first := PassLine(env, text[0], s, p);
      if first.Passed? {
        SkimMoved(env, text[1..], first.memory, p + 1, p' + 1);
      }
    }
  }

  lemma PassMoved(env: Env, text: seq<Line>, p: nat, p': nat, r: Result, r': Result)
    requires Alike(r, r') && NoPercent(env, text)
    ensures Alike(PassOver(env, text, p, r), PassOver(env, text, p', r'))
  {
    if r.Normal? || r.Breaking? {
      SkimMoved(env, text, r.memory, p, p');
    }
  }

  lemma PartsOf(env: Env, st: Stmt)
    requires NoPercent(env, FlatStmt(st))
    ensures st.IfS? ==> NoPercent(env, Flat(st.body)) && NoPercent(env, FlatTail(st.oLabel, st.tail))
    ensures st.WhileS? || st.DoS? || st.RepeatS? ==> NoPercent(env, Flat(st.body))
  {
    match st
    case IfS(l, c, b, t) =>
      NoPercentParts(env, [OWord(l, If, c)] + Flat(b), FlatTail(l, t));
      NoPercentParts(env, [OWord(l, If, c)], Flat(b));
    case WhileS(l, c, b) =>
      NoPercentParts(env, [OWord(l, While, c)] + Flat(b), [OWord(l, EndWhile, "")]);
      NoPercentParts(env, [OWord(l, While, c)], Flat(b));
    case DoS(l, b, c) =>
      NoPercentParts(env, [OWord(l, Do, "")] + Flat(b), [OWord(l, While, c)]);
      NoPercentParts(env, [OWord(l, Do, "")], Flat(b));
    case RepeatS(l, c, b) =>
      NoPercentParts(env, [OWord(l, Repeat, c)] + Flat(b), [OWord(l, EndRepeat, "")]);
      NoPercentParts(env, [OWord(l, Repeat, c)], Flat(b));
    case Command(_) =>
    case Signal(_, _, _) =>
    case BreakS(_) =>
  }

  lemma TailParts(env: Env, l: nat, t: Tail)
    requires NoPercent(env, FlatTail(l, t))
    ensures !t.NoElse? ==> NoPercent(env, Flat(t.body))
    ensures t.ElseIfS? ==> NoPercent(env, FlatTail(l, t.tail))
  {
    match t
    case NoElse =>
    case ElseS(b) =>
      NoPercentParts(env, [OWord(l, Else, "")] + Flat(b), [OWord(l, EndIf, "")]);
      NoPercentParts(env, [OWord(l, Else, "")], Flat(b));
    case ElseIfS(c, b, t') =>
      NoPercentParts(env, [OWord(l, ElseIf, c)] + Flat(b), FlatTail(l, t'));
      NoPercentParts(env, [OWord(l, ElseIf, c)], Flat(b));
  }

  lemma {:induction false} BlockMoved(env: Env, fuel: nat, b: Block, s: Memory, p: nat, p': nat)
    requires NoPercent(env, Flat(b))
    ensures Alike(EvalBlock(env, fuel, b, s, p), EvalBlock(env, fuel, b, s, p'))
    decreases fuel, b, 0
  {
    hide NoPercent, Skim, FlatStmt;
    if b.Seq? {
      NoPercentParts(env, FlatStmt(b.first), Flat(b.rest));
      StmtMoved(env, fuel, b.first, s, p, p');
      var r, q, q' := EvalStmt(env, fuel, b.first, s, p), p + |FlatStmt(b.first)|, p' + |FlatStmt(b.first)|;
      hide EvalStmt;
      if r.Normal? {
        BlockMoved(env, fuel, b.rest, r.memory, q, q');
      } else {
        PassMoved(env, Flat(b.rest), q, q', r, EvalStmt(env, fuel, b.first, s, p'));
      }
    }
  }

  lemma {:induction false} StmtMoved(env: Env, fuel: nat, st: Stmt, s: Memory, p: nat, p': nat)
    requires NoPercent(env, FlatStmt(st))
    ensures Alike(EvalStmt(env, fuel, st, s, p), EvalStmt(env, fuel, st, s, p'))
    decreases fuel, st, 1
  {
    PartsOf(env, st);
    match st
    case Command(text) => assert FlatStmt(st)[0] == Plain(text);
    case Signal(_, _, _) =>
    case BreakS(_) =>
    case IfS(l, c, b, t) => IfMoved(env, fuel, st, s, p, p');
    case WhileS(_, _, b) =>
      PassMoved(env, Flat(b), p + 1, p' + 1, Normal(s, []), Normal(s, []));
      WhileMoved(env, fuel, st, s, p, p');
    case DoS(l, b, c) =>
      BlockMoved(env, fuel, b, s, p + 1, p' + 1);
      var r := EvalBlock(env, fuel, b, s, p + 1);
      if r.Normal? && fuel > 0 {
        StmtMoved(env, fuel - 1, st, r.memory, p, p');
      }
    case RepeatS(_, c, b) =>
      PassMoved(env, Flat(b), p + 1, p' + 1, Normal(s, []), Normal(s, []));
      var v := env.eval(c, s.store);
      if v.Number? {
        RepeatMoved(env, fuel, st, Passes(v.value), s, p, p');
      }
  }

  lemma {:induction false} IfMoved(env: Env, fuel: nat, st: Stmt, s: Memory, p: nat, p': nat)
    requires st.IfS? && NoPercent(env, Flat(st.body)) && NoPercent(env, FlatTail(st.oLabel, st.tail))
    ensures Alike(EvalStmt(env, fuel, st, s, p), EvalStmt(env, fuel, st, s, p'))
    decreases fuel, st, 0
  {
    hide NoPercent, Skim, Flat, FlatTail;
    var b, q, q' := st.body, p + 1 + |Flat(st.body)|, p' + 1 + |Flat(st.body)|;
    var v := env.eval(st.cond, s.store);
    if v.Number? && v.value != 0.0 {
      BlockMoved(env, fuel, b, s, p + 1, p' + 1);
      PassMoved(env, FlatTail(st.oLabel, st.tail), q, q', Inside(EvalBlock(env, fuel, b, s, p + 1)), Inside(EvalBlock(env, fuel, b, s, p' + 1)));
    } else if v.Number? {
      SkimMoved(env, Flat(b), s, p + 1, p' + 1);
      var skipped := Skim(env, Flat(b), s, p + 1);
      if skipped.Passed? {
        TailMoved(env, fuel, st.oLabel, st.tail, skipped.memory, q, q');
      }
    }
  }

  lemma {:induction false} TailMoved(env: Env, fuel: nat, l: nat, t: Tail, s: Memory, p: nat, p': nat)
    requires NoPercent(env, FlatTail(l, t))
    ensures Alike(EvalTail(env, fuel, l, t, s, p), EvalTail(env, fuel, l, t, s, p'))
    decreases fuel, t, 1
  {
    TailParts(env, l, t);
    hide NoPercent, Skim, Flat, FlatTail;
    match t
    case NoElse =>
    case ElseS(b) => BlockMoved(env, fuel, b, s, p + 1, p' + 1);
    case ElseIfS(c, b, t') =>
      var q, q' := p + 1 + |Flat(b)|, p' + 1 + |Flat(b)|;
      var v := env.eval(c, s.store);
      if v.Number? && v.value != 0.0 {
        BlockMoved(env, fuel, b, s, p + 1, p' + 1);
        PassMoved(env, FlatTail(l, t'), q, q', Inside(EvalBlock(env, fuel, b, s, p + 1)), Inside(EvalBlock(env, fuel, b, s, p' + 1)));
      } else if v.Number? {
        SkimMoved(env, Flat(b), s, p + 1, p' + 1);
        var skipped := Skim(env, Flat(b), s, p + 1);
        if skipped.Passed? {
          TailMoved(env, fuel, l, t', skipped.memory, q, q');
        }
      }
  }

  lemma {:induction false} WhileMoved(env: Env, fuel: nat, st: Stmt, s: Memory, p: nat, p': nat)
    requires st.WhileS? && NoPercent(env, Flat(st.body))
    ensures Alike(EvalWhile(env, fuel, st, s, p), EvalWhile(env, fuel, st, s, p'))
    decreases fuel, st, 0
  {
    hide NoPercent, Flat;
    BlockMoved(env, fuel, st.body, s, p + 1, p' + 1);
    var r := EvalBlock(env, fuel, st.body, s, p + 1);
    if r.Normal? && fuel > 0 {
      WhileMoved(env, fuel - 1, st, r.memory, p, p');
    }
  }

  lemma {:induction false} RepeatMoved(env: Env, fuel: nat, st: Stmt, passes: nat, s: Memory, p: nat, p': nat)
    requires st.RepeatS? && NoPercent(env, Flat(st.body))
    ensures Alike(EvalRepeat(env, fuel, st, passes, s, p), EvalRepeat(env, fuel, st, passes, s, p'))
    decreases fuel, st, 0, passes
  {
    hide NoPercent, Flat;
    BlockMoved(env, fuel, st.body, s, p + 1, p' + 1);
    var r := EvalBlock(env, fuel, st.body, s, p + 1);
    if r.Normal? && passes > 1 {
      RepeatMoved(env, fuel, st, passes - 1, r.memory, p, p');
    }
  }

  // ---- The unrolled REPEAT ------------------------------------------------------------------------------

  // How the passes of a REPEAT at `p` end, against the body written so many times at `q`: the same, but
  // that a BREAK passes over the copies that are left.
  ghost predicate Unrolls(r: Result, u: Result, l: nat) {
    && (u.Normal? || u.Timeout? ==> r == u)
    && (r.Timeout? ==> u.Timeout?)
    && (r.Stopped? ==> Alike(r, u))
    && (r.Breaking? ==> u.Stopped? || (u.Breaking? && u.oLabel == r.oLabel))
    && (u.Breaking? && u.oLabel != l ==> r.Breaking? && r.oLabel == u.oLabel && r.memory.store == u.memory.store && r.events == u.events)
  }

  lemma {:induction false} PassesUnroll(env: Env, fuel: nat, st: Stmt, n: nat, s: Memory, p: nat, q: nat)
    requires st.RepeatS? && n > 0 && NoPercent(env, Flat(st.body))
    ensures Unrolls(EvalRepeat(env, fuel, st, n, s, p), EvalBlock(env, fuel, Times(st.body, n), s, q), st.oLabel)
    ensures AllReadable(env) && EvalRepeat(env, fuel, st, n, s, p).Breaking? ==> EvalBlock(env, fuel, Times(st.body, n), s, q).Breaking?
    decreases n
  {
    var rest := Times(st.body, n - 1);
    EvalAppend(env, fuel, st.body, rest, s, q);
    BlockMoved(env, fuel, st.body, s, p + 1, q);
    var b, b', q1 := EvalBlock(env, fuel, st.body, s, p + 1), EvalBlock(env, fuel, st.body, s, q), q + |Flat(st.body)|;
    if b.Normal? {
      if n > 1 {
        PassesUnroll(env, fuel, st, n - 1, b.memory, p, q1);
      } else {
        assert b.events + [] == b.events;
      }
    } else if b.Breaking? {
      SkimKeepsStore(env, Flat(rest), b.memory, q1);
      if AllReadable(env) {
        TimesNoPercent(env, st.body, n - 1);
        SkimReadable(env, Flat(rest), b.memory, q1);
      }
    }
  }

  lemma {:induction false} TimesNoPercent(env: Env, b: Block, n: nat)
    requires NoPercent(env, Flat(b))
    ensures NoPercent(env, Flat(Times(b, n)))
    decreases n
  {
    if n > 0 {
      TimesNoPercent(env, b, n - 1);
      FlatAppend(b, Times(b, n - 1));
      NoPercentJoin(env, Flat(b), Flat(Times(b, n - 1)));
      hide NoPercent, Flat;
    }
  }

  lemma NoPercentJoin(env: Env, a: seq<Line>, b: seq<Line>)
    requires NoPercent(env, a) && NoPercent(env, b)
    ensures NoPercent(env, a + b)
  {
  }

  lemma {:induction false} SkimReadable(env: Env, text: seq<Line>, s: Memory, p: nat)
    requires AllReadable(env) && NoPercent(env, text)
    ensures Skim(env, text, s, p).Passed?
    decreases |text|
  {
    if text != [] {
      var first := PassLine(env, text[0], s, p);
      assert forall i :: 0 <= i < |text[1..]| ==> text[1..][i] == text[i + 1];
      SkimReadable(env, text[1..], first.memory, p + 1);
    }
  }

  lemma {:induction false} SkimKeepsStore(env: Env, text: seq<Line>, s: Memory, p: nat)
    ensures Skim(env, text, s, p).memory.store == s.store
    decreases |text|
  {
    if text != [] {
      var first := PassLine(env, text[0], s, p);
      if first.Passed? {
        SkimKeepsStore(env, text[1..], first.memory, p + 1);
      }
    }
  }

  /** A REPEAT with the integer count n > 0 means its body written n times in a row, wherever that stands
      and whatever its lines are, a lone '%' excepted: it ends with the same memory and events, or
      neither ends, or both stop with the same error; a BREAK out of both is the same BREAK. Only a BREAK
      of this very REPEAT, and what is read of the copies that a BREAK passes over, are left to differ. */
  lemma RepeatIsUnrolled(env: Env, fuel: nat, st: Stmt, n: nat, s: Memory, p: nat, q: nat)
    requires st.RepeatS? && 0 < n < 0x1_0000_0000 && env.eval(st.count, s.store) == Number(n as real)
    requires NoPercent(env, Flat(st.body))
    ensures Unrolls(EvalStmt(env, fuel, st, s, p), EvalBlock(env, fuel, Times(st.body, n), s, q), st.oLabel)
    ensures AllReadable(env) && EvalStmt(env, fuel, st, s, p).Breaking? ==> EvalBlock(env, fuel, Times(st.body, n), s, q).Breaking?
  {
    assert (n as real).Floor == n;
    assert ToUint32(n as real) == n;
    PassesUnroll(env, fuel, st, n, s, p, q);
  }

  /** With a count of zero it does nothing, if and only if its body can be passed over. */
  lemma RepeatZeroTimes(env: Env, fuel: nat, st: Stmt, s: Memory, p: nat)
    requires st.RepeatS? && env.eval(st.count, s.store) == Number(0.0)
    ensures var r := EvalStmt(env, fuel, st, s, p);
            (r.Normal? && r.memory.store == s.store && r.events == []) <==> Skim(env, Flat(st.body), s, p + 1).Passed?
  {
    SkimKeepsStore(env, Flat(st.body), s, p + 1);
  }
}
