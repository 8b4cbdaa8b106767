/** collapseGCode() of FluidNC/src/GCode.cpp: a line is stripped of white space and comments and put
    into upper case in place, and each comment is handed on as it was written. */
module CollapseLine {
  import opened Options

  predicate IsSpace(c: char) {
    c == ' ' || ('\t' <= c <= '\r')
  }

  function ToUpper(c: char): char {
    if 'a' <= c <= 'z' then c - ' ' else c
  }

  // How far the line is edited: the characters kept, the comment being read, whether there was one, the
  // comments handed on, and whether ';' ended the line.
  datatype Scan = Scan(out: string, comment: Option<string>, hasComment: bool, messages: seq<string>, ended: bool)

  const START := Scan("", None, false, [], false)

  function ScanChar(s: Scan, c: char): Scan {
    if s.ended then s
    else if IsSpace(c) then s.(comment := Longer(s.comment, c))
    else if c == ')' then
      if s.comment.Some? then s.(comment := None, messages := s.messages + [s.comment.value]) else s
    else if c == '(' then s.(comment := Some(""), hasComment := true)
    else if c == ';' then s.(ended := true)
    else if s.comment.Some? then s.(comment := Longer(s.comment, c))
    else s.(out := s.out + [ToUpper(c)])
  }

  function Longer(comment: Option<string>, c: char): Option<string> {
    if comment.Some? then Some(comment.value + [c]) else None
  }

  function ScanText(text: string): (s: Scan)
    decreases |text|
  {
    if text == "" then START else ScanChar(ScanText(text[..|text| - 1]), text[|text| - 1])
  }

  // A '%' and nothing else but white space: the job is told of it, and the parser gets an empty line.
  predicate LonePercent(text: string) {
    var s := ScanText(text);
    !s.ended && !s.hasComment && s.out == "%"
  }

  // The line left for the parser.
  function Collapse(text: string): string {
    if LonePercent(text) then "" else ScanText(text).out
  }

  // A comment without its closing parenthesis is handed on too, unless ';' came first.
  function Messages(text: string): seq<string> {
    var s := ScanText(text);
    s.messages + if s.comment.Some? && !s.ended then [s.comment.value] else []
  }

  lemma ScanNext(text: string, i: nat)
    requires i < |text|
    ensures ScanText(text[..i + 1]) == ScanChar(ScanText(text[..i]), text[i])
  {
    assert text[..i + 1][..i] == text[..i];
  }

  lemma {:induction false} EndedStays(text: string, i: nat)
    requires i <= |text| && ScanText(text[..i]).ended
    ensures ScanText(text) == ScanText(text[..i])
    decreases |text| - i
  {
    if i < |text| {
      ScanNext(text, i);
      EndedStays(text, i + 1);
    } else {
      assert text[..i] == text;
    }
  }

  // ---- What is left ------------------------------------------------------------------------------------

  // No white space, parentheses or semicolon, and no lower case.
  predicate Bare(text: string) {
    forall c :: c in text ==> !IsSpace(c) && c != '(' && c != ')' && c != ';' && ToUpper(c) == c
  }

  lemma {:induction false} ScanIsBare(text: string)
    ensures Bare(ScanText(text).out)
    decreases |text|
  {
    if text != "" {
      ScanIsBare(text[..|text| - 1]);
    }
  }

  lemma {:induction false} BareIsKept(text: string)
    requires Bare(text)
    ensures ScanText(text) == START.(out := text)
    decreases |text|
  {
    if text != "" {
      var last := |text| - 1;
      assert text == text[..last] + [text[last]];
      BareIsKept(text[..last]);
      assert text[last] in text;
    }
  }

  // What stands outside of comments, before the first ';'.
  function Outside(text: string, inside: bool): string
    decreases |text|
  {
    if text == "" || text[0] == ';' then ""
    else if text[0] == '(' then Outside(text[1..], true)
    else if text[0] == ')' then Outside(text[1..], false)
    else if inside || IsSpace(text[0]) then Outside(text[1..], inside)
    else [ToUpper(text[0])] + Outside(text[1..], inside)
  }

  lemma ScanStep(read: string, c: char)
    ensures ScanText(read + [c]) == ScanChar(ScanText(read), c)
  {
    assert (read + [c])[..|read|] == read;
  }

  // Reading on from a text already read.
  lemma {:induction false} ReadOn(read: string, text: string)
    requires !ScanText(read).ended
    ensures var s, t := ScanText(read), ScanText(read + text);
            && t.out == s.out + Outside(text, s.comment.Some?)
            && t.ended == (';' in text)
            && (!t.ended ==> t.hasComment == (s.hasComment || '(' in text))
    decreases |text|
  {
    hide ScanText;
    if text == "" {
      assert read + text == read;
    } else {
      var c, rest := text[0], text[1..];
      var next := read + [c];
      assert text == [c] + rest;
      assert next + rest == read + text;
      ScanStep(read, c);
      if c == ';' {
        assert (next + rest)[..|next|] == next;
        EndedStays(next + rest, |next|);
      } else {
        ReadOn(next, rest);
      }
    }
  }

  // A lone '%' is dropped, but not if there is a comment anywhere.
  predicate KeptPercent(text: string) {
    Outside(text, false) == "%" && ('(' in text || ';' in text)
  }

  lemma BareNone()
    ensures Bare("")
  {
  }

  /** The line is what stands outside of comments, but for a lone '%' without any comment. It is bare, and
      collapsing it again changes nothing, if and only if it is not a '%' kept for the sake of a comment. */
  lemma CollapseAgain(text: string)
    ensures Collapse(text) == if Outside(text, false) == "%" && !KeptPercent(text) then "" else Outside(text, false)
    ensures Bare(Collapse(text))
    ensures Collapse(Collapse(text)) == Collapse(text) <==> !KeptPercent(text)
  {
    hide ScanText, ScanChar, Outside, Bare;
    ScanNone();
    assert "" + text == text;
    ReadOn("", text);
    ScanIsBare(text);
    assert Bare("") by { BareNone(); }
    BareIsKept(Collapse(text));
  }

  // A comment before or after keeps the '%'; behind a ';' it is part of the comment.
  lemma PercentByComments()
    ensures Collapse("(x)%") == "%" && Collapse("%;") == "%" && Collapse("%") == "" && Collapse(";%") == ""
  {
    hide Collapse, Outside, ScanText, Bare;
    assert Outside("", false) == "" && Outside(";", false) == "" && Outside(";%", false) == "" by { OutsideNone(); }
    CollapseAgain("(x)%");
    CollapseAgain("%;");
    CollapseAgain("%");
    CollapseAgain(";%");
    assert "%" + "" == "%" && "%" + ";" == "%;" && "(" + "x)%" == "(x)%" && "x" + ")%" == "x)%" && ")" + "%" == ")%";
    OutsideStep("%", "", false);
    OutsideStep("%", ";", false);
    OutsideStep("(", "x)%", false);
    OutsideStep("x", ")%", true);
    OutsideStep(")", "%", true);
    assert "(x)%"[0] == '(' && "%;"[1] == ';';
  }

  lemma OutsideNone()
    ensures Outside("", false) == "" && Outside(";", false) == "" && Outside(";%", false) == ""
  {
  }

  lemma OutsideStep(first: string, rest: string, inside: bool)
    requires |first| == 1
    ensures Outside(first + rest, inside) ==
      if first[0] == ';' then ""
      else if first[0] == '(' then Outside(rest, true)
      else if first[0] == ')' then Outside(rest, false)
      else if inside || IsSpace(first[0]) then Outside(rest, inside)
      else [ToUpper(first[0])] + Outside(rest, inside)
  {
    assert (first + rest)[1..] == rest;
  }

  // Alike but for the text of the comments.
  predicate SameLine(s: Scan, t: Scan) {
    s.out == t.out && s.hasComment == t.hasComment && s.comment.Some? == t.comment.Some? && s.ended == t.ended
  }

  lemma SameNext(s: Scan, t: Scan, c: char)
    requires SameLine(s, t)
    ensures SameLine(ScanChar(s, c), ScanChar(t, c))
  {
  }

  lemma {:induction false} SpacesDoNotMatter(a: string, c: char, b: string)
    requires IsSpace(c)
    ensures SameLine(ScanText(a + [c] + b), ScanText(a + b))
    decreases |b|
  {
    if b == "" {
      assert (a + [c] + b)[..|a|] == a && a + b == a;
    } else {
      hide ScanChar, SameLine;
      var last := |b| - 1;
      assert (a + [c] + b)[..|a| + 1 + last] == a + [c] + b[..last] && (a + b)[..|a| + last] == a + b[..last];
      SpacesDoNotMatter(a, c, b[..last]);
      SameNext(ScanText(a + [c] + b[..last]), ScanText(a + b[..last]), b[last]);
    }
  }

  /** White space anywhere, inside comments too, makes no difference to the line. */
  lemma SpaceIsIgnored(a: string, c: char, b: string)
    requires IsSpace(c)
    ensures Collapse(a + [c] + b) == Collapse(a + b)
  {
    SpacesDoNotMatter(a, c, b);
  }

  // ---- Letters and comments ----------------------------------------------------------------------------

  // No white space, parentheses or semicolon.
  predicate Solid(text: string) {
    forall c :: c in text ==> c != ' ' && !('\t' <= c <= '\r') && c != '(' && c != ')' && c != ';'
  }

  lemma {:induction false} SolidIsOutside(text: string)
    requires Solid(text)
    ensures |Outside(text, false)| == |text|
    ensures forall i :: 0 <= i < |text| ==>
              Outside(text, false)[i] as int == (if 'a' <= text[i] <= 'z' then text[i] as int - 32 else text[i] as int)
    decreases |text|
  {
    if text != "" {
      assert text[0] in text && forall c :: c in text[1..] ==> c in text;
      SolidIsOutside(text[1..]);
    }
  }

  /** Text without white space and comments is kept letter by letter, 'a' to 'z' made 'A' to 'Z' and all else
      as it is; a lone "%" excepted. */
  lemma UpperCase(text: string)
    requires Solid(text) && text != "%"
    ensures |Collapse(text)| == |text|
    ensures forall i :: 0 <= i < |text| ==>
              Collapse(text)[i] as int == (if 'a' <= text[i] <= 'z' then text[i] as int - 32 else text[i] as int)
  {
    hide Solid;
    SolidIsOutside(text);
    CollapseAgain(text);
    hide Collapse;
    assert |text| == 1 && text[0] == '%' ==> text == "%";
  }

  // The messages handed on when the line has been read so far.
  lemma {:induction false} NoComment(text: string)
    requires '(' !in text && ';' !in text
    ensures var s := ScanText(text); s.comment.None? && s.messages == [] && !s.ended
    decreases |text|
  {
    if text != "" {
      assert text[|text| - 1] in text;
      NoComment(text[..|text| - 1]);
    }
  }

  predicate CommentText(text: string) {
    forall c :: c in text ==> c != '(' && c != ')' && c != ';'
  }

  lemma {:induction false} InComment(before: string, text: string)
    requires '(' !in before && ';' !in before && CommentText(text)
    ensures var s := ScanText(before + "(" + text); s.comment == Some(text) && s.messages == [] && !s.ended
    decreases |text|
  {
    if text == "" {
      NoComment(before);
      ScanStep(before, '(');
      assert before + "(" + text == before + ['('];
    } else {
      var last := |text| - 1;
      assert text[last] in text && forall c :: c in text[..last] ==> c in text;
      InComment(before, text[..last]);
      ScanStep(before + "(" + text[..last], text[last]);
      assert before + "(" + text[..last] + [text[last]] == before + "(" + text;
      assert text == text[..last] + [text[last]];
    }
  }

  // Alike in what is read, but for messages handed on before.
  predicate After(s: Scan, messages: seq<string>, t: Scan) {
    s.messages == messages + t.messages && s.comment == t.comment && s.ended == t.ended
  }

  lemma AfterNext(s: Scan, messages: seq<string>, t: Scan, c: char)
    requires After(s, messages, t)
    ensures After(ScanChar(s, c), messages, ScanChar(t, c))
  {
  }

  lemma {:induction false} AfterText(read: string, messages: seq<string>, text: string)
    requires After(ScanText(read), messages, START)
    ensures After(ScanText(read + text), messages, ScanText(text))
    decreases |text|
  {
    if text == "" {
      assert read + text == read;
    } else {
      hide ScanChar, After;
      var last := |text| - 1;
      assert (read + text)[..|read| + last] == read + text[..last];
      AfterText(read, messages, text[..last]);
      AfterNext(ScanText(read + text[..last]), messages, ScanText(text[..last]), text[last]);
    }
  }

  /** A comment is handed on exactly as it was written, before the comments behind it, with or without
      its closing parenthesis. */
  lemma CommentIsHandedOn(before: string, text: string, rest: string)
    requires '(' !in before && ';' !in before && CommentText(text)
    ensures Messages(before + "(" + text + ")" + rest) == [text] + Messages(rest)
    ensures Messages(before + "(" + text) == [text]
  {
    InComment(before, text);
    var read := before + "(" + text;
    ScanStep(read, ')');
    assert read + ")" == read + [')'];
    assert [] + [text] == [text];
    hide ScanText;
    AfterText(read + ")", [text], rest);
  }

  // A ';' ends the line, and the comment it stands in is not handed on.
  lemma CutCommentIsDropped(before: string, text: string, rest: string)
    requires '(' !in before && ';' !in before && CommentText(text)
    ensures Messages(before + "(" + text + ";" + rest) == []
  {
    InComment(before, text);
    var read := before + "(" + text;
    ScanStep(read, ';');
    assert read + ";" == read + [';'];
    hide ScanText;
    assert (read + ";" + rest)[..|read| + 1] == read + ";";
    EndedStays(read + ";" + rest, |read| + 1);
  }

  // ---- The program -------------------------------------------------------------------------------------

  /** The line is the text up to the first NUL at `len`. The write position never passes the read
      position, so no comment is damaged before it is handed on. */
  method CollapseGCode(line: array<char>, len: nat) returns (outLen: nat, messages: seq<string>, percent: bool)
    requires len < line.Length && line[len] == '\0' && '\0' !in line[..len]
    modifies line
    ensures outLen <= len && line[..outLen] == Collapse(old(line[..len])) && line[outLen] == '\0'
    ensures messages == Messages(old(line[..len])) && percent == LonePercent(old(line[..len]))
    ensures forall k :: len < k < line.Length ==> line[k] == old(line[k])
  {
    hide ScanText;
    ghost var text := line[..len];
    assert forall k :: 0 <= k < len ==> text[k] != '\0';
    var paren: Option<nat> := None;
    var out, i := 0, 0;
    var hasComment := false;
    messages := [];
    percent := false;
    assert text[..0] == "" && ScanText("") == START by { ScanNone(); }
    while line[i] != '\0'
      invariant 0 <= out <= i <= len && forall k :: i <= k < line.Length ==> line[k] == old(line[k])
      invariant Edited(ScanText(text[..i]), line[..out], paren, hasComment, messages)
      invariant paren.Some? ==> out < paren.value <= i && line[paren.value..i] == text[paren.value..i]
      invariant paren.Some? ==> ScanText(text[..i]).comment.value == text[paren.value..i]
      decreases len - i
    {
      var c := line[i];
      assert c == text[i];
      ScanNext(text, i);
      ghost var kept := line[..out];
      if IsSpace(c) {
      } else if c == ')' {
        if paren.Some? {
          messages := messages + [line[paren.value..i]];
          line[i] := '\0';
          paren := None;
        }
      } else if c == '(' {
        hasComment := true;
        paren := Some(i + 1);
      } else if c == ';' {
        line[out] := '\0';
        assert line[..out] == kept;
        EndedStays(text, i + 1);
        outLen := out;
        return;
      } else if paren.None? {
        line[out] := ToUpper(c);
        out := out + 1;
        assert line[..out] == kept + [ToUpper(c)];
      }
      i := i + 1;
    }
    assert text[..len] == text;
    ghost var kept := line[..out];
    line[out] := '\0';
    assert line[..out] == kept;
    if paren.Some? {
      messages := messages + [line[paren.value..len]];
      assert line[paren.value..len] == text[paren.value..len];
    }
    outLen := out;
    if !hasComment && out == 1 && line[0] == '%' {
      percent := true;
      line[0] := '\0';
      outLen := 0;
    }
  }

  // What the variables of the loop stand for.
  predicate Edited(s: Scan, out: string, paren: Option<nat>, hasComment: bool, messages: seq<string>) {
    !s.ended && s.out == out && s.comment.Some? == paren.Some? && s.hasComment == hasComment && s.messages == messages
  }

  lemma ScanNone()
    ensures ScanText("") == START
  {
  }
}
