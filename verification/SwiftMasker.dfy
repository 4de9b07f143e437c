/**
 The lexical masker for Swift sources: comments and literal text are overwritten
 with spaces, newlines and interpolated code stay where they are.

 `Mask` is the reference: a pushdown automaton that reads the source once, token by
 token, with an explicit stack of contexts.  `Scanner` is the program: mutually
 recursive scanners that blank a copy of the source in place.
 */
module SwiftMasker {

  // ----- Tokens -----

  predicate StartsWith(s: string, token: string, i: nat): (yes: bool)
    ensures yes ==> i + |token| <= |s|
  {
    i + |token| <= |s| && s[i..i + |token|] == token
  }

  function Hashes(n: nat): (t: string)
    ensures |t| == n
  {
    seq(n, _ => '#')
  }

  function Delimiter(triple: bool): (t: string)
    ensures t != ""
  {
    if triple then "\"\"\"" else "\""
  }

  /** The first position at or after `i` that does not hold a '#'. */
  function HashRunEnd(s: string, i: nat): (end: nat)
    requires i <= |s|
    ensures i <= end <= |s|
    ensures forall k :: i <= k < end ==> s[k] == '#'
    ensures end < |s| ==> s[end] != '#'
    decreases |s| - i
  {
    if i < |s| && s[i] == '#' then HashRunEnd(s, i + 1) else i
  }

  // ----- The pushdown automaton -----

  datatype Frame =
    | TopLevel                          // code of the file itself
    | Interpolation(open: nat)          // code inside a string, with its open parentheses
    | Text(hashes: nat, triple: bool)   // characters of a string literal
    | Line                              // comment up to the end of the line
    | Block(depth: nat)                 // nested block comment

  datatype Stack = Empty | On(top: Frame, below: Stack)

  /** One move: the number of characters consumed, whether they stay visible, and the next stack. */
  datatype Move = Move(length: nat, keep: bool, next: Stack)

  predicate IsCode(st: Stack) {
    st.On? && (st.top.TopLevel? || st.top.Interpolation?)
  }

  function NextInCode(s: string, i: nat, st: Stack): (m: Move)
    requires i < |s| && IsCode(st)
    ensures 0 < m.length && i + m.length <= |s|
  {
    if StartsWith(s, "//", i) then Move(2, false, On(Line, st))
    else if StartsWith(s, "/*", i) then Move(2, false, On(Block(1), st))
    else if s[i] == '#' || s[i] == '"' then
      var quote := HashRunEnd(s, i);
      if quote < |s| && s[quote] == '"' then
        var triple := StartsWith(s, Delimiter(true), quote);
        Move(quote - i + |Delimiter(triple)|, false, On(Text(quote - i, triple), st))
      else
        Move(1, true, st)
    else if st.top.Interpolation? && s[i] == '(' then
      Move(1, true, On(Interpolation(st.top.open + 1), st.below))
    else if st.top.Interpolation? && s[i] == ')' then
      if st.top.open <= 1 then Move(1, false, st.below)
      else Move(1, true, On(Interpolation(st.top.open - 1), st.below))
    else Move(1, true, st)
  }

  function NextInText(s: string, i: nat, st: Stack): (m: Move)
    requires i < |s| && st.On? && st.top.Text?
    ensures 0 < m.length && i + m.length <= |s|
  {
    var hashes := Hashes(st.top.hashes);
    if StartsWith(s, Delimiter(st.top.triple) + hashes, i) then
      Move(|Delimiter(st.top.triple)| + |hashes|, false, st.below)
    else if StartsWith(s, "\\" + hashes, i) then
      var end := i + 1 + |hashes|;
      if StartsWith(s, "(", end) then Move(end + 1 - i, false, On(Interpolation(1), st))
      else Move(if end < |s| then end + 1 - i else end - i, false, st)
    else Move(1, false, st)
  }

  function NextInBlock(s: string, i: nat, st: Stack): (m: Move)
    requires i < |s| && st.On? && st.top.Block?
    ensures 0 < m.length && i + m.length <= |s|
  {
    if StartsWith(s, "/*", i) then Move(2, false, On(Block(st.top.depth + 1), st.below))
    else if StartsWith(s, "*/", i) then
      Move(2, false, if st.top.depth <= 1 then st.below else On(Block(st.top.depth - 1), st.below))
    else Move(1, false, st)
  }

  function Next(s: string, i: nat, st: Stack): (m: Move)
    requires i < |s|
    ensures 0 < m.length && i + m.length <= |s|
  {
    if st.Empty? then Move(1, false, Empty)
    else if st.top.Text? then NextInText(s, i, st)
    else if st.top.Block? then NextInBlock(s, i, st)
    else if st.top.Line? then Move(1, false, if s[i] == '\n' then st.below else st)
    else NextInCode(s, i, st)
  }

  /** What a blanked stretch of text looks like: newlines stay, the rest are spaces. */
  function Blanked(text: string): (t: string)
    ensures |t| == |text|
  {
    seq(|text|, k requires 0 <= k < |text| => if text[k] == '\n' then '\n' else ' ')
  }

  /** The visible form of `s[i..]` when the automaton arrives at `i` with stack `st`. */
  function Mask(s: string, i: nat, st: Stack): (t: string)
    ensures |t| == if i <= |s| then |s| - i else 0
    decreases |s| - i
  {
    if i >= |s| then ""
    else
      var m := Next(s, i, st);
      var token := s[i..i + m.length];
      (if m.keep then token else Blanked(token)) + Mask(s, i + m.length, m.next)
  }

  const FILE: Stack := On(TopLevel, Empty)

  function SwiftCode(s: string): (t: string)
    ensures |t| == |s|
  {
    Mask(s, 0, FILE)
  }

  // ----- What masking promises -----

  lemma StepTo(s: string, i: nat, st: Stack, m: Move)
    requires i < |s| && Next(s, i, st) == m
    ensures Mask(s, i, st)
         == (if m.keep then s[i..i + m.length] else Blanked(s[i..i + m.length])) + Mask(s, i + m.length, m.next)
  {
    hide Next, Blanked;
  }

  /** One step of the automaton: the token it consumes is kept whole or blanked whole. */
  lemma Unfold(s: string, i: nat, st: Stack) returns (m: Move, token: string)
    requires i < |s|
    ensures 0 < m.length && i + m.length <= |s|
    ensures token == if m.keep then s[i..i + m.length] else Blanked(s[i..i + m.length])
    ensures Mask(s, i, st) == token + Mask(s, i + m.length, m.next)
    ensures m.keep ==> Visible(s, i) && m.length == 1
  {
    hide Mask, Next, Visible;
    m := Next(s, i, st);
    StepTo(s, i, st, m);
    token := if m.keep then s[i..i + m.length] else Blanked(s[i..i + m.length]);
    if m.keep {
      KeptIsVisible(s, i, st);
    }
  }

  /** A character that stays visible never opens a string or a comment. */
  predicate Visible(s: string, i: nat) {
    i < |s| && s[i] != '"' && !OpensComment(s, i)
  }

  predicate OpensComment(t: string, k: nat) {
    k + 1 < |t| && t[k] == '/' && (t[k + 1] == '/' || t[k + 1] == '*')
  }

  lemma OpenersAreTokens(s: string, i: nat)
    ensures OpensComment(s, i) <==> StartsWith(s, "//", i) || StartsWith(s, "/*", i)
  {
    if i + 2 <= |s| {
      assert s[i..i + 2] == [s[i], s[i + 1]];
    }
  }

  lemma KeptIsVisible(s: string, i: nat, st: Stack)
    requires i < |s| && Next(s, i, st).keep
    ensures Next(s, i, st).length == 1 && Visible(s, i) && IsCode(st)
  {
    OpenersAreTokens(s, i);
  }

  predicate SameOrBlank(shown: char, original: char) {
    (shown == original || (shown == ' ' && original != '\n')) && (shown == '\n' <==> original == '\n')
  }

  /** `shown` can stand at offset `i` of the source: no newline moves, nothing is invented. */
  predicate Aligned(shown: string, s: string, i: nat) {
    i + |shown| <= |s| && forall k :: 0 <= k < |shown| ==> SameOrBlank(shown[k], s[i + k])
  }

  lemma EmptyMask(s: string, i: nat, st: Stack)
    requires i >= |s|
    ensures Mask(s, i, st) == ""
  {
  }

  /** No character moves: newlines stay newlines, every other one is unchanged or a space. */
  lemma {:induction false} MaskKeepsOffsets(s: string, i: nat, st: Stack)
    requires i <= |s|
    ensures Aligned(Mask(s, i, st), s, i)
    decreases |s| - i
  {
    hide Mask;
    if i < |s| {
      var m, token := Unfold(s, i, st);
      MaskKeepsOffsets(s, i + m.length, m.next);
    }
  }

  predicate Plain(t: string) {
    forall k: nat :: k < |t| ==> Visible(t, k)
  }

  lemma PlainConcat(token: string, tail: string)
    requires Plain(tail)
    requires forall k :: 0 <= k < |token| ==> token[k] != '"'
    requires forall k :: 0 <= k < |token| && token[k] == '/' ==> k == |token| - 1
    requires token != [] && token[|token| - 1] == '/' && tail != [] ==> tail[0] != '/' && tail[0] != '*'
    ensures Plain(token + tail)
  {
    var t := token + tail;
    forall k: nat | k < |t|
      ensures Visible(t, k)
    {
      if k >= |token| {
        assert Visible(tail, k - |token|);
      }
    }
  }

  /** Nothing that stays visible can start a string or a comment again. */
  lemma {:induction false} MaskIsPlain(s: string, i: nat, st: Stack)
    ensures Plain(Mask(s, i, st))
    decreases |s| - i
  {
    hide Mask;
    if i >= |s| {
      EmptyMask(s, i, st);
    } else {
      var m, token := Unfold(s, i, st);
      var tail := Mask(s, i + m.length, m.next);
      MaskIsPlain(s, i + m.length, m.next);
      if m.keep && i + 1 < |s| {
        MaskKeepsOffsets(s, i + 1, m.next);
        assert SameOrBlank(tail[0], s[i + 1]);
      }
      PlainConcat(token, tail);
    }
  }

  lemma PlainStep(t: string, i: nat)
    requires i < |t| && Plain(t)
    ensures Next(t, i, FILE) == Move(1, true, FILE)
  {
    assert Visible(t, i);
    OpenersAreTokens(t, i);
    var quote := HashRunEnd(t, i);
    if quote < |t| {
      assert Visible(t, quote);
    }
  }

  /** Text without quotes and comment openers is already in its masked form. */
  lemma {:induction false} PlainIsUnchanged(t: string, i: nat)
    requires i <= |t| && Plain(t)
    ensures Mask(t, i, FILE) == t[i..]
    decreases |t| - i
  {
    if i < |t| {
      PlainStep(t, i);
      PlainIsUnchanged(t, i + 1);
      assert t[i..] == t[i..i + 1] + t[i + 1..];
    }
  }

  lemma MaskingIsIdempotent(s: string)
    ensures SwiftCode(SwiftCode(s)) == SwiftCode(s)
  {
    MaskIsPlain(s, 0, FILE);
    PlainIsUnchanged(SwiftCode(s), 0);
  }

  lemma LiteralOpens(s: string, i: nat, code: Stack)
    requires i + 1 < |s| && IsCode(code) && s[i] == '"' && s[i + 1] != '"'
    ensures Next(s, i, code) == Move(1, false, On(Text(0, false), code))
  {
    OpenersAreTokens(s, i);
    assert HashRunEnd(s, i) == i;
    if i + 3 <= |s| {
      assert s[i..i + 3][1] == s[i + 1];
    }
  }

  lemma LiteralMoves(s: string, i: nat, code: Stack)
    requires i < |s| && s[i] != '\\'
    ensures Next(s, i, On(Text(0, false), code))
         == Move(1, false, if s[i] == '"' then code else On(Text(0, false), code))
  {
    assert Hashes(0) == "" && Delimiter(false) + Hashes(0) == "\"" && "\\" + Hashes(0) == "\\";
    assert s[i..i + 1] == [s[i]];
  }

  /** A literal without quotes and escapes is blanked whole, delimiters included, and code goes on behind it. */
  lemma LiteralMask(s: string, i: nat, end: nat, code: Stack)
    requires i + 1 < end < |s| && IsCode(code) && s[i] == s[end] == '"'
    requires forall k :: i < k < end ==> s[k] != '"' && s[k] != '\\'
    ensures Mask(s, i, code) == Blanked(s[i..end + 1]) + Mask(s, end + 1, code)
  {
    hide Mask, Blanked, Next;
    LiteralOpens(s, i, code);
    LiteralRest(s, i + 1, end, code);
    OneMoreBlank(s, i, end, code, On(Text(0, false), code), code);
  }

  lemma {:induction false} LiteralRest(s: string, i: nat, end: nat, code: Stack)
    requires i <= end < |s| && s[end] == '"'
    requires forall k :: i <= k < end ==> s[k] != '"' && s[k] != '\\'
    ensures Mask(s, i, On(Text(0, false), code)) == Blanked(s[i..end + 1]) + Mask(s, end + 1, code)
    decreases end - i
  {
    hide Mask, Blanked, Next;
    var text := On(Text(0, false), code);
    LiteralMoves(s, i, code);
    if i == end {
      StepTo(s, i, text, Move(1, false, code));
    } else {
      LiteralRest(s, i + 1, end, code);
      OneMoreBlank(s, i, end, text, text, code);
    }
  }

  /** A blanked character in front of a blanked stretch. */
  lemma OneMoreBlank(s: string, i: nat, end: nat, st: Stack, next: Stack, code: Stack)
    requires i < end < |s| && Next(s, i, st) == Move(1, false, next)
    requires Mask(s, i + 1, next) == Blanked(s[i + 1..end + 1]) + Mask(s, end + 1, code)
    ensures Mask(s, i, st) == Blanked(s[i..end + 1]) + Mask(s, end + 1, code)
  {
    hide *;
    BlankedStretch(s, i, i + 1, end + 1);
    StepTo(s, i, st, Move(1, false, next));
    var a, b, rest := Blanked(s[i..i + 1]), Blanked(s[i + 1..end + 1]), Mask(s, end + 1, code);
    assert a + (b + rest) == (a + b) + rest;
  }

  // ----- The program -----

  function Clip(s: string, i: nat): nat {
    if i < |s| then i else |s|
  }

  /** Code at a newline, and a line comment at a newline, go on alike. */
  lemma NewlineEndsLine(s: string, end: nat, code: Stack)
    requires end < |s| && s[end] == '\n' && IsCode(code)
    ensures Mask(s, end, On(Line, code)) == Mask(s, end, code)
  {
    assert Next(s, end, code) == Move(1, true, code) by { OpenersAreTokens(s, end); }
    assert Blanked(s[end..end + 1]) == s[end..end + 1];
  }

  lemma LineStep(s: string, i: nat, code: Stack)
    requires i < |s| && s[i] != '\n'
    ensures Mask(s, i, On(Line, code)) == Blanked(s[i..i + 1]) + Mask(s, i + 1, On(Line, code))
  {
  }

  lemma BlankedStretch(s: string, i: nat, j: nat, end: nat)
    requires i <= j <= end <= |s|
    ensures Blanked(s[i..end]) == Blanked(s[i..j]) + Blanked(s[j..end])
  {
  }

  /** A line comment is one blank stretch; its newline is read by the code around it. */
  lemma {:induction false} LineCommentMask(s: string, i: nat, end: nat, code: Stack)
    requires i <= end <= |s| && IsCode(code)
    requires forall k :: i <= k < end ==> s[k] != '\n'
    requires end < |s| ==> s[end] == '\n'
    ensures Mask(s, i, On(Line, code)) == Blanked(s[i..end]) + Mask(s, end, code)
    decreases end - i
  {
    hide Mask, Blanked;
    if i < end {
      LineStep(s, i, code);
      LineCommentMask(s, i + 1, end, code);
      BlankedStretch(s, i, i + 1, end);
    } else if end < |s| {
      NewlineEndsLine(s, end, code);
    } else {
      EmptyMask(s, end, code);
      EmptyMask(s, end, On(Line, code));
    }
  }

  /**
   A run that started at `start` and has to produce `goal` has reached `index`: the buffer
   holds its output up to there and still the source after it, and `rest` is to come.
   */
  ghost predicate Reached(s: string, buffer: string, start: nat, goal: string, index: nat, rest: string) {
    && |buffer| == |s|
    && start <= |s|
    && start <= index <= |s| + 1
    && buffer[Clip(s, index)..] == s[Clip(s, index)..]
    && goal == buffer[start..Clip(s, index)] + rest
  }

  lemma RestIsSource(s: string, buffer: string, start: nat, goal: string, index: nat, rest: string)
    requires Reached(s, buffer, start, goal, index, rest) && index <= |s|
    ensures |buffer| == |s| && buffer[index..] == s[index..]
  {
  }

  /** An escape at the very end of the source leaves the index one past the end. */
  lemma OnePastTheEnd(s: string, buffer: string, start: nat, goal: string, st: Stack)
    requires Reached(s, buffer, start, goal, |s|, Mask(s, |s|, st))
    ensures Reached(s, buffer, start, goal, |s| + 1, Mask(s, |s| + 1, st))
  {
  }

  lemma StartReached(s: string, buffer: string, start: nat, goal: string)
    requires |buffer| == |s| && start <= |s| && buffer[start..] == s[start..]
    ensures Reached(s, buffer, start, goal, start, goal)
  {
  }

  lemma DropMore(a: string, b: string, i: nat, j: nat)
    requires i <= j <= |a| == |b| && a[i..] == b[i..]
    ensures a[j..] == b[j..] && a[i..j] == b[i..j]
  {
    assert a[j..] == a[i..][j - i..];
    assert b[j..] == b[i..][j - i..];
    assert a[i..j] == a[i..][..j - i];
    assert b[i..j] == b[i..][..j - i];
  }

  /** Leaving `index..end` as it is takes the run one stretch further. */
  lemma AdvanceKept(s: string, buffer: string, start: nat, goal: string,
                    index: nat, rest: string, end: nat, rest': string)
    requires Reached(s, buffer, start, goal, index, rest) && index <= end <= |s|
    requires rest == s[index..end] + rest'
    ensures Reached(s, buffer, start, goal, end, rest')
  {
    DropMore(buffer, s, index, end);
    assert buffer[start..end] == buffer[start..index] + buffer[index..end];
  }

  /** Blanking `index..end` takes the run one stretch further. */
  lemma AdvanceBlanked(s: string, before: string, after: string, start: nat, goal: string,
                       index: nat, rest: string, end: nat, rest': string)
    requires Reached(s, before, start, goal, index, rest) && index <= end <= |s|
    requires rest == Blanked(s[index..end]) + rest'
    requires after == before[..index] + Blanked(s[index..end]) + before[end..]
    ensures Reached(s, after, start, goal, end, rest')
    ensures after[..start] == before[..start]
  {
    DropMore(before, s, index, end);
    assert after[end..] == before[end..];
    assert after[start..end] == before[start..index] + Blanked(s[index..end]);
    assert after[..start] == before[..start];
  }

  /** What a nested scan did from `index` on extends the run it was called from. */
  lemma Extend(s: string, before: string, after: string, start: nat, goal: string,
               index: nat, rest: string, end: nat, rest': string)
    requires Reached(s, before, start, goal, index, rest) && index <= |s|
    requires Reached(s, after, index, rest, end, rest')
    requires after[..index] == before[..index]
    ensures Reached(s, after, start, goal, end, rest')
    ensures after[..start] == before[..start]
  {
    var c := Clip(s, end);
    assert after[start..c] == after[start..index] + after[index..c];
    assert after[start..index] == after[..index][start..];
    assert before[start..index] == before[..index][start..];
    assert after[..start] == after[..index][..start];
    assert before[..start] == before[..index][..start];
  }

  function CodeStack(interpolation: bool, parentheses: nat, below: Stack): Stack {
    On(if interpolation then Interpolation(parentheses) else TopLevel, below)
  }

  lemma HashRun(s: string, i: nat)
    requires i <= |s|
    ensures HashRunEnd(s, i) == if i < |s| && s[i] == '#' then HashRunEnd(s, i + 1) else i
  {
  }

  /** The moves of the automaton in terms of what the code scanner compares. */
  lemma CodeMoves(s: string, i: nat, st: Stack)
    requires i < |s| && IsCode(st)
    ensures StartsWith(s, "//", i) ==> Next(s, i, st) == Move(2, false, On(Line, st))
    ensures StartsWith(s, "/*", i) ==> Next(s, i, st) == Move(2, false, On(Block(1), st))
    ensures !StartsWith(s, "//", i) && !StartsWith(s, "/*", i) ==>
              var quote := HashRunEnd(s, i);
              if s[i] == '#' || s[i] == '"' then
                quote == |s| || s[quote] != '"' ==> Next(s, i, st) == Move(1, true, st)
              else if st.top.TopLevel? || (s[i] != '(' && s[i] != ')') then Next(s, i, st) == Move(1, true, st)
              else if s[i] == '(' then
                Next(s, i, st) == Move(1, true, CodeStack(true, st.top.open + 1, st.below))
              else if st.top.open <= 1 then Next(s, i, st) == Move(1, false, st.below)
              else Next(s, i, st) == Move(1, true, CodeStack(true, st.top.open - 1, st.below))
  {
    if i + 2 <= |s| {
      assert s[i..i + 2] == [s[i], s[i + 1]];
    }
  }

  lemma BlockMoves(s: string, i: nat, st: Stack)
    requires i < |s| && st.On? && st.top.Block? && st.top.depth >= 1
    ensures Next(s, i, st) ==
              if StartsWith(s, "/*", i) then Move(2, false, On(Block(st.top.depth + 1), st.below))
              else if StartsWith(s, "*/", i) then
                Move(2, false, if st.top.depth == 1 then st.below else On(Block(st.top.depth - 1), st.below))
              else Move(1, false, st)
  {
  }

  /** A line comment is one blank stretch for the code it interrupts. */
  lemma LineComment(s: string, i: nat, end: nat, st: Stack)
    requires i <= end <= |s| && IsCode(st) && StartsWith(s, "//", i)
    requires forall k :: i <= k < end ==> s[k] != '\n'
    requires end < |s| ==> s[end] == '\n'
    ensures i < end
    ensures Mask(s, i, st) == Blanked(s[i..end]) + Mask(s, end, st)
  {
    hide Mask, Next;
    assert s[i..i + 2] == "//";
    assert s[i] == '/' && s[i + 1] == '/';
    CodeMoves(s, i, st);
    StepTo(s, i, st, Move(2, false, On(Line, st)));
    LineCommentMask(s, i + 2, end, st);
    BlankedStretch(s, i, i + 2, end);
  }

  lemma KeepToken(s: string, buffer: string, start: nat, goal: string, i: nat, st: Stack, next: Stack)
    requires i < |s| && Next(s, i, st) == Move(1, true, next)
    requires Reached(s, buffer, start, goal, i, Mask(s, i, st))
    ensures Reached(s, buffer, start, goal, i + 1, Mask(s, i + 1, next))
  {
    hide Mask, Next;
    StepTo(s, i, st, Move(1, true, next));
    AdvanceKept(s, buffer, start, goal, i, Mask(s, i, st), i + 1, Mask(s, i + 1, next));
  }

  /** At the end of the source it no longer matters which contexts are open. */
  lemma Finished(s: string, buffer: string, start: nat, goal: string, i: nat, st: Stack, other: Stack)
    requires i >= |s| && Reached(s, buffer, start, goal, i, Mask(s, i, st))
    ensures Reached(s, buffer, start, goal, i, Mask(s, i, other))
  {
    EmptyMask(s, i, st);
    EmptyMask(s, i, other);
  }

  /** The moves of the automaton in terms of what the string scanner compares. */
  lemma TextMoves(s: string, i: nat, st: Stack, close: string, escape: string)
    requires i < |s| && st.On? && st.top.Text?
    requires close == Delimiter(st.top.triple) + Hashes(st.top.hashes)
    requires escape == "\\" + Hashes(st.top.hashes)
    ensures StartsWith(s, close, i) ==> Next(s, i, st) == Move(|close|, false, st.below)
    ensures !StartsWith(s, close, i) && StartsWith(s, escape, i) ==>
              var end := i + |escape|;
              Next(s, i, st) == if StartsWith(s, "(", end) then Move(|escape| + 1, false, On(Interpolation(1), st))
                                else Move(Clip(s, end + 1) - i, false, st)
    ensures !StartsWith(s, close, i) && !StartsWith(s, escape, i) ==> Next(s, i, st) == Move(1, false, st)
  {
  }

  lemma StringMove(s: string, i: nat, quote: nat, st: Stack, triple: bool)
    requires i < |s| && IsCode(st) && !OpensComment(s, i)
    requires HashRunEnd(s, i) == quote < |s| && s[quote] == '"'
    requires triple == StartsWith(s, Delimiter(true), quote)
    ensures Next(s, i, st)
         == Move(quote + |Delimiter(triple)| - i, false, On(Text(quote - i, triple), st))
    ensures s[i..quote] == Hashes(quote - i)
  {
    OpenersAreTokens(s, i);
  }

  class Scanner {
    const source: string
    const buffer: array<char>

    constructor (source: string)
      ensures this.source == source && fresh(buffer)
      ensures buffer[..] == source
    {
      this.source := source;
      this.buffer := new char[|source|](k requires 0 <= k < |source| => source[k]);
    }

    method Blank(start: nat, end: nat)
      requires buffer.Length == |source| && start <= end <= |source|
      modifies buffer
      ensures buffer[..] == old(buffer[..])[..start] + Blanked(source[start..end]) + old(buffer[..])[end..]
    {
      for k := start to end
        invariant forall j :: 0 <= j < start || k <= j < |source| ==> buffer[j] == old(buffer[j])
        invariant forall j :: start <= j < k ==> buffer[j] == if source[j] == '\n' then '\n' else ' '
      {
        buffer[k] := if source[k] == '\n' then '\n' else ' ';
      }
    }

    /** Blanks the token that the automaton blanks at `index`, and moves on to its end. */
    method BlankToken(index: nat, end: nat, ghost start: nat, ghost goal: string, ghost st: Stack, ghost next: Stack)
      requires buffer.Length == |source| && index < end <= |source|
      requires Next(source, index, st) == Move(end - index, false, next)
      requires Reached(source, buffer[..], start, goal, index, Mask(source, index, st))
      modifies buffer
      ensures Reached(source, buffer[..], start, goal, end, Mask(source, end, next))
      ensures buffer[..][..start] == old(buffer[..])[..start]
    {
      hide Mask, Next, Reached, Blanked;
      Blank(index, end);
      StepTo(source, index, st, Move(end - index, false, next));
      AdvanceBlanked(source, old(buffer[..]), buffer[..], start, goal,
                     index, Mask(source, index, st), end, Mask(source, end, next));
    }

    /** Scans a string literal whose hashes start at `start` and whose quote is at `quote`. */
    method ScanString(start: nat, quote: nat, ghost st: Stack) returns (index: nat)
      requires buffer.Length == |source| && start <= quote < |source|
      requires IsCode(st) && !OpensComment(source, start)
      requires HashRunEnd(source, start) == quote && source[quote] == '"'
      requires buffer[..][start..] == source[start..]
      modifies buffer
      ensures start < index <= |source| + 1
      ensures Reached(source, buffer[..], start, Mask(source, start, st), index, Mask(source, index, st))
      ensures buffer[..][..start] == old(buffer[..])[..start]
      decreases |source| + 1 - start, 0
    {
      hide Mask, Next, HashRunEnd, Reached, OpensComment, Blanked, StartsWith, Hashes, Delimiter, IsCode;
      var hashes := source[start..quote];
      var triple := StartsWith(source, Delimiter(true), quote);
      var delimiter := Delimiter(triple);
      var close := delimiter + hashes;
      var escape := "\\" + hashes;
      index := quote + |delimiter|;
      ghost var goal := Mask(source, start, st);
      ghost var text := On(Text(|hashes|, triple), st);
      StringMove(source, start, quote, st, triple);
      StartReached(source, buffer[..], start, goal);
      BlankToken(start, index, start, goal, st, text);
      while index < |source|
        invariant start < index <= |source| + 1
        invariant buffer.Length == |source|
        invariant Reached(source, buffer[..], start, goal, index, Mask(source, index, text))
        invariant buffer[..][..start] == old(buffer[..])[..start]
        decreases |source| + 1 - index
      {
        TextMoves(source, index, text, close, escape);
        if StartsWith(source, close, index) {
          BlankToken(index, index + |close|, start, goal, text, st);
          return index + |close|;
        }
        if StartsWith(source, escape, index) {
          var end := index + |escape|;
          if StartsWith(source, "(", end) {
            BlankToken(index, end + 1, start, goal, text, CodeStack(true, 1, text));
            index := ScanInterpolation(end + 1, start, goal, text);
          } else {
            BlankToken(index, if end < |source| then end + 1 else |source|, start, goal, text, text);
            if end == |source| {
              OnePastTheEnd(source, buffer[..], start, goal, text);
            }
            index := end + 1;
          }
        } else {
          BlankToken(index, index + 1, start, goal, text, text);
          index := index + 1;
        }
      }
    }

    /** Scans an interpolation that starts at `from`, inside the string scan begun at `start`. */
    method ScanInterpolation(from: nat, ghost start: nat, ghost goal: string, ghost text: Stack)
      returns (index: nat)
      requires buffer.Length == |source| && from <= |source|
      requires Reached(source, buffer[..], start, goal, from, Mask(source, from, CodeStack(true, 1, text)))
      modifies buffer
      ensures from <= index <= |source| + 1
      ensures Reached(source, buffer[..], start, goal, index, Mask(source, index, text))
      ensures buffer[..][..start] == old(buffer[..])[..start]
      decreases |source| + 1 - from, 2
    {
      hide Mask, Reached;
      ghost var before := buffer[..];
      ghost var rest := Mask(source, from, CodeStack(true, 1, text));
      RestIsSource(source, before, start, goal, from, rest);
      index := ScanCode(from, true, text);
      Extend(source, before, buffer[..], start, goal, from, rest, index, Mask(source, index, text));
    }

    /** Scans code: the file itself, or an interpolation up to its closing parenthesis. */
    method ScanCode(from: nat, interpolation: bool, ghost below: Stack) returns (index: nat)
      requires buffer.Length == |source| && from <= |source|
      requires buffer[..][from..] == source[from..]
      modifies buffer
      ensures from <= index <= |source| + 1
      ensures Reached(source, buffer[..], from,
                      Mask(source, from, CodeStack(interpolation, if interpolation then 1 else 0, below)),
                      index, Mask(source, index, below))
      ensures interpolation || index >= |source|
      ensures buffer[..][..from] == old(buffer[..])[..from]
      decreases |source| + 1 - from, 1
    {
      hide Mask, Next, HashRunEnd, Reached, Blanked, StartsWith, OpensComment;
      var parentheses: nat := if interpolation then 1 else 0;
      index := from;
      ghost var goal := Mask(source, from, CodeStack(interpolation, parentheses, below));
      StartReached(source, buffer[..], from, goal);
      while index < |source|
        invariant from <= index <= |source| + 1
        invariant buffer.Length == |source|
        invariant interpolation ==> parentheses >= 1
        invariant Reached(source, buffer[..], from, goal, index,
                          Mask(source, index, CodeStack(interpolation, parentheses, below)))
        invariant buffer[..][..from] == old(buffer[..])[..from]
        decreases |source| + 1 - index
      {
        ghost var st := CodeStack(interpolation, parentheses, below);
        ghost var before := buffer[..];
        if StartsWith(source, "//", index) {
          var end := index;
          while end < |source| && source[end] != '\n'
            invariant buffer[..] == before
            invariant index <= end <= |source|
            invariant forall k :: index <= k < end ==> source[k] != '\n'
          {
            end := end + 1;
          }
          LineComment(source, index, end, st);
          Blank(index, end);
          AdvanceBlanked(source, before, buffer[..], from, goal, index, Mask(source, index, st),
                         end, Mask(source, end, st));
          index := end;
        } else if StartsWith(source, "/*", index) {
          var end := BlockEnd(index, st);
          Blank(index, end);
          AdvanceBlanked(source, before, buffer[..], from, goal, index, Mask(source, index, st),
                         end, Mask(source, end, st));
          index := end;
        } else if source[index] == '#' || source[index] == '"' {
          var quote := index;
          while quote < |source| && source[quote] == '#'
            invariant buffer[..] == before
            invariant index <= quote <= |source|
            invariant HashRunEnd(source, index) == HashRunEnd(source, quote)
          {
            HashRun(source, quote);
            quote := quote + 1;
          }
          HashRun(source, quote);
          CodeMoves(source, index, st);
          if quote < |source| && source[quote] == '"' {
            RestIsSource(source, before, from, goal, index, Mask(source, index, st));
            OpenersAreTokens(source, index);
            var end := ScanString(index, quote, st);
            Extend(source, before, buffer[..], from, goal, index, Mask(source, index, st), end, Mask(source, end, st));
            index := end;
          } else {
            KeepToken(source, before, from, goal, index, st, st);
            index := index + 1;
          }
        } else {
          CodeMoves(source, index, st);
          if interpolation {
            if source[index] == '(' {
              parentheses := parentheses + 1;
            } else if source[index] == ')' {
              parentheses := parentheses - 1;
              if parentheses == 0 {
                BlankToken(index, index + 1, from, goal, st, below);
                return index + 1;
              }
            }
          }
          KeepToken(source, before, from, goal, index, st, CodeStack(interpolation, parentheses, below));
          index := index + 1;
        }
      }
      Finished(source, buffer[..], from, goal, index, CodeStack(interpolation, parentheses, below), below);
    }

    /** Finds the end of a nested block comment: its last closer, or the end of the file. */
    method BlockEnd(index: nat, ghost st: Stack) returns (end: nat)
      requires IsCode(st) && StartsWith(source, "/*", index)
      ensures index < end <= |source|
      ensures Mask(source, index, st) == Blanked(source[index..end]) + Mask(source, end, st)
    {
      hide Mask, Next, Blanked, StartsWith;
      ghost var goal := Mask(source, index, st);
      var depth: nat := 1;
      end := index + 2;
      CodeMoves(source, index, st);
      StepTo(source, index, st, Move(2, false, On(Block(1), st)));
      while end < |source| && depth != 0
        invariant index < end <= |source|
        invariant goal == Blanked(source[index..end])
                        + Mask(source, end, if depth == 0 then st else On(Block(depth), st))
        decreases |source| - end
      {
        ghost var from, inside := end, On(Block(depth), st);
        BlockMoves(source, end, inside);
        if StartsWith(source, "/*", end) {
          depth := depth + 1;
          end := end + 2;
        } else if StartsWith(source, "*/", end) {
          depth := depth - 1;
          end := end + 2;
        } else {
          end := end + 1;
        }
        StepTo(source, from, inside, Move(end - from, false, if depth == 0 then st else On(Block(depth), st)));
        BlankedStretch(source, index, from, end);
      }
      if depth != 0 {
        EmptyMask(source, end, On(Block(depth), st));
        EmptyMask(source, end, st);
      }
    }
  }

  /** The in-place scanners compute exactly what the automaton says. */
  method Masked(source: string) returns (masked: string)
    ensures masked == SwiftCode(source)
  {
    var scanner := new Scanner(source);
    var end := scanner.ScanCode(0, false, Empty);
    EmptyMask(source, end, Empty);
    masked := scanner.buffer[..];
  }
}
