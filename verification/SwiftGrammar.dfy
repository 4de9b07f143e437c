/**
 What the masker does in terms of the source's grammar: code is kept, comments and literal text are
 blanked, and interpolated code inside a literal is kept again, to any depth.
 */
module SwiftGrammar {
  import opened SwiftMasker

  // ----- Syntax trees -----

  datatype Code =
    | NoCode
    | Plain(rest: Code)                                     // one character of code
    | Group(inner: Code, rest: Code)                        // parentheses inside an interpolation
    | LineComment(length: nat, rest: Code)
    | BlockComment(body: Remark, rest: Code)
    | Literal(hashes: nat, triple: bool, text: Content, rest: Code)

  /** The inside of a block comment. */
  datatype Remark = NoRemark | Letter(rest: Remark) | Nested(inner: Remark, rest: Remark)

  /** The inside of a literal, with its closing delimiter. */
  datatype Content =
    | Close
    | Symbol(rest: Content)                                 // one character of text
    | Escaped(rest: Content)                                // an escape and the character behind it
    | Interpolated(code: Code, rest: Content)

  // ----- How much of the source a tree spells -----

  function Quotes(triple: bool): nat {
    if triple then 3 else 1
  }

  function CodeSize(c: Code): nat {
    match c
    case NoCode => 0
    case Plain(rest) => 1 + CodeSize(rest)
    case Group(inner, rest) => 1 + CodeSize(inner) + 1 + CodeSize(rest)
    case LineComment(length, rest) => 2 + length + CodeSize(rest)
    case BlockComment(body, rest) => 2 + RemarkSize(body) + 2 + CodeSize(rest)
    case Literal(hashes, triple, text, rest) =>
      hashes + Quotes(triple) + ContentSize(text, hashes, triple) + CodeSize(rest)
  }

  function RemarkSize(r: Remark): nat {
    match r
    case NoRemark => 0
    case Letter(rest) => 1 + RemarkSize(rest)
    case Nested(inner, rest) => 2 + RemarkSize(inner) + 2 + RemarkSize(rest)
  }

  function ContentSize(t: Content, hashes: nat, triple: bool): nat {
    match t
    case Close => Quotes(triple) + hashes
    case Symbol(rest) => 1 + ContentSize(rest, hashes, triple)
    case Escaped(rest) => 1 + hashes + 1 + ContentSize(rest, hashes, triple)
    case Interpolated(code, rest) => 1 + hashes + 1 + CodeSize(code) + 1 + ContentSize(rest, hashes, triple)
  }

  // ----- The characters a tree stands for -----

  predicate Is(s: string, i: nat, c: char) {
    i < |s| && s[i] == c
  }

  predicate Pair(s: string, i: nat, a: char, b: char) {
    Is(s, i, a) && Is(s, i + 1, b)
  }

  predicate HashesAt(s: string, i: nat, n: nat) {
    i + n <= |s| && forall k :: i <= k < i + n ==> s[k] == '#'
  }

  predicate QuotesAt(s: string, i: nat, triple: bool) {
    Is(s, i, '"') && (triple ==> Is(s, i + 1, '"') && Is(s, i + 2, '"'))
  }

  predicate Closes(s: string, i: nat, hashes: nat, triple: bool) {
    QuotesAt(s, i, triple) && HashesAt(s, i + Quotes(triple), hashes)
  }

  predicate Escapes(s: string, i: nat, hashes: nat) {
    Is(s, i, '\\') && HashesAt(s, i + 1, hashes)
  }

  /** A literal begins at `i`, with any number of hashes. */
  ghost predicate Begins(s: string, i: nat) {
    exists n: nat :: HashesAt(s, i, n) && QuotesAt(s, i + n, false)
  }

  ghost predicate IsPlain(s: string, i: nat, inside: bool) {
    && i < |s| && !Pair(s, i, '/', '/') && !Pair(s, i, '/', '*') && !Begins(s, i)
    && (inside ==> s[i] != '(' && s[i] != ')')
  }

  /** The tree spells `s` from `i` on; `inside` an interpolation parentheses come in pairs. */
  ghost predicate SpellsCode(s: string, i: nat, c: Code, inside: bool)
    decreases c
  {
    match c
    case NoCode => i <= |s|
    case Plain(rest) => IsPlain(s, i, inside) && SpellsCode(s, i + 1, rest, inside)
    case Group(inner, rest) =>
      && inside && Is(s, i, '(') && SpellsCode(s, i + 1, inner, true)
      && Is(s, i + 1 + CodeSize(inner), ')') && SpellsCode(s, i + 2 + CodeSize(inner), rest, true)
    case LineComment(length, rest) =>
      && Pair(s, i, '/', '/') && i + 2 + length <= |s|
      && (forall k :: i + 2 <= k < i + 2 + length ==> s[k] != '\n')
      && (i + 2 + length < |s| ==> s[i + 2 + length] == '\n')
      && SpellsCode(s, i + 2 + length, rest, inside)
    case BlockComment(body, rest) =>
      && Pair(s, i, '/', '*') && SpellsRemark(s, i + 2, body) && Pair(s, i + 2 + RemarkSize(body), '*', '/')
      && SpellsCode(s, i + (4 + RemarkSize(body)), rest, inside)
    case Literal(hashes, triple, text, rest) =>
      && HashesAt(s, i, hashes) && QuotesAt(s, i + hashes, false)
      && (triple <==> QuotesAt(s, i + hashes, true))
      && SpellsContent(s, i + (hashes + Quotes(triple)), text, hashes, triple)
      && SpellsCode(s, i + (hashes + Quotes(triple)) + ContentSize(text, hashes, triple), rest, inside)
  }

  ghost predicate SpellsRemark(s: string, i: nat, r: Remark)
    decreases r
  {
    match r
    case NoRemark => i <= |s|
    case Letter(rest) => i < |s| && !Pair(s, i, '/', '*') && !Pair(s, i, '*', '/') && SpellsRemark(s, i + 1, rest)
    case Nested(inner, rest) =>
      && Pair(s, i, '/', '*') && SpellsRemark(s, i + 2, inner) && Pair(s, i + 2 + RemarkSize(inner), '*', '/')
      && SpellsRemark(s, i + 4 + RemarkSize(inner), rest)
  }

  ghost predicate SpellsContent(s: string, i: nat, t: Content, hashes: nat, triple: bool)
    decreases t
  {
    match t
    case Close => Closes(s, i, hashes, triple)
    case Symbol(rest) =>
      && i < |s| && !Closes(s, i, hashes, triple) && !Escapes(s, i, hashes)
      && SpellsContent(s, i + 1, rest, hashes, triple)
    case Escaped(rest) =>
      && Escapes(s, i, hashes) && i + hashes + 1 < |s| && s[i + hashes + 1] != '('
      && SpellsContent(s, i + (hashes + 2), rest, hashes, triple)
    case Interpolated(code, rest) =>
      && Escapes(s, i, hashes) && Is(s, i + hashes + 1, '(')
      && SpellsCode(s, i + (hashes + 2), code, true) && Is(s, i + (hashes + 2) + CodeSize(code), ')')
      && SpellsContent(s, i + (hashes + 2) + CodeSize(code) + 1, rest, hashes, triple)
  }

  // ----- What stays visible -----

  function Kept(s: string, i: nat, n: nat): string {
    if i + n <= |s| then s[i..i + n] else ""
  }

  function Hidden(s: string, i: nat, n: nat): string {
    Blanked(Kept(s, i, n))
  }

  function ShownCode(s: string, i: nat, c: Code): string
    decreases c
  {
    match c
    case NoCode => ""
    case Plain(rest) => Kept(s, i, 1) + ShownCode(s, i + 1, rest)
    case Group(inner, rest) =>
      var n := CodeSize(inner);
      Kept(s, i, 1) + ShownCode(s, i + 1, inner) + Kept(s, i + 1 + n, 1) + ShownCode(s, i + 2 + n, rest)
    case LineComment(length, rest) => Hidden(s, i, 2 + length) + ShownCode(s, i + 2 + length, rest)
    case BlockComment(body, rest) =>
      var n := 4 + RemarkSize(body);
      Hidden(s, i, n) + ShownCode(s, i + n, rest)
    case Literal(hashes, triple, text, rest) =>
      var open, n := hashes + Quotes(triple), ContentSize(text, hashes, triple);
      Hidden(s, i, open) + ShownContent(s, i + open, text, hashes, triple) + ShownCode(s, i + open + n, rest)
  }

  function ShownContent(s: string, i: nat, t: Content, hashes: nat, triple: bool): string
    decreases t
  {
    match t
    case Close => Hidden(s, i, Quotes(triple) + hashes)
    case Symbol(rest) => Hidden(s, i, 1) + ShownContent(s, i + 1, rest, hashes, triple)
    case Escaped(rest) => Hidden(s, i, hashes + 2) + ShownContent(s, i + (hashes + 2), rest, hashes, triple)
    case Interpolated(code, rest) =>
      var length, n := hashes + 2, CodeSize(code);
      Hidden(s, i, length) + ShownCode(s, i + length, code)
      + Hidden(s, i + length + n, 1) + ShownContent(s, i + length + n + 1, rest, hashes, triple)
  }

  // ----- Tokens of the automaton -----

  lemma PairStarts(s: string, i: nat)
    ensures Pair(s, i, '/', '/') <==> StartsWith(s, "//", i)
    ensures Pair(s, i, '/', '*') <==> StartsWith(s, "/*", i)
    ensures Pair(s, i, '*', '/') <==> StartsWith(s, "*/", i)
  {
    if i + 2 <= |s| {
      assert s[i..i + 2] == [s[i], s[i + 1]];
    }
  }

  lemma ParenthesisStarts(s: string, i: nat)
    ensures Is(s, i, '(') <==> StartsWith(s, "(", i)
  {
    if i + 1 <= |s| {
      assert s[i..i + 1] == [s[i]];
    }
  }

  lemma HashesStart(s: string, i: nat, n: nat)
    ensures HashesAt(s, i, n) <==> StartsWith(s, Hashes(n), i)
  {
    if i + n <= |s| {
      assert forall k :: i <= k < i + n ==> s[k] == s[i..i + n][k - i];
      if HashesAt(s, i, n) {
        assert s[i..i + n] == Hashes(n);
      }
    }
  }

  lemma QuotesStart(s: string, i: nat, triple: bool)
    ensures QuotesAt(s, i, triple) <==> StartsWith(s, Delimiter(triple), i)
    ensures |Delimiter(triple)| == Quotes(triple)
  {
    if i + 1 <= |s| {
      assert s[i..i + 1] == [s[i]];
    }
    if i + 3 <= |s| {
      assert s[i..i + 3] == [s[i], s[i + 1], s[i + 2]];
    }
  }

  lemma StartsBoth(s: string, i: nat, a: string, b: string)
    ensures StartsWith(s, a + b, i) <==> StartsWith(s, a, i) && StartsWith(s, b, i + |a|)
  {
    var m, n := i + |a|, i + |a| + |b|;
    if n <= |s| {
      assert s[i..n] == s[i..m] + s[m..n];
      assert (a + b)[..|a|] == a && (a + b)[|a|..] == b;
      assert s[i..n][..|a|] == s[i..m] && s[i..n][|a|..] == s[m..n];
    }
  }

  lemma ClosesStarts(s: string, i: nat, hashes: nat, triple: bool)
    ensures Closes(s, i, hashes, triple) <==> StartsWith(s, Delimiter(triple) + Hashes(hashes), i)
  {
    QuotesStart(s, i, triple);
    hide StartsWith, Delimiter, Hashes, HashesAt, QuotesAt;
    StartsBoth(s, i, Delimiter(triple), Hashes(hashes));
    HashesStart(s, i + Quotes(triple), hashes);
  }

  lemma EscapesStarts(s: string, i: nat, hashes: nat)
    ensures Escapes(s, i, hashes) <==> StartsWith(s, "\\" + Hashes(hashes), i)
  {
    assert Is(s, i, '\\') <==> StartsWith(s, "\\", i) by {
      if i + 1 <= |s| {
        assert s[i..i + 1] == [s[i]];
      }
    }
    hide StartsWith, Hashes, HashesAt;
    StartsBoth(s, i, "\\", Hashes(hashes));
    HashesStart(s, i + 1, hashes);
  }

  lemma {:induction false} RunEnds(s: string, i: nat, n: nat)
    requires HashesAt(s, i, n) && (i + n < |s| ==> s[i + n] != '#')
    ensures HashRunEnd(s, i) == i + n
    decreases n
  {
    if n > 0 {
      RunEnds(s, i + 1, n - 1);
    }
  }

  // ----- Moves of the automaton -----

  lemma PlainMove(s: string, i: nat, inside: bool, st: Stack)
    requires IsPlain(s, i, inside) && st.On? && IsCode(st) && (inside <==> st.top.Interpolation?)
    ensures Next(s, i, st) == Move(1, true, st)
  {
    PairStarts(s, i);
    NoBegin(s, i);
  }

  lemma NoBegin(s: string, i: nat)
    requires i < |s| && !Begins(s, i)
    ensures s[i] != '"' && (s[i] == '#' && HashRunEnd(s, i) < |s| ==> s[HashRunEnd(s, i)] != '"')
  {
    var quote := HashRunEnd(s, i);
    assert HashesAt(s, i, quote - i);
    assert !QuotesAt(s, i + (quote - i), false);
    assert HashesAt(s, i, 0);
    assert !QuotesAt(s, i + 0, false);
  }

  lemma NoComment(s: string, i: nat)
    requires i < |s| && s[i] != '/'
    ensures !StartsWith(s, "//", i) && !StartsWith(s, "/*", i)
  {
    PairStarts(s, i);
  }

  lemma OpenMove(s: string, i: nat, open: nat, below: Stack)
    requires Is(s, i, '(')
    ensures Next(s, i, On(Interpolation(open), below)) == Move(1, true, On(Interpolation(open + 1), below))
  {
    NoComment(s, i);
  }

  lemma CloseMove(s: string, i: nat, open: nat, below: Stack)
    requires Is(s, i, ')') && open >= 1
    ensures Next(s, i, On(Interpolation(open), below)) ==
              if open == 1 then Move(1, false, below) else Move(1, true, On(Interpolation(open - 1), below))
  {
    NoComment(s, i);
  }

  lemma LiteralMove(s: string, i: nat, hashes: nat, triple: bool, st: Stack)
    requires HashesAt(s, i, hashes) && QuotesAt(s, i + hashes, false) && (triple <==> QuotesAt(s, i + hashes, true))
    requires IsCode(st)
    ensures i < |s| && i + (hashes + Quotes(triple)) <= |s|
    ensures Next(s, i, st) == Move(hashes + Quotes(triple), false, On(Text(hashes, triple), st))
  {
    NoComment(s, i);
    RunEnds(s, i, hashes);
    QuotesStart(s, i + hashes, true);
    QuotesStart(s, i + hashes, false);
  }

  lemma TextMoves(s: string, i: nat, hashes: nat, triple: bool, st: Stack)
    requires i < |s|
    ensures
      var text := On(Text(hashes, triple), st);
      if Closes(s, i, hashes, triple) then Next(s, i, text) == Move(Quotes(triple) + hashes, false, st)
      else if Escapes(s, i, hashes) then
        if Is(s, i + hashes + 1, '(') then
          Next(s, i, text) == Move(hashes + 2, false, On(Interpolation(1), text))
        else i + hashes + 1 < |s| ==> Next(s, i, text) == Move(hashes + 2, false, text)
      else Next(s, i, text) == Move(1, false, text)
  {
    ClosesStarts(s, i, hashes, triple);
    QuotesStart(s, i, triple);
    EscapesStarts(s, i, hashes);
    ParenthesisStarts(s, i + hashes + 1);
  }

  lemma NotBoth(s: string, i: nat, hashes: nat, triple: bool)
    requires Escapes(s, i, hashes)
    ensures !Closes(s, i, hashes, triple)
  {
  }

  // ----- Trees are masked as they read -----

  /** From `i` on the automaton shows `shown` for the next `n` characters, and goes on with stack `next`. */
  ghost predicate Reads(s: string, i: nat, st: Stack, n: nat, shown: string, next: Stack) {
    i + n <= |s| && Mask(s, i, st) == shown + Mask(s, i + n, next)
  }

  lemma ReadsNothing(s: string, i: nat, st: Stack)
    requires i <= |s|
    ensures Reads(s, i, st, 0, "", st)
  {
  }

  lemma ReadsMove(s: string, i: nat, st: Stack, m: Move)
    requires i < |s| && Next(s, i, st) == m && i + m.length <= |s|
    ensures Reads(s, i, st, m.length, if m.keep then Kept(s, i, m.length) else Hidden(s, i, m.length), m.next)
  {
    StepTo(s, i, st, m);
  }

  lemma Then(s: string, i: nat, st: Stack, n: nat, a: string, mid: Stack, m: nat, b: string, next: Stack)
    requires Reads(s, i, st, n, a, mid) && Reads(s, i + n, mid, m, b, next)
    ensures Reads(s, i, st, n + m, a + b, next)
  {
    hide Mask;
    var rest := Mask(s, i + n + m, next);
    assert a + (b + rest) == (a + b) + rest;
  }

  lemma ThenTwo(s: string, i: nat, st: Stack, n: nat, a: string, x: Stack, m: nat, b: string, y: Stack,
                k: nat, c: string, next: Stack)
    requires Reads(s, i, st, n, a, x) && Reads(s, i + n, x, m, b, y) && Reads(s, i + n + m, y, k, c, next)
    ensures Reads(s, i, st, n + m + k, a + b + c, next)
  {
    hide *;
    Then(s, i, st, n, a, x, m, b, y);
    Then(s, i, st, n + m, a + b, y, k, c, next);
  }

  /** Two blanked stretches are one. */
  lemma ThenHidden(s: string, i: nat, st: Stack, n: nat, mid: Stack, m: nat, next: Stack)
    requires Reads(s, i, st, n, Hidden(s, i, n), mid) && Reads(s, i + n, mid, m, Hidden(s, i + n, m), next)
    ensures Reads(s, i, st, n + m, Hidden(s, i, n + m), next)
  {
    hide Mask, Blanked;
    Then(s, i, st, n, Hidden(s, i, n), mid, m, Hidden(s, i + n, m), next);
    BlankedStretch(s, i, i + n, i + n + m);
  }

  lemma NothingHidden(s: string, i: nat)
    ensures Hidden(s, i, 0) == ""
  {
  }

  lemma OpenBlock(s: string, i: nat, depth: nat, st: Stack)
    requires Pair(s, i, '/', '*')
    ensures i + 2 <= |s| && Next(s, i, On(Block(depth), st)) == Move(2, false, On(Block(depth + 1), st))
  {
    PairStarts(s, i);
  }

  lemma CloseBlock(s: string, i: nat, depth: nat, st: Stack)
    requires Pair(s, i, '*', '/') && depth >= 1
    ensures i + 2 <= |s|
    ensures Next(s, i, On(Block(depth), st)) == Move(2, false, if depth == 1 then st else On(Block(depth - 1), st))
  {
    PairStarts(s, i);
  }

  lemma LetterMove(s: string, i: nat, depth: nat, st: Stack)
    requires i < |s| && !Pair(s, i, '/', '*') && !Pair(s, i, '*', '/')
    ensures Next(s, i, On(Block(depth), st)) == Move(1, false, On(Block(depth), st))
  {
    PairStarts(s, i);
  }

  /** Nested comments, to any depth. */
  lemma {:induction false} RemarkMask(s: string, i: nat, r: Remark, depth: nat, st: Stack)
    requires SpellsRemark(s, i, r) && depth >= 1
    ensures Reads(s, i, On(Block(depth), st), RemarkSize(r), Hidden(s, i, RemarkSize(r)), On(Block(depth), st))
    decreases r
  {
    hide Mask, Next, Hidden, Reads, Pair;
    match r
    case NoRemark =>
      NothingHidden(s, i);
      ReadsNothing(s, i, On(Block(depth), st));
    case Letter(rest) =>
      RemarkMask(s, i + 1, rest, depth, st);
      LetterReads(s, i, depth, st, RemarkSize(rest));
    case Nested(inner, rest) =>
      var n := RemarkSize(inner);
      RemarkMask(s, i + 2, inner, depth + 1, st);
      RemarkMask(s, i + 4 + n, rest, depth, st);
      NestedReads(s, i, depth, st, n, RemarkSize(rest));
  }

  lemma LetterReads(s: string, i: nat, depth: nat, st: Stack, n: nat)
    requires i < |s| && !Pair(s, i, '/', '*') && !Pair(s, i, '*', '/')
    requires Reads(s, i + 1, On(Block(depth), st), n, Hidden(s, i + 1, n), On(Block(depth), st))
    ensures Reads(s, i, On(Block(depth), st), 1 + n, Hidden(s, i, 1 + n), On(Block(depth), st))
  {
    hide *;
    var here := On(Block(depth), st);
    LetterMove(s, i, depth, st);
    ReadsMove(s, i, here, Move(1, false, here));
    ThenHidden(s, i, here, 1, here, n, here);
  }

  lemma NestedReads(s: string, i: nat, depth: nat, st: Stack, n: nat, m: nat)
    requires depth >= 1 && Pair(s, i, '/', '*') && Pair(s, i + 2 + n, '*', '/')
    requires Reads(s, i + 2, On(Block(depth + 1), st), n, Hidden(s, i + 2, n), On(Block(depth + 1), st))
    requires Reads(s, i + 4 + n, On(Block(depth), st), m, Hidden(s, i + 4 + n, m), On(Block(depth), st))
    ensures Reads(s, i, On(Block(depth), st), 4 + n + m, Hidden(s, i, 4 + n + m), On(Block(depth), st))
  {
    hide *;
    var here, deeper := On(Block(depth), st), On(Block(depth + 1), st);
    OpenBlock(s, i, depth, st);
    CloseBlock(s, i + 2 + n, depth + 1, st);
    ReadsMove(s, i, here, Move(2, false, deeper));
    ThenHidden(s, i, here, 2, deeper, n, deeper);
    ReadsMove(s, i + 2 + n, deeper, Move(2, false, here));
    ThenHidden(s, i, here, 2 + n, deeper, 2, here);
    ThenHidden(s, i, here, 4 + n, here, m, here);
  }

  lemma BlockMask(s: string, i: nat, body: Remark, st: Stack)
    requires Pair(s, i, '/', '*') && SpellsRemark(s, i + 2, body) && Pair(s, i + 2 + RemarkSize(body), '*', '/')
    requires IsCode(st)
    ensures Reads(s, i, st, 4 + RemarkSize(body), Hidden(s, i, 4 + RemarkSize(body)), st)
  {
    hide *;
    var block, n := On(Block(1), st), RemarkSize(body);
    CommentOpens(s, i, st);
    ReadsMove(s, i, st, Move(2, false, block));
    RemarkMask(s, i + 2, body, 1, st);
    ThenHidden(s, i, st, 2, block, n, block);
    CloseBlock(s, i + 2 + n, 1, st);
    ReadsMove(s, i + 2 + n, block, Move(2, false, st));
    ThenHidden(s, i, st, 2 + n, block, 2, st);
  }

  lemma CommentOpens(s: string, i: nat, st: Stack)
    requires Pair(s, i, '/', '*') && IsCode(st)
    ensures i + 2 <= |s| && Next(s, i, st) == Move(2, false, On(Block(1), st))
  {
    PairStarts(s, i);
    CodeMoves(s, i, st);
  }

  lemma CommentMask(s: string, i: nat, length: nat, st: Stack)
    requires IsCode(st) && Pair(s, i, '/', '/') && i + 2 + length <= |s|
    requires forall k :: i + 2 <= k < i + 2 + length ==> s[k] != '\n'
    requires i + 2 + length < |s| ==> s[i + 2 + length] == '\n'
    ensures Reads(s, i, st, 2 + length, Hidden(s, i, 2 + length), st)
  {
    hide Mask, Blanked, Next;
    PairStarts(s, i);
    CodeMoves(s, i, st);
    ReadsMove(s, i, st, Move(2, false, On(Line, st)));
    LineCommentMask(s, i + 2, i + 2 + length, st);
    ThenHidden(s, i, st, 2, On(Line, st), length, st);
  }

  lemma PlainReads(s: string, i: nat, st: Stack, n: nat, a: string)
    requires st.On? && IsCode(st) && i < |s| && IsPlain(s, i, st.top.Interpolation?) && Reads(s, i + 1, st, n, a, st)
    ensures Reads(s, i, st, 1 + n, Kept(s, i, 1) + a, st)
  {
    hide *;
    PlainMove(s, i, st.top.Interpolation?, st);
    ReadsMove(s, i, st, Move(1, true, st));
    Then(s, i, st, 1, Kept(s, i, 1), st, n, a, st);
  }

  lemma GroupReads(s: string, i: nat, open: nat, below: Stack, n: nat, a: string, m: nat, b: string)
    requires Is(s, i, '(') && Is(s, i + 1 + n, ')') && open >= 1
    requires Reads(s, i + 1, On(Interpolation(open + 1), below), n, a, On(Interpolation(open + 1), below))
    requires Reads(s, i + 2 + n, On(Interpolation(open), below), m, b, On(Interpolation(open), below))
    ensures Reads(s, i, On(Interpolation(open), below), 2 + n + m,
                  Kept(s, i, 1) + a + Kept(s, i + 1 + n, 1) + b, On(Interpolation(open), below))
  {
    hide Mask, Next, Kept, Reads;
    var st, deeper, close := On(Interpolation(open), below), On(Interpolation(open + 1), below), i + 1 + n;
    OpenMove(s, i, open, below);
    CloseMove(s, close, open + 1, below);
    ReadsMove(s, i, st, Move(1, true, deeper));
    Then(s, i, st, 1, Kept(s, i, 1), deeper, n, a, deeper);
    ReadsMove(s, close, deeper, Move(1, true, st));
    Then(s, i, st, 1 + n, Kept(s, i, 1) + a, deeper, 1, Kept(s, close, 1), st);
    Then(s, i, st, 2 + n, Kept(s, i, 1) + a + Kept(s, close, 1), st, m, b, st);
  }

  lemma LiteralReads(s: string, i: nat, hashes: nat, triple: bool, st: Stack, n: nat, a: string, m: nat, b: string)
    requires HashesAt(s, i, hashes) && QuotesAt(s, i + hashes, false) && (triple <==> QuotesAt(s, i + hashes, true))
    requires IsCode(st) && Reads(s, i + (hashes + Quotes(triple)), On(Text(hashes, triple), st), n, a, st)
    requires Reads(s, i + (hashes + Quotes(triple)) + n, st, m, b, st)
    ensures
      var open := hashes + Quotes(triple);
      Reads(s, i, st, open + n + m, Hidden(s, i, open) + a + b, st)
  {
    hide *;
    LiteralMove(s, i, hashes, triple, st);
    OpenReads(s, i, st, hashes + Quotes(triple), On(Text(hashes, triple), st), n, a, m, b);
  }

  lemma OpenReads(s: string, i: nat, st: Stack, open: nat, inside: Stack, n: nat, a: string, m: nat, b: string)
    requires i < |s| && i + open <= |s| && Next(s, i, st) == Move(open, false, inside)
    requires Reads(s, i + open, inside, n, a, st) && Reads(s, i + open + n, st, m, b, st)
    ensures Reads(s, i, st, open + n + m, Hidden(s, i, open) + a + b, st)
  {
    hide *;
    ReadsMove(s, i, st, Move(open, false, inside));
    ThenTwo(s, i, st, open, Hidden(s, i, open), inside, n, a, st, m, b, st);
  }

  lemma CodeStep(s: string, i: nat, c: Code, inside: bool)
    requires SpellsCode(s, i, c, inside)
    ensures c.NoCode? ==> i <= |s|
    ensures c.Plain? ==> i < |s| && IsPlain(s, i, inside) && SpellsCode(s, i + 1, c.rest, inside)
    ensures c.Group? ==>
              && inside && Is(s, i, '(') && SpellsCode(s, i + 1, c.inner, true)
              && Is(s, i + 1 + CodeSize(c.inner), ')') && SpellsCode(s, i + 2 + CodeSize(c.inner), c.rest, true)
    ensures c.LineComment? ==>
              && Pair(s, i, '/', '/') && i + 2 + c.length <= |s|
              && (forall k :: i + 2 <= k < i + 2 + c.length ==> s[k] != '\n')
              && (i + 2 + c.length < |s| ==> s[i + 2 + c.length] == '\n')
              && SpellsCode(s, i + 2 + c.length, c.rest, inside)
    ensures c.BlockComment? ==>
              && Pair(s, i, '/', '*') && SpellsRemark(s, i + 2, c.body)
              && Pair(s, i + 2 + RemarkSize(c.body), '*', '/')
              && SpellsCode(s, i + (4 + RemarkSize(c.body)), c.rest, inside)
    ensures c.Literal? ==>
              var open, n := c.hashes + Quotes(c.triple), ContentSize(c.text, c.hashes, c.triple);
              && HashesAt(s, i, c.hashes) && QuotesAt(s, i + c.hashes, false)
              && (c.triple <==> QuotesAt(s, i + c.hashes, true))
              && SpellsContent(s, i + open, c.text, c.hashes, c.triple) && SpellsCode(s, i + open + n, c.rest, inside)
  {
  }

  lemma InterpolationIsCode()
    ensures forall open, below :: IsCode(On(Interpolation(open), below))
  {
  }

  lemma CodeShown(s: string, i: nat, c: Code)
    ensures c.NoCode? ==> CodeSize(c) == 0 && ShownCode(s, i, c) == ""
    ensures c.Plain? ==>
              CodeSize(c) == 1 + CodeSize(c.rest) && ShownCode(s, i, c) == Kept(s, i, 1) + ShownCode(s, i + 1, c.rest)
    ensures c.Group? ==>
              var n := CodeSize(c.inner);
              && CodeSize(c) == 2 + n + CodeSize(c.rest)
              && ShownCode(s, i, c) ==
                   Kept(s, i, 1) + ShownCode(s, i + 1, c.inner)
                   + Kept(s, i + 1 + n, 1) + ShownCode(s, i + 2 + n, c.rest)
    ensures c.LineComment? ==>
              && CodeSize(c) == 2 + c.length + CodeSize(c.rest)
              && ShownCode(s, i, c) == Hidden(s, i, 2 + c.length) + ShownCode(s, i + 2 + c.length, c.rest)
  {
    hide Kept, Hidden, Quotes, ContentSize, RemarkSize, ShownContent;
  }

  lemma TokenShown(s: string, i: nat, c: Code)
    ensures c.BlockComment? ==>
              var n := 4 + RemarkSize(c.body);
              CodeSize(c) == n + CodeSize(c.rest) && ShownCode(s, i, c) == Hidden(s, i, n) + ShownCode(s, i + n, c.rest)
    ensures c.Literal? ==>
              var open, n := c.hashes + Quotes(c.triple), ContentSize(c.text, c.hashes, c.triple);
              && CodeSize(c) == open + n + CodeSize(c.rest)
              && ShownCode(s, i, c) ==
                   Hidden(s, i, open) + ShownContent(s, i + open, c.text, c.hashes, c.triple)
                   + ShownCode(s, i + open + n, c.rest)
  {
    hide Kept, Hidden, Quotes, ContentSize, RemarkSize, ShownContent;
  }

  /** Code is shown as its tree says, and read on behind it as if nothing had been there. */
  lemma {:induction false} CodeMask(s: string, i: nat, c: Code, st: Stack)
    requires st.On? && IsCode(st) && (st.top.Interpolation? ==> st.top.open >= 1)
    requires SpellsCode(s, i, c, st.top.Interpolation?)
    ensures Reads(s, i, st, CodeSize(c), ShownCode(s, i, c), st)
    decreases c
  {
    hide *;
    CodeStep(s, i, c, st.top.Interpolation?);
    CodeShown(s, i, c);
    TokenShown(s, i, c);
    InterpolationIsCode();
    match c
    case NoCode => ReadsNothing(s, i, st);
    case Plain(rest) =>
      CodeMask(s, i + 1, rest, st);
      PlainReads(s, i, st, CodeSize(rest), ShownCode(s, i + 1, rest));
    case Group(inner, rest) =>
      var n := CodeSize(inner);
      CodeMask(s, i + 1, inner, On(Interpolation(st.top.open + 1), st.below));
      CodeMask(s, i + 2 + n, rest, st);
      GroupReads(s, i, st.top.open, st.below, n, ShownCode(s, i + 1, inner),
                 CodeSize(rest), ShownCode(s, i + 2 + n, rest));
    case LineComment(length, rest) =>
      CommentMask(s, i, length, st);
      CodeMask(s, i + 2 + length, rest, st);
      Then(s, i, st, 2 + length, Hidden(s, i, 2 + length), st, CodeSize(rest), ShownCode(s, i + 2 + length, rest), st);
    case BlockComment(body, rest) =>
      var n := 4 + RemarkSize(body);
      BlockMask(s, i, body, st);
      CodeMask(s, i + n, rest, st);
      Then(s, i, st, n, Hidden(s, i, n), st, CodeSize(rest), ShownCode(s, i + n, rest), st);
    case Literal(hashes, triple, text, rest) =>
      var open, n := hashes + Quotes(triple), ContentSize(text, hashes, triple);
      ContentMask(s, i + open, text, hashes, triple, st);
      CodeMask(s, i + open + n, rest, st);
      LiteralReads(s, i, hashes, triple, st, n, ShownContent(s, i + open, text, hashes, triple),
                   CodeSize(rest), ShownCode(s, i + open + n, rest));
  }

  lemma TokenReads(s: string, i: nat, text: Stack, length: nat, n: nat, a: string, st: Stack)
    requires i < |s| && Next(s, i, text) == Move(length, false, text) && i + length <= |s|
    requires Reads(s, i + length, text, n, a, st)
    ensures Reads(s, i, text, length + n, Hidden(s, i, length) + a, st)
  {
    hide *;
    ReadsMove(s, i, text, Move(length, false, text));
    Then(s, i, text, length, Hidden(s, i, length), text, n, a, st);
  }

  lemma InterpolationReads(s: string, i: nat, text: Stack, length: nat, n: nat, a: string, m: nat, b: string, st: Stack)
    requires i < |s| && i + length <= |s| && Next(s, i, text) == Move(length, false, On(Interpolation(1), text))
    requires Reads(s, i + length, On(Interpolation(1), text), n, a, On(Interpolation(1), text))
    requires Is(s, i + length + n, ')') && Reads(s, i + length + n + 1, text, m, b, st)
    ensures Reads(s, i, text, length + n + 1 + m, Hidden(s, i, length) + a + Hidden(s, i + length + n, 1) + b, st)
  {
    var inside, close := On(Interpolation(1), text), i + length + n;
    CloseMove(s, close, 1, text);
    InsideReads(s, i, text, length, inside, n, a, m, b, st);
  }

  lemma InsideReads(s: string, i: nat, text: Stack, length: nat, inside: Stack, n: nat, a: string, m: nat, b: string,
                    st: Stack)
    requires i < |s| && i + length <= |s| && Next(s, i, text) == Move(length, false, inside)
    requires Reads(s, i + length, inside, n, a, inside)
    requires i + length + n < |s| && Next(s, i + length + n, inside) == Move(1, false, text)
    requires Reads(s, i + length + n + 1, text, m, b, st)
    ensures Reads(s, i, text, length + n + 1 + m, Hidden(s, i, length) + a + Hidden(s, i + length + n, 1) + b, st)
  {
    hide *;
    var close := i + length + n;
    ReadsMove(s, i, text, Move(length, false, inside));
    ReadsMove(s, close, inside, Move(1, false, text));
    ThenTwo(s, i, text, length, Hidden(s, i, length), inside, n, a, inside, 1, Hidden(s, close, 1), text);
    Then(s, i, text, length + n + 1, Hidden(s, i, length) + a + Hidden(s, close, 1), text, m, b, st);
  }

  /** The text of a literal is blanked up to its own closing delimiter, but for interpolated code. */
  lemma {:induction false} ContentMask(s: string, i: nat, t: Content, hashes: nat, triple: bool, st: Stack)
    requires SpellsContent(s, i, t, hashes, triple)
    ensures Reads(s, i, On(Text(hashes, triple), st), ContentSize(t, hashes, triple),
                  ShownContent(s, i, t, hashes, triple), st)
    decreases t
  {
    hide *;
    InText(s, i, t, hashes, triple);
    ContentShown(s, i, t, hashes, triple);
    TextMoves(s, i, hashes, triple, st);
    InterpolationIsCode();
    var text := On(Text(hashes, triple), st);
    match t
    case Close => ReadsMove(s, i, text, Move(Quotes(triple) + hashes, false, st));
    case Symbol(rest) =>
      ContentMask(s, i + 1, rest, hashes, triple, st);
      TokenReads(s, i, text, 1, ContentSize(rest, hashes, triple), ShownContent(s, i + 1, rest, hashes, triple), st);
    case Escaped(rest) =>
      var length := hashes + 2;
      ContentMask(s, i + length, rest, hashes, triple, st);
      TokenReads(s, i, text, length, ContentSize(rest, hashes, triple),
                 ShownContent(s, i + length, rest, hashes, triple), st);
    case Interpolated(code, rest) =>
      var length, n := hashes + 2, CodeSize(code);
      CodeMask(s, i + length, code, On(Interpolation(1), text));
      ContentMask(s, i + length + n + 1, rest, hashes, triple, st);
      InterpolationReads(s, i, text, length, n, ShownCode(s, i + length, code), ContentSize(rest, hashes, triple),
                         ShownContent(s, i + length + n + 1, rest, hashes, triple), st);
  }

  lemma InText(s: string, i: nat, t: Content, hashes: nat, triple: bool)
    requires SpellsContent(s, i, t, hashes, triple)
    ensures i < |s|
    ensures t.Close? <==> Closes(s, i, hashes, triple)
    ensures t.Escaped? || t.Interpolated? <==> Escapes(s, i, hashes)
    ensures t.Close? ==> i + Quotes(triple) + hashes <= |s|
    ensures t.Symbol? ==> SpellsContent(s, i + 1, t.rest, hashes, triple)
    ensures t.Escaped? ==> i + hashes + 2 <= |s| && !Is(s, i + hashes + 1, '(')
    ensures t.Escaped? ==> SpellsContent(s, i + (hashes + 2), t.rest, hashes, triple)
    ensures t.Interpolated? ==>
              var length, n := hashes + 2, CodeSize(t.code);
              && i + length <= |s| && Is(s, i + hashes + 1, '(') && SpellsCode(s, i + length, t.code, true)
              && Is(s, i + length + n, ')') && SpellsContent(s, i + length + n + 1, t.rest, hashes, triple)
  {
  }

  lemma ContentShown(s: string, i: nat, t: Content, hashes: nat, triple: bool)
    ensures
      var size, shown := ContentSize(t, hashes, triple), ShownContent(s, i, t, hashes, triple);
      match t
      case Close => size == Quotes(triple) + hashes && shown == Hidden(s, i, Quotes(triple) + hashes)
      case Symbol(rest) =>
        && size == 1 + ContentSize(rest, hashes, triple)
        && shown == Hidden(s, i, 1) + ShownContent(s, i + 1, rest, hashes, triple)
      case Escaped(rest) =>
        && size == hashes + 2 + ContentSize(rest, hashes, triple)
        && shown == Hidden(s, i, hashes + 2) + ShownContent(s, i + (hashes + 2), rest, hashes, triple)
      case Interpolated(code, rest) =>
        var length, n := hashes + 2, CodeSize(code);
        && size == length + n + 1 + ContentSize(rest, hashes, triple)
        && shown == Hidden(s, i, length) + ShownCode(s, i + length, code)
                    + Hidden(s, i + length + n, 1) + ShownContent(s, i + length + n + 1, rest, hashes, triple)
  {
    hide Kept, Hidden, Quotes, CodeSize, ShownCode;
  }

  /** The empty literal ends at its second quote, unless a third one makes it the opening of another. */
  lemma EmptyLiteral(s: string, i: nat, st: Stack)
    requires st.On? && IsCode(st) && (st.top.Interpolation? ==> st.top.open >= 1)
    requires Pair(s, i, '"', '"') && !Is(s, i + 2, '"')
    ensures i + 2 <= |s| && Mask(s, i, st) == "  " + Mask(s, i + 2, st)
  {
    hide Mask, SpellsCode, ShownCode, Next;
    EmptyIsSpelled(s, i, st.top.Interpolation?);
    EmptyIsBlank(s, i);
    CodeMask(s, i, Literal(0, false, Close, NoCode), st);
  }

  lemma EmptyIsSpelled(s: string, i: nat, inside: bool)
    requires Pair(s, i, '"', '"') && !Is(s, i + 2, '"')
    ensures SpellsCode(s, i, Literal(0, false, Close, NoCode), inside)
  {
    assert HashesAt(s, i, 0) && Closes(s, i + 1, 0, false);
    assert SpellsContent(s, i + 1, Close, 0, false);
  }

  lemma EmptyIsBlank(s: string, i: nat)
    requires Pair(s, i, '"', '"')
    ensures CodeSize(Literal(0, false, Close, NoCode)) == 2
    ensures ShownCode(s, i, Literal(0, false, Close, NoCode)) == "  "
  {
    assert ShownContent(s, i + 1, Close, 0, false) == Hidden(s, i + 1, 1);
    assert Hidden(s, i, 1) == " " && Hidden(s, i + 1, 1) == " ";
  }

  /** A source that has a syntax tree is masked to what its tree shows. */
  lemma SourceMask(s: string, c: Code)
    requires SpellsCode(s, 0, c, false) && CodeSize(c) == |s|
    ensures SwiftCode(s) == ShownCode(s, 0, c)
  {
    CodeMask(s, 0, c, FILE);
    EmptyMask(s, |s|, FILE);
  }
}
