/**
 Every source has a syntax tree, which may break off where the source ends inside a comment, a literal
 or an interpolation, and the masker shows what it says.
 */
module SwiftSources {
  import opened SwiftMasker
  import opened SwiftGrammar

  // ----- Sources that may end inside something -----

  /** Code up to the end of the source: whole, and then whatever was never closed. */
  datatype Open = Open(before: Code, tail: Tail)

  datatype Tail =
    | Done
    | InComment(body: OpenRemark)
    | InLiteral(hashes: nat, triple: bool, text: OpenContent)
    | InGroup(rest: Open)                                   // parentheses inside an interpolation

  datatype OpenRemark =
    | RemarkEnd
    | LetterThen(rest: OpenRemark)
    | NestedThen(inner: Remark, rest: OpenRemark)
    | Deeper(body: OpenRemark)

  datatype OpenContent =
    | TextEnd
    | CutEscape                                             // an escape with nothing behind it
    | SymbolThen(rest: OpenContent)
    | EscapedThen(rest: OpenContent)
    | InterpolatedThen(code: Code, rest: OpenContent)
    | Unclosed(open: Open)

  ghost predicate SpellsOpen(s: string, i: nat, o: Open, inside: bool)
    decreases o
  {
    SpellsCode(s, i, o.before, inside) && SpellsTail(s, i + CodeSize(o.before), o.tail, inside)
  }

  ghost predicate SpellsTail(s: string, i: nat, t: Tail, inside: bool)
    decreases t
  {
    match t
    case Done => i == |s|
    case InComment(body) => Pair(s, i, '/', '*') && SpellsOpenRemark(s, i + 2, body)
    case InLiteral(hashes, triple, text) =>
      && HashesAt(s, i, hashes) && QuotesAt(s, i + hashes, false) && (triple <==> QuotesAt(s, i + hashes, true))
      && SpellsOpenContent(s, i + (hashes + Quotes(triple)), text, hashes, triple)
    case InGroup(rest) => inside && Is(s, i, '(') && SpellsOpen(s, i + 1, rest, true)
  }

  ghost predicate SpellsOpenRemark(s: string, i: nat, r: OpenRemark)
    decreases r
  {
    match r
    case RemarkEnd => i == |s|
    case LetterThen(rest) =>
      i < |s| && !Pair(s, i, '/', '*') && !Pair(s, i, '*', '/') && SpellsOpenRemark(s, i + 1, rest)
    case NestedThen(inner, rest) =>
      && Pair(s, i, '/', '*') && SpellsRemark(s, i + 2, inner) && Pair(s, i + 2 + RemarkSize(inner), '*', '/')
      && SpellsOpenRemark(s, i + 4 + RemarkSize(inner), rest)
    case Deeper(body) => Pair(s, i, '/', '*') && SpellsOpenRemark(s, i + 2, body)
  }

  ghost predicate SpellsOpenContent(s: string, i: nat, t: OpenContent, hashes: nat, triple: bool)
    decreases t
  {
    match t
    case TextEnd => i == |s|
    case CutEscape => Escapes(s, i, hashes) && i + hashes + 1 == |s|
    case SymbolThen(rest) =>
      && i < |s| && !Closes(s, i, hashes, triple) && !Escapes(s, i, hashes)
      && SpellsOpenContent(s, i + 1, rest, hashes, triple)
    case EscapedThen(rest) =>
      && Escapes(s, i, hashes) && i + hashes + 1 < |s| && s[i + hashes + 1] != '('
      && SpellsOpenContent(s, i + (hashes + 2), rest, hashes, triple)
    case InterpolatedThen(code, rest) =>
      && Escapes(s, i, hashes) && Is(s, i + hashes + 1, '(')
      && SpellsCode(s, i + (hashes + 2), code, true) && Is(s, i + (hashes + 2) + CodeSize(code), ')')
      && SpellsOpenContent(s, i + (hashes + 2) + CodeSize(code) + 1, rest, hashes, triple)
    case Unclosed(open) =>
      Escapes(s, i, hashes) && Is(s, i + hashes + 1, '(') && SpellsOpen(s, i + (hashes + 2), open, true)
  }

  // ----- What stays visible -----

  function HiddenRest(s: string, i: nat): string {
    if i <= |s| then Hidden(s, i, |s| - i) else ""
  }

  function ShownOpen(s: string, i: nat, o: Open): string
    decreases o
  {
    ShownCode(s, i, o.before) + ShownTail(s, i + CodeSize(o.before), o.tail)
  }

  function ShownTail(s: string, i: nat, t: Tail): string
    decreases t
  {
    match t
    case Done => ""
    case InComment(_) => HiddenRest(s, i)
    case InLiteral(hashes, triple, text) =>
      var open := hashes + Quotes(triple);
      Hidden(s, i, open) + ShownOpenContent(s, i + open, text, hashes)
    case InGroup(rest) => Kept(s, i, 1) + ShownOpen(s, i + 1, rest)
  }

  function ShownOpenContent(s: string, i: nat, t: OpenContent, hashes: nat): string
    decreases t
  {
    match t
    case TextEnd => ""
    case CutEscape => Hidden(s, i, hashes + 1)
    case SymbolThen(rest) => Hidden(s, i, 1) + ShownOpenContent(s, i + 1, rest, hashes)
    case EscapedThen(rest) => Hidden(s, i, hashes + 2) + ShownOpenContent(s, i + (hashes + 2), rest, hashes)
    case InterpolatedThen(code, rest) =>
      var length, n := hashes + 2, CodeSize(code);
      Hidden(s, i, length) + ShownCode(s, i + length, code)
      + Hidden(s, i + length + n, 1) + ShownOpenContent(s, i + length + n + 1, rest, hashes)
    case Unclosed(open) => Hidden(s, i, hashes + 2) + ShownOpen(s, i + (hashes + 2), open)
  }

  // ----- Open trees are masked as they read -----

  /** From `i` on the automaton shows exactly this. */
  ghost predicate Shows(s: string, i: nat, st: Stack, shown: string) {
    i <= |s| && Mask(s, i, st) == shown
  }

  lemma ShowsNothing(s: string, i: nat, st: Stack)
    requires i == |s|
    ensures Shows(s, i, st, "")
  {
  }

  lemma ReadsThenShows(s: string, i: nat, st: Stack, n: nat, a: string, mid: Stack, b: string)
    requires Reads(s, i, st, n, a, mid) && Shows(s, i + n, mid, b)
    ensures Shows(s, i, st, a + b)
  {
  }

  lemma HiddenThenRest(s: string, i: nat, st: Stack, n: nat, mid: Stack)
    requires Reads(s, i, st, n, Hidden(s, i, n), mid) && Shows(s, i + n, mid, HiddenRest(s, i + n))
    ensures Shows(s, i, st, HiddenRest(s, i))
  {
    hide Mask, Blanked;
    ReadsThenShows(s, i, st, n, Hidden(s, i, n), mid, HiddenRest(s, i + n));
    BlankedStretch(s, i, i + n, |s|);
  }

  lemma {:induction false} OpenRemarkMask(s: string, i: nat, r: OpenRemark, depth: nat, st: Stack)
    requires SpellsOpenRemark(s, i, r) && depth >= 1
    ensures Shows(s, i, On(Block(depth), st), HiddenRest(s, i))
    decreases r
  {
    hide Mask, Next, Hidden, Reads, Pair, Shows, HiddenRest;
    var here, deeper := On(Block(depth), st), On(Block(depth + 1), st);
    match r
    case RemarkEnd =>
      ShowsNothing(s, i, here);
      NoRest(s, i);
    case LetterThen(rest) =>
      OpenRemarkMask(s, i + 1, rest, depth, st);
      LetterMove(s, i, depth, st);
      ReadsMove(s, i, here, Move(1, false, here));
      HiddenThenRest(s, i, here, 1, here);
    case NestedThen(inner, rest) =>
      var n := RemarkSize(inner);
      OpenRemarkMask(s, i + 4 + n, rest, depth, st);
      NestedAlone(s, i, inner, depth, st);
      HiddenThenRest(s, i, here, 4 + n, here);
    case Deeper(body) =>
      OpenRemarkMask(s, i + 2, body, depth + 1, st);
      OpenBlock(s, i, depth, st);
      ReadsMove(s, i, here, Move(2, false, deeper));
      HiddenThenRest(s, i, here, 2, deeper);
  }

  lemma NoRest(s: string, i: nat)
    requires i == |s|
    ensures HiddenRest(s, i) == ""
  {
  }

  lemma NestedAlone(s: string, i: nat, inner: Remark, depth: nat, st: Stack)
    requires depth >= 1 && Pair(s, i, '/', '*') && SpellsRemark(s, i + 2, inner)
    requires Pair(s, i + 2 + RemarkSize(inner), '*', '/')
    ensures
      var n := 4 + RemarkSize(inner);
      Reads(s, i, On(Block(depth), st), n, Hidden(s, i, n), On(Block(depth), st))
  {
    hide *;
    PairEnds(s, i + 2 + RemarkSize(inner));
    var n := RemarkSize(inner);
    RemarkMask(s, i + 2, inner, depth + 1, st);
    NothingHidden(s, i + 4 + n);
    ReadsNothing(s, i + 4 + n, On(Block(depth), st));
    NestedReads(s, i, depth, st, n, 0);
  }

  lemma PairEnds(s: string, i: nat)
    requires Pair(s, i, '*', '/')
    ensures i + 2 <= |s|
  {
  }

  lemma {:induction false} OpenMask(s: string, i: nat, o: Open, st: Stack)
    requires st.On? && IsCode(st) && (st.top.Interpolation? ==> st.top.open >= 1)
    requires SpellsOpen(s, i, o, st.top.Interpolation?)
    ensures Shows(s, i, st, ShownOpen(s, i, o))
    decreases o
  {
    hide Mask, Next, Reads, Shows, SpellsCode, ShownCode, CodeSize;
    CodeMask(s, i, o.before, st);
    TailMask(s, i + CodeSize(o.before), o.tail, st);
    ReadsThenShows(s, i, st, CodeSize(o.before), ShownCode(s, i, o.before), st,
                   ShownTail(s, i + CodeSize(o.before), o.tail));
  }

  lemma {:induction false} TailMask(s: string, i: nat, t: Tail, st: Stack)
    requires st.On? && IsCode(st) && (st.top.Interpolation? ==> st.top.open >= 1)
    requires SpellsTail(s, i, t, st.top.Interpolation?)
    ensures Shows(s, i, st, ShownTail(s, i, t))
    decreases t
  {
    hide Mask, Next, Reads, Shows, Pair, Hidden, HiddenRest, Kept, QuotesAt, HashesAt, SpellsOpenContent;
    match t
    case Done => ShowsNothing(s, i, st);
    case InComment(body) =>
      CommentOpens(s, i, st);
      ReadsMove(s, i, st, Move(2, false, On(Block(1), st)));
      OpenRemarkMask(s, i + 2, body, 1, st);
      HiddenThenRest(s, i, st, 2, On(Block(1), st));
    case InLiteral(hashes, triple, text) =>
      var open, inside := hashes + Quotes(triple), On(Text(hashes, triple), st);
      LiteralMove(s, i, hashes, triple, st);
      ReadsMove(s, i, st, Move(open, false, inside));
      OpenContentMask(s, i + open, text, hashes, triple, st);
      ReadsThenShows(s, i, st, open, Hidden(s, i, open), inside, ShownOpenContent(s, i + open, text, hashes));
    case InGroup(rest) =>
      var deeper := On(Interpolation(st.top.open + 1), st.below);
      OpenMove(s, i, st.top.open, st.below);
      ReadsMove(s, i, st, Move(1, true, deeper));
      OpenMask(s, i + 1, rest, deeper);
      ReadsThenShows(s, i, st, 1, Kept(s, i, 1), deeper, ShownOpen(s, i + 1, rest));
  }

  lemma CutEscapeMove(s: string, i: nat, hashes: nat, triple: bool, st: Stack)
    requires Escapes(s, i, hashes) && i + hashes + 1 == |s|
    ensures Next(s, i, On(Text(hashes, triple), st)) == Move(hashes + 1, false, On(Text(hashes, triple), st))
  {
    ClosesStarts(s, i, hashes, triple);
    EscapesStarts(s, i, hashes);
    ParenthesisStarts(s, i + hashes + 1);
  }

  lemma InOpenText(s: string, i: nat, t: OpenContent, hashes: nat, triple: bool)
    requires SpellsOpenContent(s, i, t, hashes, triple) && t != TextEnd
    ensures i < |s| && !Closes(s, i, hashes, triple) && (t.SymbolThen? <==> !Escapes(s, i, hashes))
    ensures t.EscapedThen? ==> i + hashes + 2 <= |s| && !Is(s, i + hashes + 1, '(')
    ensures t.InterpolatedThen? || t.Unclosed? ==> i + hashes + 2 <= |s| && Is(s, i + hashes + 1, '(')
  {
  }

  lemma {:induction false} OpenContentMask(s: string, i: nat, t: OpenContent, hashes: nat, triple: bool, st: Stack)
    requires SpellsOpenContent(s, i, t, hashes, triple)
    ensures Shows(s, i, On(Text(hashes, triple), st), ShownOpenContent(s, i, t, hashes))
    decreases t
  {
    hide Mask, Next, Reads, Shows, Hidden, Kept, Closes, Escapes;
    hide SpellsCode, ShownCode, CodeSize, SpellsOpen, ShownOpen;
    var text, length := On(Text(hashes, triple), st), hashes + 2;
    var inside := On(Interpolation(1), text);
    if t != TextEnd {
      InOpenText(s, i, t, hashes, triple);
      SwiftGrammar.TextMoves(s, i, hashes, triple, st);
    }
    match t
    case TextEnd => ShowsNothing(s, i, text);
    case CutEscape =>
      CutEscapeMove(s, i, hashes, triple, st);
      ReadsMove(s, i, text, Move(hashes + 1, false, text));
      ShowsNothing(s, |s|, text);
      ReadsThenShows(s, i, text, hashes + 1, Hidden(s, i, hashes + 1), text, "");
      assert Hidden(s, i, hashes + 1) + "" == Hidden(s, i, hashes + 1);
    case SymbolThen(rest) =>
      OpenContentMask(s, i + 1, rest, hashes, triple, st);
      ReadsMove(s, i, text, Move(1, false, text));
      ReadsThenShows(s, i, text, 1, Hidden(s, i, 1), text, ShownOpenContent(s, i + 1, rest, hashes));
    case EscapedThen(rest) =>
      OpenContentMask(s, i + length, rest, hashes, triple, st);
      ReadsMove(s, i, text, Move(length, false, text));
      ReadsThenShows(s, i, text, length, Hidden(s, i, length), text, ShownOpenContent(s, i + length, rest, hashes));
    case InterpolatedThen(code, rest) =>
      var n := CodeSize(code);
      CodeMask(s, i + length, code, inside);
      OpenContentMask(s, i + length + n + 1, rest, hashes, triple, st);
      InterpolationShows(s, i, text, length, n, ShownCode(s, i + length, code),
                         ShownOpenContent(s, i + length + n + 1, rest, hashes));
    case Unclosed(open) =>
      OpenMask(s, i + length, open, inside);
      ReadsMove(s, i, text, Move(length, false, inside));
      ReadsThenShows(s, i, text, length, Hidden(s, i, length), inside, ShownOpen(s, i + length, open));
  }

  lemma InterpolationShows(s: string, i: nat, text: Stack, length: nat, n: nat, a: string, b: string)
    requires i < |s| && i + length <= |s| && Next(s, i, text) == Move(length, false, On(Interpolation(1), text))
    requires Reads(s, i + length, On(Interpolation(1), text), n, a, On(Interpolation(1), text))
    requires Is(s, i + length + n, ')') && Shows(s, i + length + n + 1, text, b)
    ensures Shows(s, i, text, Hidden(s, i, length) + a + Hidden(s, i + length + n, 1) + b)
  {
    var inside, close := On(Interpolation(1), text), i + length + n;
    CloseMove(s, close, 1, text);
    InsideShows(s, i, text, length, inside, n, a, b);
  }

  lemma InsideShows(s: string, i: nat, text: Stack, length: nat, inside: Stack, n: nat, a: string, b: string)
    requires i < |s| && i + length <= |s| && Next(s, i, text) == Move(length, false, inside)
    requires Reads(s, i + length, inside, n, a, inside)
    requires i + length + n < |s| && Next(s, i + length + n, inside) == Move(1, false, text)
    requires Shows(s, i + length + n + 1, text, b)
    ensures Shows(s, i, text, Hidden(s, i, length) + a + Hidden(s, i + length + n, 1) + b)
  {
    hide *;
    var close := i + length + n;
    ReadsMove(s, i, text, Move(length, false, inside));
    ReadsMove(s, close, inside, Move(1, false, text));
    ThenTwo(s, i, text, length, Hidden(s, i, length), inside, n, a, inside, 1, Hidden(s, close, 1), text);
    ReadsThenShows(s, i, text, length + n + 1, Hidden(s, i, length) + a + Hidden(s, close, 1), text, b);
  }

  // ----- Every source has a tree -----

  lemma LetterSpelled(s: string, i: nat, r: Remark, o: OpenRemark)
    requires i < |s| && !Pair(s, i, '/', '*') && !Pair(s, i, '*', '/')
    ensures SpellsRemark(s, i + 1, r) ==> SpellsRemark(s, i, Letter(r))
    ensures SpellsOpenRemark(s, i + 1, o) ==> SpellsOpenRemark(s, i, LetterThen(o))
    ensures RemarkSize(Letter(r)) == 1 + RemarkSize(r)
  {
  }

  lemma NestedSpelled(s: string, i: nat, inner: Remark, r: Remark)
    requires Pair(s, i, '/', '*') && SpellsRemark(s, i + 2, inner) && Pair(s, i + 2 + RemarkSize(inner), '*', '/')
    requires SpellsRemark(s, i + 4 + RemarkSize(inner), r)
    ensures SpellsRemark(s, i, Nested(inner, r))
    ensures RemarkSize(Nested(inner, r)) == 4 + RemarkSize(inner) + RemarkSize(r)
  {
    hide Pair;
  }

  lemma NestedThenSpelled(s: string, i: nat, inner: Remark, o: OpenRemark)
    requires Pair(s, i, '/', '*') && SpellsRemark(s, i + 2, inner) && Pair(s, i + 2 + RemarkSize(inner), '*', '/')
    requires SpellsOpenRemark(s, i + 4 + RemarkSize(inner), o)
    ensures SpellsOpenRemark(s, i, NestedThen(inner, o))
  {
    hide Pair, SpellsRemark, RemarkSize;
  }

  lemma DeeperSpelled(s: string, i: nat, o: OpenRemark)
    requires Pair(s, i, '/', '*')
    ensures i + 2 <= |s| && (SpellsOpenRemark(s, i + 2, o) ==> SpellsOpenRemark(s, i, Deeper(o)))
  {
  }

  lemma NoRemarkSpelled(s: string, i: nat)
    requires i <= |s|
    ensures SpellsRemark(s, i, NoRemark) && RemarkSize(NoRemark) == 0
    ensures i == |s| ==> SpellsOpenRemark(s, i, RemarkEnd)
  {
  }

  /** The inside of a block comment up to its end, or else up to the end of the source. */
  lemma {:induction false} ParseRemark(s: string, i: nat) returns (r: Remark, o: OpenRemark, closed: bool)
    requires i <= |s|
    ensures closed ==> SpellsRemark(s, i, r) && Pair(s, i + RemarkSize(r), '*', '/')
    ensures !closed ==> SpellsOpenRemark(s, i, o)
    decreases |s| - i
  {
    hide *;
    NoRemarkSpelled(s, i);
    r, o, closed := NoRemark, RemarkEnd, false;
    if Pair(s, i, '*', '/') {
      closed := true;
    } else if Pair(s, i, '/', '*') {
      DeeperSpelled(s, i, o);
      var inner, open, whole := ParseRemark(s, i + 2);
      if whole {
        PairEnds(s, i + 2 + RemarkSize(inner));
        r, o, closed := ParseRemark(s, i + 4 + RemarkSize(inner));
        if closed {
          NestedSpelled(s, i, inner, r);
        } else {
          NestedThenSpelled(s, i, inner, o);
        }
        r, o := Nested(inner, r), NestedThen(inner, o);
      } else {
        DeeperSpelled(s, i, open);
        o := Deeper(open);
      }
    } else if i < |s| {
      r, o, closed := ParseRemark(s, i + 1);
      LetterSpelled(s, i, r, o);
      r, o := Letter(r), LetterThen(o);
    }
  }

  lemma {:induction false} LineLength(s: string, i: nat) returns (length: nat)
    requires i <= |s|
    ensures i + length <= |s| && (forall k :: i <= k < i + length ==> s[k] != '\n')
    ensures i + length < |s| ==> s[i + length] == '\n'
    decreases |s| - i
  {
    length := 0;
    if i < |s| && s[i] != '\n' {
      length := LineLength(s, i + 1);
      length := length + 1;
    }
  }

  lemma {:induction false} ParseContent(s: string, i: nat, hashes: nat, triple: bool)
    returns (t: Content, o: OpenContent, closed: bool)
    requires i <= |s|
    ensures closed ==> SpellsContent(s, i, t, hashes, triple)
    ensures !closed ==> SpellsOpenContent(s, i, o, hashes, triple)
    decreases |s| - i
  {
    hide SpellsCode, SpellsOpen, CodeSize, Closes, HashesAt;
    t, o, closed := Close, TextEnd, false;
    if i == |s| {
    } else if Closes(s, i, hashes, triple) {
      closed := true;
    } else if !Escapes(s, i, hashes) {
      t, o, closed := ParseContent(s, i + 1, hashes, triple);
      t, o := Symbol(t), SymbolThen(o);
    } else {
      EscapeEnds(s, i, hashes);
      if i + hashes + 1 == |s| {
        o := CutEscape;
      } else if s[i + hashes + 1] != '(' {
        t, o, closed := ParseContent(s, i + (hashes + 2), hashes, triple);
        t, o := Escaped(t), EscapedThen(o);
      } else {
        var code, whole := ParseCode(s, i + (hashes + 2), true);
        ParsedIsSpelled(s, i + (hashes + 2), code, whole, true);
        if whole {
          t, o, closed := ParseContent(s, i + (hashes + 2) + CodeSize(code.before) + 1, hashes, triple);
          t, o := Interpolated(code.before, t), InterpolatedThen(code.before, o);
        } else {
          o := Unclosed(code);
        }
      }
    }
  }

  lemma EscapeEnds(s: string, i: nat, hashes: nat)
    requires Escapes(s, i, hashes)
    ensures i + hashes + 1 <= |s|
  {
  }

  lemma Extent(s: string, i: nat, t: Content, hashes: nat, triple: bool)
    requires SpellsContent(s, i, t, hashes, triple)
    ensures i + ContentSize(t, hashes, triple) <= |s|
  {
    hide SpellsContent, ContentSize, Mask, ShownContent;
    ContentMask(s, i, t, hashes, triple, FILE);
  }

  lemma LineSpelled(s: string, i: nat, length: nat, c: Code, inside: bool)
    requires Pair(s, i, '/', '/') && i + 2 + length <= |s|
    requires forall k :: i + 2 <= k < i + 2 + length ==> s[k] != '\n'
    requires i + 2 + length < |s| ==> s[i + 2 + length] == '\n'
    requires SpellsCode(s, i + 2 + length, c, inside)
    ensures SpellsCode(s, i, LineComment(length, c), inside)
    ensures CodeSize(LineComment(length, c)) == 2 + length + CodeSize(c)
  {
  }

  lemma BlockSpelled(s: string, i: nat, body: Remark, c: Code, inside: bool)
    requires Pair(s, i, '/', '*') && SpellsRemark(s, i + 2, body) && Pair(s, i + 2 + RemarkSize(body), '*', '/')
    ensures i + (4 + RemarkSize(body)) <= |s|
    ensures SpellsCode(s, i + (4 + RemarkSize(body)), c, inside) ==> SpellsCode(s, i, BlockComment(body, c), inside)
    ensures CodeSize(BlockComment(body, c)) == 4 + RemarkSize(body) + CodeSize(c)
  {
    hide SpellsRemark, RemarkSize;
  }

  lemma GroupSpelled(s: string, i: nat, inner: Code, c: Code)
    requires Is(s, i, '(') && SpellsCode(s, i + 1, inner, true) && Is(s, i + 1 + CodeSize(inner), ')')
    ensures i + 2 + CodeSize(inner) <= |s|
    ensures SpellsCode(s, i + 2 + CodeSize(inner), c, true) ==> SpellsCode(s, i, Group(inner, c), true)
    ensures CodeSize(Group(inner, c)) == 2 + CodeSize(inner) + CodeSize(c)
  {
  }

  lemma LiteralSpelled(s: string, i: nat, hashes: nat, triple: bool, text: Content, c: Code, inside: bool)
    requires HashesAt(s, i, hashes) && QuotesAt(s, i + hashes, false) && (triple <==> QuotesAt(s, i + hashes, true))
    requires SpellsContent(s, i + (hashes + Quotes(triple)), text, hashes, triple)
    requires SpellsCode(s, i + (hashes + Quotes(triple)) + ContentSize(text, hashes, triple), c, inside)
    ensures SpellsCode(s, i, Literal(hashes, triple, text, c), inside)
    ensures CodeSize(Literal(hashes, triple, text, c))
         == hashes + Quotes(triple) + ContentSize(text, hashes, triple) + CodeSize(c)
  {
    hide SpellsContent, ContentSize, HashesAt, QuotesAt;
  }

  lemma PlainSpelled(s: string, i: nat, c: Code, inside: bool)
    requires IsPlain(s, i, inside) && SpellsCode(s, i + 1, c, inside)
    ensures SpellsCode(s, i, Plain(c), inside) && CodeSize(Plain(c)) == 1 + CodeSize(c)
  {
  }

  lemma NoCodeSpelled(s: string, i: nat, inside: bool)
    requires i <= |s|
    ensures SpellsCode(s, i, NoCode, inside) && CodeSize(NoCode) == 0
  {
  }

  /** Code up to the parenthesis that closes its interpolation, or else up to the end of the source. */
  ghost predicate Parsed(s: string, i: nat, o: Open, closed: bool, inside: bool) {
    && SpellsCode(s, i, o.before, inside)
    && if closed then inside && Is(s, i + CodeSize(o.before), ')')
       else SpellsTail(s, i + CodeSize(o.before), o.tail, inside)
  }

  lemma ParsedBehind(s: string, i: nat, n: nat, o: Open, closed: bool, c: Code, inside: bool)
    requires Parsed(s, i + n, o, closed, inside)
    requires SpellsCode(s, i, c, inside) && CodeSize(c) == n + CodeSize(o.before)
    ensures Parsed(s, i, Open(c, o.tail), closed, inside)
  {
  }

  lemma ParsedTail(s: string, i: nat, t: Tail, inside: bool)
    requires i <= |s| && SpellsTail(s, i, t, inside)
    ensures Parsed(s, i, Open(NoCode, t), false, inside)
  {
  }

  lemma {:induction false} ParseCode(s: string, i: nat, inside: bool) returns (o: Open, closed: bool)
    requires i <= |s|
    ensures Parsed(s, i, o, closed, inside)
    decreases |s| - i, 2
  {
    if i == |s| {
      o, closed := Open(NoCode, Done), false;
    } else if Pair(s, i, '/', '/') || Pair(s, i, '/', '*') {
      o, closed := ParseComment(s, i, inside);
    } else if Begins(s, i) {
      o, closed := ParseLiteral(s, i, inside);
    } else if inside && (Is(s, i, '(') || Is(s, i, ')')) {
      o, closed := ParseGroup(s, i);
    } else {
      o, closed := ParsePlain(s, i, inside);
    }
  }

  lemma {:induction false} ParsePlain(s: string, i: nat, inside: bool) returns (o: Open, closed: bool)
    requires IsPlain(s, i, inside)
    ensures Parsed(s, i, o, closed, inside)
    decreases |s| - i, 1
  {
    hide SpellsCode, SpellsTail, CodeSize, Parsed;
    o, closed := ParseCode(s, i + 1, inside);
    ParsedIsSpelled(s, i + 1, o, closed, inside);
    PlainSpelled(s, i, o.before, inside);
    ParsedBehind(s, i, 1, o, closed, Plain(o.before), inside);
    o := o.(before := Plain(o.before));
  }

  lemma ParsedIsSpelled(s: string, i: nat, o: Open, closed: bool, inside: bool)
    requires Parsed(s, i, o, closed, inside)
    ensures SpellsCode(s, i, o.before, inside)
    ensures closed ==> inside && Is(s, i + CodeSize(o.before), ')')
    ensures !closed ==> SpellsOpen(s, i, o, inside)
  {
  }

  lemma {:induction false} ParseComment(s: string, i: nat, inside: bool) returns (o: Open, closed: bool)
    requires Pair(s, i, '/', '/') || Pair(s, i, '/', '*')
    ensures Parsed(s, i, o, closed, inside)
    decreases |s| - i, 1
  {
    hide SpellsCode, CodeSize, Parsed, SpellsRemark, RemarkSize, SpellsOpenRemark;
    if Pair(s, i, '/', '/') {
      var length := LineLength(s, i + 2);
      o, closed := ParseCode(s, i + 2 + length, inside);
      ParsedIsSpelled(s, i + 2 + length, o, closed, inside);
      LineSpelled(s, i, length, o.before, inside);
      ParsedBehind(s, i, 2 + length, o, closed, LineComment(length, o.before), inside);
      o := o.(before := LineComment(length, o.before));
    } else {
      var body, open, whole := ParseRemark(s, i + 2);
      if whole {
        var n := 4 + RemarkSize(body);
        BlockSpelled(s, i, body, NoCode, inside);
        o, closed := ParseCode(s, i + n, inside);
        ParsedIsSpelled(s, i + n, o, closed, inside);
        BlockSpelled(s, i, body, o.before, inside);
        ParsedBehind(s, i, n, o, closed, BlockComment(body, o.before), inside);
        o := o.(before := BlockComment(body, o.before));
      } else {
        o, closed := Open(NoCode, InComment(open)), false;
        ParsedTail(s, i, InComment(open), inside);
      }
    }
  }

  lemma {:induction false} ParseGroup(s: string, i: nat) returns (o: Open, closed: bool)
    requires Is(s, i, '(') || Is(s, i, ')')
    ensures Parsed(s, i, o, closed, true)
    decreases |s| - i, 1
  {
    hide SpellsCode, CodeSize, Parsed, SpellsOpen;
    if Is(s, i, '(') {
      var inner, whole := ParseCode(s, i + 1, true);
      ParsedIsSpelled(s, i + 1, inner, whole, true);
      if whole {
        var n := 2 + CodeSize(inner.before);
        GroupSpelled(s, i, inner.before, NoCode);
        o, closed := ParseCode(s, i + n, true);
        ParsedIsSpelled(s, i + n, o, closed, true);
        GroupSpelled(s, i, inner.before, o.before);
        ParsedBehind(s, i, n, o, closed, Group(inner.before, o.before), true);
        o := o.(before := Group(inner.before, o.before));
      } else {
        o, closed := Open(NoCode, InGroup(inner)), false;
        ParsedTail(s, i, InGroup(inner), true);
      }
    } else {
      o, closed := Open(NoCode, Done), true;
      ClosedHere(s, i);
    }
  }

  lemma ClosedHere(s: string, i: nat)
    requires Is(s, i, ')')
    ensures Parsed(s, i, Open(NoCode, Done), true, true)
  {
  }

  lemma {:induction false} ParseLiteral(s: string, i: nat, inside: bool) returns (o: Open, closed: bool)
    requires i < |s| && Begins(s, i)
    ensures Parsed(s, i, o, closed, inside)
    decreases |s| - i, 1
  {
    hide SpellsCode, CodeSize, Parsed, SpellsContent, SpellsOpenContent, ContentSize;
    var hashes: nat :| HashesAt(s, i, hashes) && QuotesAt(s, i + hashes, false);
    var triple := QuotesAt(s, i + hashes, true);
    var open := hashes + Quotes(triple);
    var text, cut, whole := ParseContent(s, i + open, hashes, triple);
    if whole {
      var n := ContentSize(text, hashes, triple);
      Extent(s, i + open, text, hashes, triple);
      o, closed := ParseCode(s, i + open + n, inside);
      ParsedIsSpelled(s, i + open + n, o, closed, inside);
      LiteralSpelled(s, i, hashes, triple, text, o.before, inside);
      ParsedBehind(s, i, open + n, o, closed, Literal(hashes, triple, text, o.before), inside);
      o := o.(before := Literal(hashes, triple, text, o.before));
    } else {
      o, closed := Open(NoCode, InLiteral(hashes, triple, cut)), false;
      ParsedTail(s, i, InLiteral(hashes, triple, cut), inside);
    }
  }

  /** Every source has a tree, and is masked to what it shows. */
  lemma EverySourceMask(s: string) returns (o: Open)
    ensures SpellsOpen(s, 0, o, false) && SwiftCode(s) == ShownOpen(s, 0, o)
  {
    var closed;
    o, closed := ParseCode(s, 0, false);
    ParsedIsSpelled(s, 0, o, closed, false);
    OpenMask(s, 0, o, FILE);
  }

  /** And so is it for any tree of it. */
  lemma AnyTreeMask(s: string, o: Open)
    requires SpellsOpen(s, 0, o, false)
    ensures SwiftCode(s) == ShownOpen(s, 0, o)
  {
    OpenMask(s, 0, o, FILE);
  }
}
