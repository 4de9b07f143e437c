/**
 The member view of one Swift type: the text after the opening brace of its
 declaration, with nested bodies and argument lists masked.
 */
module TypeMembers {
  import opened SwiftMasker

  /** How often `c` occurs among the first `n` characters. */
  function Count(t: string, c: char, n: nat): nat
    requires n <= |t|
  {
    if n == 0 then 0 else Count(t, c, n - 1) + (if t[n - 1] == c then 1 else 0)
  }

  /** Open braces around the character at `k`; a closing brace belongs to the level it returns to. */
  function Level(t: string, k: nat): int
    requires k < |t|
  {
    1 + Count(t, '{', k) - Count(t, '}', k + 1)
  }

  /** Parentheses and brackets opened minus closed before `n`, among the type's own characters. */
  function Arguments(t: string, n: nat): int
    requires n <= |t|
  {
    if n == 0 then 0
    else
      Arguments(t, n - 1)
      + (if Level(t, n - 1) != 1 then 0
         else if t[n - 1] == '(' || t[n - 1] == '[' then 1
         else if t[n - 1] == ')' || t[n - 1] == ']' then -1
         else 0)
  }

  predicate Shown(t: string, k: nat)
    requires k < |t|
  {
    Level(t, k) == 1 && Arguments(t, k) == 0
  }

  /** `body` ends where the braces of the type close, or with the text. */
  predicate EndsWithType(t: string, length: nat) {
    && length <= |t|
    && (forall k :: 0 <= k < length ==> Level(t, k) >= 1)
    && (length < |t| ==> Level(t, length) == 0)
  }

  lemma NothingCounted(t: string)
    ensures Count(t, '{', 0) == Count(t, '}', 0) == 0 && Arguments(t, 0) == 0
  {
  }

  /** How the counters change over the character at `n`. */
  lemma OneCharacter(t: string, n: nat)
    requires n < |t|
    ensures Count(t, '{', n + 1) == Count(t, '{', n) + (if t[n] == '{' then 1 else 0)
    ensures Count(t, '}', n + 1) == Count(t, '}', n) + (if t[n] == '}' then 1 else 0)
    ensures Arguments(t, n + 1) == Arguments(t, n) +
                                   (if Level(t, n) != 1 then 0
                                    else if t[n] == '(' || t[n] == '[' then 1
                                    else if t[n] == ')' || t[n] == ']' then -1
                                    else 0)
  {
  }

  method TypeBody(t: string) returns (body: string)
    ensures EndsWithType(t, |body|)
    ensures forall k :: 0 <= k < |body| ==> body[k] == if Shown(t, k) || t[k] == '\n' then t[k] else ' '
  {
    hide Count, Arguments;
    var braces, arguments := 1, 0;
    NothingCounted(t);
    body := "";
    for n := 0 to |t|
      invariant |body| == n
      invariant braces == 1 + Count(t, '{', n) - Count(t, '}', n) && braces >= 1
      invariant arguments == Arguments(t, n)
      invariant forall k :: 0 <= k < n ==> Level(t, k) >= 1
      invariant forall k :: 0 <= k < n ==> body[k] == if Shown(t, k) || t[k] == '\n' then t[k] else ' '
    {
      OneCharacter(t, n);
      var c := t[n];
      if c == '}' {
        braces := braces - 1;
        if braces == 0 {
          return;
        }
      }
      var visible := braces == 1 && arguments == 0;
      body := body + [if visible || c == '\n' then c else ' '];
      if c == '{' {
        braces := braces + 1;
      } else if braces == 1 && (c == '(' || c == '[') {
        arguments := arguments + 1;
      } else if braces == 1 && (c == ')' || c == ']') {
        arguments := arguments - 1;
      }
    }
  }

  /** Members of the declaration whose opening brace is just before `start`. */
  method DirectTypeMembers(source: string, start: nat) returns (body: string)
    requires start <= |source|
    ensures EndsWithType(SwiftCode(source)[start..], |body|)
    ensures Aligned(body, source, start)
    ensures forall k :: 0 <= k < |body| && body[k] != ' ' && body[k] != '\n' ==>
              Shown(SwiftCode(source)[start..], k) && body[k] == source[start + k]
  {
    var masked := Masked(source);
    MaskKeepsOffsets(source, 0, FILE);
    var t := masked[start..];
    body := TypeBody(t);
    forall k | 0 <= k < |body|
      ensures SameOrBlank(body[k], source[start + k])
    {
      assert SameOrBlank(masked[start + k], source[start + k]);
    }
  }
}
