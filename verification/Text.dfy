/** Character classes and lists of characters used by the configuration pipeline. */
module Text {
  /** The white space of Go's unicode.IsSpace. */
  predicate IsSpace(c: char) {
    var n := c as int;
    9 <= n <= 13 || n == 0x20 || n == 0x85 || n == 0xA0 || n == 0x1680 || 0x2000 <= n <= 0x200A
    || n == 0x2028 || n == 0x2029 || n == 0x202F || n == 0x205F || n == 0x3000
  }

  predicate IsQuote(c: char) { c == '"' || c == '\'' }

  predicate IsPunct(c: char) { c == '{' || c == '}' || c == ';' }

  predicate EndsWith(s: string, c: char) { s != "" && s[|s| - 1] == c }

  /** The line of offset `k`: one more than the newlines before it. */
  function LineOf(text: string, k: nat): (n: nat)
    requires k <= |text|
  {
    if k == 0 then 1 else LineOf(text, k - 1) + if text[k - 1] == '\n' then 1 else 0
  }

  function TrimLeft(s: string, c: char): string {
    if s != "" && s[0] == c then TrimLeft(s[1..], c) else s
  }

  function TrimRight(s: string, c: char): string {
    if EndsWith(s, c) then TrimRight(s[..|s| - 1], c) else s
  }

  /** `t` is `s` without all the runes `c` it begins with. */
  predicate WithoutLead(s: string, c: char, t: string) {
    && |t| <= |s| && t == s[|s| - |t|..] && (t == "" || t[0] != c)
    && forall i :: 0 <= i < |s| - |t| ==> s[i] == c
  }

  /** `t` is `s` without all the runes `c` it ends with. */
  predicate WithoutTrail(s: string, c: char, t: string) {
    && t <= s && !EndsWith(t, c)
    && forall i :: |t| <= i < |s| ==> s[i] == c
  }

  lemma {:induction false} TrimLeftIs(s: string, c: char)
    ensures WithoutLead(s, c, TrimLeft(s, c))
    decreases |s|
  {
    if s != "" && s[0] == c {
      var rest, t := s[1..], TrimLeft(s[1..], c);
      TrimLeftIs(rest, c);
      assert s[|s| - |t|..] == rest[|rest| - |t|..];
      assert forall i :: 1 <= i < |s| ==> s[i] == rest[i - 1];
    }
  }

  lemma {:induction false} TrimRightIs(s: string, c: char)
    ensures WithoutTrail(s, c, TrimRight(s, c))
    decreases |s|
  {
    if EndsWith(s, c) {
      TrimRightIs(s[..|s| - 1], c);
    }
  }

  lemma Assoc<T>(a: seq<T>, b: seq<T>, c: seq<T>)
    ensures a + b + c == a + (b + c)
  {
  }

  function Newlines(text: string): nat {
    if text == "" then 0 else (if text[0] == '\n' then 1 else 0) + Newlines(text[1..])
  }

  lemma {:induction false} NewlinesAppend(a: string, b: string)
    ensures Newlines(a + b) == Newlines(a) + Newlines(b)
    decreases |a|
  {
    if a == "" {
      assert a + b == b;
    } else {
      assert (a + b)[1..] == a[1..] + b;
      NewlinesAppend(a[1..], b);
    }
  }

  lemma {:induction false} NoNewlines(text: string)
    requires '\n' !in text
    ensures Newlines(text) == 0
    decreases |text|
  {
    if text != "" {
      NoNewlines(text[1..]);
    }
  }

  function Fold<S, C>(f: (S, C) -> S, s: S, t: seq<C>): S {
    if t == [] then s else Fold(f, f(s, t[0]), t[1..])
  }

  lemma {:induction false} FoldAppend<S, C>(f: (S, C) -> S, s: S, a: seq<C>, b: seq<C>)
    ensures Fold(f, s, a + b) == Fold(f, Fold(f, s, a), b)
    decreases |a|
  {
    if a == [] {
      assert a + b == b;
    } else {
      assert (a + b)[1..] == a[1..] + b;
      FoldAppend(f, f(s, a[0]), a[1..], b);
    }
  }

  lemma FoldOne<S, C>(f: (S, C) -> S, s: S, c: C)
    ensures Fold(f, s, [c]) == f(s, c)
  {
    assert [c][1..] == [];
  }

  /** `n` copies of the rune the source reads once its input has ended. */
  function Nuls(n: nat): (s: string) { seq(n, _ => '\0') }
}
