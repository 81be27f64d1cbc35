/** config_parse.go: the arguments of `if`, without the parentheses around the condition. */
module IfArguments {
  import opened Text

  function NonEmpty(args: seq<string>): seq<string> {
    if args == [] then [] else (if args[0] == "" then [] else [args[0]]) + NonEmpty(args[1..])
  }

  /** The first argument begins with a parenthesis, and the last ends with one. */
  predicate Wrapped(args: seq<string>) {
    |args| > 0 && args[0] != "" && args[0][0] == '(' && EndsWith(args[|args| - 1], ')')
  }

  function Bare(args: seq<string>): seq<string>
    requires |args| > 0
  {
    var left := args[0 := TrimLeft(args[0], '(')];
    left[|args| - 1 := TrimRight(left[|args| - 1], ')')]
  }

  function Unwrapped(args: seq<string>): seq<string> {
    if Wrapped(args) then NonEmpty(Bare(args)) else args
  }

  lemma {:induction false} NonEmptyOneMore(args: seq<string>, arg: string)
    ensures NonEmpty(args + [arg]) == NonEmpty(args) + if arg == "" then [] else [arg]
    decreases |args|
  {
    if args == [] {
      assert [] + [arg] == [arg] && [arg][1..] == [];
    } else {
      assert (args + [arg])[1..] == args[1..] + [arg];
      NonEmptyOneMore(args[1..], arg);
    }
  }

  /** Moves the arguments that are not empty to the front. */
  method Compact(args: array<string>) returns (n: nat)
    modifies args
    ensures n <= args.Length && args[..n] == NonEmpty(old(args[..]))
  {
    ghost var parts := args[..];
    n := 0;
    for i := 0 to args.Length
      invariant n <= i && args[..n] == NonEmpty(parts[..i])
      invariant forall j :: i <= j < args.Length ==> args[j] == parts[j]
    {
      assert parts[..i + 1] == parts[..i] + [parts[i]];
      NonEmptyOneMore(parts[..i], parts[i]);
      if args[i] != "" {
        args[n] := args[i];
        n := n + 1;
      }
    }
    assert parts[..args.Length] == parts;
  }

  /** Trims and compacts the arguments in place; the first `n` are left. */
  method PrepareIfArgs(args: array<string>) returns (n: nat)
    modifies args
    ensures n <= args.Length && args[..n] == Unwrapped(old(args[..]))
  {
    if args.Length == 0 || args[0] == "" || args[0][0] != '(' || !EndsWith(args[args.Length - 1], ')') {
      return args.Length;
    }
    args[0] := TrimLeft(args[0], '(');
    args[args.Length - 1] := TrimRight(args[args.Length - 1], ')');
    assert args[..] == Bare(old(args[..]));
    n := Compact(args);
  }

  // ---- What is left of the arguments ----

  /** The arguments without the parentheses that lead the first and end the last. */
  ghost predicate Bared(args: seq<string>, parts: seq<string>) {
    && 0 < |args| == |parts|
    && (forall i :: 0 < i < |args| - 1 ==> parts[i] == args[i])
    && if |args| == 1 then
         exists mid :: WithoutLead(args[0], '(', mid) && WithoutTrail(mid, ')', parts[0])
       else
         WithoutLead(args[0], '(', parts[0]) && WithoutTrail(args[|args| - 1], ')', parts[|args| - 1])
  }

  /** `some` are the strings of `all` at the places `at`, in order, and the others are empty. */
  predicate NotEmptyAt(some: seq<string>, all: seq<string>, at: seq<nat>) {
    && |at| == |some|
    && (forall i :: 0 <= i < |at| ==> at[i] < |all| && some[i] == all[at[i]])
    && (forall i, j :: 0 <= i < j < |at| ==> at[i] < at[j])
    && (forall k :: 0 <= k < |all| ==> (all[k] != "" <==> k in at))
  }

  lemma NotEmptyOneMore(some: seq<string>, all: seq<string>, at: seq<nat>, arg: string)
    requires NotEmptyAt(some, all, at)
    ensures arg == "" ==> NotEmptyAt(some, all + [arg], at)
    ensures arg != "" ==> NotEmptyAt(some + [arg], all + [arg], at + [|all|])
  {
    assert forall k :: k in at ==> k < |all|;
    assert forall k :: k in at + [|all|] <==> k in at || k == |all|;
  }

  lemma {:induction false} NonEmptyIs(args: seq<string>) returns (at: seq<nat>)
    ensures NotEmptyAt(NonEmpty(args), args, at)
    decreases |args|
  {
    at := [];
    if args != [] {
      var n := |args| - 1;
      var front := args[..n];
      at := NonEmptyIs(front);
      NonEmptyOneMore(front, args[n]);
      NotEmptyOneMore(NonEmpty(front), front, at, args[n]);
      assert args == front + [args[n]];
      if args[n] != "" {
        at := at + [n];
      }
    }
  }

  function Concat(parts: seq<string>): string { if parts == [] then "" else parts[0] + Concat(parts[1..]) }

  lemma {:induction false} ConcatNonEmpty(parts: seq<string>)
    ensures Concat(NonEmpty(parts)) == Concat(parts)
    decreases |parts|
  {
    if parts != [] {
      ConcatNonEmpty(parts[1..]);
      if parts[0] == "" {
        assert NonEmpty(parts) == NonEmpty(parts[1..]);
        assert "" + Concat(parts[1..]) == Concat(parts[1..]);
      } else {
        assert NonEmpty(parts)[1..] == NonEmpty(parts[1..]);
      }
    }
  }

  lemma {:induction false} ConcatOneMore(parts: seq<string>, part: string)
    ensures Concat(parts + [part]) == Concat(parts) + part
    decreases |parts|
  {
    if parts == [] {
      assert [] + [part] == [part] && [part][1..] == [];
    } else {
      assert (parts + [part])[1..] == parts[1..] + [part];
      ConcatOneMore(parts[1..], part);
    }
  }

  lemma ConcatCons(part: string, parts: seq<string>)
    ensures Concat([part] + parts) == part + Concat(parts)
  {
    assert ([part] + parts)[1..] == parts;
  }

  /** First, inner and last. */
  lemma ConcatThree(parts: seq<string>, inner: seq<string>)
    requires |parts| >= 2 && inner == parts[1..|parts| - 1]
    ensures Concat(parts) == parts[0] + (Concat(inner) + parts[|parts| - 1])
  {
    var last := parts[|parts| - 1];
    assert parts == [parts[0]] + (inner + [last]);
    ConcatCons(parts[0], inner + [last]);
    ConcatOneMore(inner, last);
  }

  lemma Middle(a: string, b: string, c: string, d: string, e: string)
    ensures (a + b + (c + (d + e)))[|a|..|a| + |b| + |c| + |d|] == b + (c + d)
  {
    assert a + b + (c + (d + e)) == a + (b + (c + d)) + e;
  }

  /** `s` without its first `n` and its last `m` runes. */
  predicate Cut(s: string, n: nat, m: nat, t: string) { n + m <= |s| && t == s[n..|s| - m] }

  lemma BareConcat(args: seq<string>, parts: seq<string>, n: nat, m: nat)
    requires |args| == |parts| >= 2 && Bared(args, parts)
    requires n == |args[0]| - |parts[0]| && m == |args[|args| - 1]| - |parts[|args| - 1]|
    ensures Cut(Concat(args), n, m, Concat(parts))
  {
    var k := |args| - 1;
    var inner := args[1..k];
    assert parts[1..k] == inner;
    ConcatThree(args, inner);
    ConcatThree(parts, inner);
    assert args[0] == args[0][..n] + parts[0] && args[k] == parts[k] + args[k][|parts[k]|..];
    Middle(args[0][..n], parts[0], Concat(inner), parts[k], args[k][|parts[k]|..]);
  }

  lemma ConcatOne(parts: seq<string>)
    requires |parts| == 1
    ensures Concat(parts) == parts[0]
  {
    assert parts == [] + [parts[0]] && Concat([]) == "";
    ConcatOneMore([], parts[0]);
  }

  lemma BareOne(args: seq<string>, mid: string, parts: seq<string>, n: nat, m: nat)
    requires |args| == |parts| == 1 && WithoutLead(args[0], '(', mid) && WithoutTrail(mid, ')', parts[0])
    requires n == |args[0]| - |mid| && m == |mid| - |parts[0]|
    ensures Cut(Concat(args), n, m, Concat(parts))
  {
    ConcatOne(args);
    ConcatOne(parts);
  }

  lemma BareIs(args: seq<string>) returns (n: nat, m: nat)
    requires Wrapped(args)
    ensures Bared(args, Bare(args)) && 0 < n && 0 < m && Cut(Concat(args), n, m, Concat(Bare(args)))
  {
    var parts, k := Bare(args), |args| - 1;
    var mid := TrimLeft(args[0], '(');
    TrimLeftIs(args[0], '(');
    n := |args[0]| - |mid|;
    if k == 0 {
      TrimRightIs(mid, ')');
      m := |mid| - |parts[0]|;
      BareOne(args, mid, parts, n, m);
    } else {
      TrimRightIs(args[k], ')');
      m := |args[k]| - |parts[k]|;
      BareConcat(args, parts, n, m);
    }
  }

  /**
    * Arguments without parentheses around them are kept. Otherwise the parentheses that lead the
    * first and end the last are taken off, `n` and `m` of them, and empty arguments are left out.
    */
  lemma UnwrappedIs(args: seq<string>) returns (parts: seq<string>, at: seq<nat>, n: nat, m: nat)
    ensures !Wrapped(args) ==> Unwrapped(args) == args
    ensures Wrapped(args) ==>
      && Bared(args, parts) && NotEmptyAt(Unwrapped(args), parts, at)
      && 0 < n && 0 < m && Cut(Concat(args), n, m, Concat(Unwrapped(args)))
  {
    parts, at, n, m := [], [], 0, 0;
    if Wrapped(args) {
      parts := Bare(args);
      at := NonEmptyIs(parts);
      ConcatNonEmpty(parts);
      n, m := BareIs(args);
    }
  }
}
