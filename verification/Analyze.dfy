/** config_analyze.go: the check of a directive's terminator and number of arguments. */
module ConfigAnalyze {
  type Mask = bv64

  const CONF_BLOCK: Mask := 0x100
  const CONF_FLAG: Mask := 0x200
  const CONF_ANY: Mask := 0x400
  const CONF_1_MORE: Mask := 0x800
  const CONF_2_MORE: Mask := 0x1000

  datatype Verdict = Fine | UnknownDirective | BadArguments

  function Lower(c: char): char {
    if 'A' <= c <= 'Z' then ((c as int) + 32) as char else c
  }

  function ToLower(s: string): string {
    if s == "" then "" else [Lower(s[0])] + ToLower(s[1..])
  }

  predicate ValidFlag(s: string) { ToLower(s) == "on" || ToLower(s) == "off" }

  predicate Bit(mask: Mask, bit: Mask) { mask & bit != 0 }

  /** The mask allows exactly `n` arguments, for n up to seven. */
  predicate TakesExactly(mask: Mask, n: nat) { n <= 7 && (mask >> n) & 1 != 0 }

  /** The mask admits the terminator and the arguments. */
  predicate Admits(mask: Mask, term: string, args: seq<string>) {
    && (if Bit(mask, CONF_BLOCK) then term == "{" else term == ";")
    && (|| TakesExactly(mask, |args|)
        || (Bit(mask, CONF_FLAG) && |args| == 1 && ValidFlag(args[0]))
        || Bit(mask, CONF_ANY)
        || (Bit(mask, CONF_1_MORE) && |args| >= 1)
        || (Bit(mask, CONF_2_MORE) && |args| >= 2))
  }

  // ---- The masks, flag by flag ----

  /** The flag for exactly `n` arguments. */
  function TakeFlag(n: nat): Mask
    requires n <= 7
  {
    [0x01, 0x02, 0x04, 0x08, 0x10, 0x20, 0x40, 0x80][n]
  }

  lemma TakesIs(mask: Mask, n: nat)
    ensures TakesExactly(mask, n) <==> n <= 7 && Bit(mask, TakeFlag(n))
  {
    if n == 0 {
      assert (mask >> 0) & 1 != 0 <==> mask & 0x01 != 0;
    } else if n == 1 {
      assert (mask >> 1) & 1 != 0 <==> mask & 0x02 != 0;
    } else if n == 2 {
      assert (mask >> 2) & 1 != 0 <==> mask & 0x04 != 0;
    } else if n == 3 {
      assert (mask >> 3) & 1 != 0 <==> mask & 0x08 != 0;
    } else if n == 4 {
      assert (mask >> 4) & 1 != 0 <==> mask & 0x10 != 0;
    } else if n == 5 {
      assert (mask >> 5) & 1 != 0 <==> mask & 0x20 != 0;
    } else if n == 6 {
      assert (mask >> 6) & 1 != 0 <==> mask & 0x40 != 0;
    } else if n == 7 {
      assert (mask >> 7) & 1 != 0 <==> mask & 0x80 != 0;
    }
  }

  /** `on` or `off`, in whatever case. */
  predicate OnOff(s: string) {
    || (|s| == 2 && s[0] in "oO" && s[1] in "nN")
    || (|s| == 3 && s[0] in "oO" && s[1] in "fF" && s[2] in "fF")
  }

  lemma {:induction false} ToLowerIs(s: string)
    ensures |ToLower(s)| == |s| && forall i :: 0 <= i < |s| ==> ToLower(s)[i] == Lower(s[i])
    decreases |s|
  {
    if s != "" {
      ToLowerIs(s[1..]);
    }
  }

  lemma ValidFlagIs(s: string)
    ensures ValidFlag(s) <==> OnOff(s)
  {
    ToLowerIs(s);
    assert forall c: char :: (Lower(c) == 'o' <==> c in "oO") && (Lower(c) == 'n' <==> c in "nN");
    assert forall c: char :: Lower(c) == 'f' <==> c in "fF";
    var t := ToLower(s);
    assert t == "on" <==> |t| == 2 && t[0] == 'o' && t[1] == 'n';
    assert t == "off" <==> |t| == 3 && t[0] == 'o' && t[1] == 'f' && t[2] == 'f';
  }

  /** A number of arguments has a flag of its own, and that flag admits no other number. */
  lemma TakeFlagMeans(n: nat, args: seq<string>)
    requires n <= 7
    ensures Admits(TakeFlag(n), ";", args) <==> |args| == n
  {
    TakesIs(TakeFlag(n), |args|);
  }

  /** The other flags of a simple directive. */
  lemma StyleFlagsMean(args: seq<string>)
    ensures Admits(0x200, ";", args) <==> |args| == 1 && OnOff(args[0])
    ensures Admits(0x400, ";", args)
    ensures Admits(0x800, ";", args) <==> |args| >= 1
    ensures Admits(0x1000, ";", args) <==> |args| >= 2
  {
    TakesIs(0x200, |args|);
    TakesIs(0x800, |args|);
    TakesIs(0x1000, |args|);
    if |args| == 1 {
      ValidFlagIs(args[0]);
    }
  }

  /** The flags of contexts admit nothing by themselves. */
  lemma ContextFlagsAdmitNothing(mask: Mask, term: string, args: seq<string>)
    requires mask & 0x1fff == 0
    ensures !Admits(mask, term, args)
  {
    TakesIs(mask, |args|);
  }

  /** A mask of simple directives wants a semicolon; with the block flag, a brace and the same arguments. */
  lemma BlockFlagMeans(mask: Mask, term: string, args: seq<string>)
    requires mask & 0x100 == 0
    ensures Admits(mask, term, args) <==> term == ";" && Admits(mask, ";", args)
    ensures Admits(mask | 0x100, term, args) <==> term == "{" && Admits(mask, ";", args)
  {
    TakesIs(mask, |args|);
    TakesIs(mask | 0x100, |args|);
  }

  lemma BitsUnite(a: Mask, b: Mask, bit: Mask)
    ensures Bit(a | b, bit) <==> Bit(a, bit) || Bit(b, bit)
  {
    assert (a | b) & bit == (a & bit) | (b & bit);
  }

  lemma TakesUnite(a: Mask, b: Mask, n: nat)
    ensures TakesExactly(a | b, n) <==> TakesExactly(a, n) || TakesExactly(b, n)
  {
    TakesIs(a, n);
    TakesIs(b, n);
    TakesIs(a | b, n);
    if n <= 7 {
      BitsUnite(a, b, TakeFlag(n));
    }
  }

  /** Flags taken together admit what one of them admits. */
  lemma FlagsUnite(a: Mask, b: Mask, args: seq<string>)
    requires a & 0x100 == 0 && b & 0x100 == 0
    ensures Admits(a | b, ";", args) <==> Admits(a, ";", args) || Admits(b, ";", args)
  {
    TakesUnite(a, b, |args|);
    BitsUnite(a, b, CONF_BLOCK);
    BitsUnite(a, b, CONF_FLAG);
    BitsUnite(a, b, CONF_ANY);
    BitsUnite(a, b, CONF_1_MORE);
    BitsUnite(a, b, CONF_2_MORE);
  }

  predicate SomeAdmits(masks: seq<Mask>, term: string, args: seq<string>) {
    exists i :: 0 <= i < |masks| && Admits(masks[i], term, args)
  }

  /** The names of a context, joined by commas. */
  function ToCtx(ctx: seq<string>): string {
    if ctx == [] then "" else if |ctx| == 1 then ctx[0] else ctx[0] + "," + ToCtx(ctx[1..])
  }

  predicate CommaFree(ctx: seq<string>) { forall name <- ctx :: ',' !in name }

  lemma FirstName(ctx: seq<string>)
    requires CommaFree(ctx) && |ctx| > 1
    ensures var s, n := ToCtx(ctx), |ctx[0]|;
      n < |s| && s[n] == ',' && s[..n] == ctx[0] && s[n + 1..] == ToCtx(ctx[1..])
      && forall i :: 0 <= i < n ==> s[i] != ','
  {
    assert ctx[0] in ctx;
  }

  /** Contexts without commas in their names are told apart by their key. */
  lemma {:induction false} ContextKeysDiffer(a: seq<string>, b: seq<string>)
    requires a != [] && b != [] && CommaFree(a) && CommaFree(b) && ToCtx(a) == ToCtx(b)
    ensures a == b
    decreases |a|
  {
    assert a[0] in a && b[0] in b;
    if |a| > 1 {
      FirstName(a);
    }
    if |b| > 1 {
      FirstName(b);
    }
    if |a| > 1 && |b| > 1 {
      ContextKeysDiffer(a[1..], b[1..]);
      assert a == [a[0]] + a[1..] && b == [b[0]] + b[1..];
    }
  }

  function Mirror(s: seq<Mask>): (r: seq<Mask>)
    ensures |r| == |s| && forall i :: 0 <= i < |s| ==> r[i] == s[|s| - 1 - i]
  {
    if s == [] then [] else Mirror(s[1..]) + [s[0]]
  }

  lemma MirrorTwice(s: seq<Mask>)
    ensures Mirror(Mirror(s)) == s
  {
  }

  lemma MirrorAdmits(s: seq<Mask>, term: string, args: seq<string>)
    ensures SomeAdmits(Mirror(s), term, args) == SomeAdmits(s, term, args)
  {
    forall i | 0 <= i < |s|
      ensures Mirror(s)[|s| - 1 - i] == s[i]
    {
    }
  }

  /** Swaps the elements of the shared slice end for end. */
  method Reverse(a: array<Mask>)
    modifies a
    ensures a[..] == Mirror(old(a[..]))
  {
    var i, j := 0, a.Length - 1;
    while i < j
      invariant 0 <= i && i + j == a.Length - 1
      invariant forall k :: 0 <= k < a.Length && (k < i || k > j) ==> a[k] == old(a[a.Length - 1 - k])
      invariant forall k :: i <= k <= j ==> a[k] == old(a[k])
    {
      a[i], a[j] := a[j], a[i];
      i, j := i + 1, j - 1;
    }
  }

  /** The directive table, whose mask slices are reversed in place by every check that gets to them. */
  class Analyzer {
    const directives: map<string, array<Mask>>
    const contexts: map<string, Mask>
    /** The table as it was written. */
    ghost const original: map<string, seq<Mask>>

    ghost predicate Valid()
      reads this, directives.Values
    {
      && directives.Keys == original.Keys
      && (forall d, e :: d in directives && e in directives && d != e ==> directives[d] != directives[e])
      && (forall d :: d in directives ==>
            directives[d][..] == original[d] || directives[d][..] == Mirror(original[d]))
    }

    constructor (directives: map<string, array<Mask>>, contexts: map<string, Mask>)
      requires forall d, e :: d in directives && e in directives && d != e ==> directives[d] != directives[e]
      ensures Valid() && this.directives == directives && this.contexts == contexts
      ensures forall d :: d in directives ==> original[d] == directives[d][..]
    {
      this.directives, this.contexts := directives, contexts;
      original := map d | d in directives :: directives[d][..];
    }

    /** The loop over the masks: whether one of them admits the statement. */
    method Check(masks: array<Mask>, term: string, args: seq<string>) returns (reasons: nat, ok: bool)
      ensures ok <==> SomeAdmits(masks[..], term, args)
      ensures !ok ==> reasons == masks.Length
    {
      reasons := 0;
      for i := 0 to masks.Length
        invariant reasons == i
        invariant forall j :: 0 <= j < i ==> !Admits(masks[j], term, args)
      {
        var mask := masks[i];
        if Bit(mask, CONF_BLOCK) && term != "{" {
          reasons := reasons + 1;
          continue;
        }
        if !Bit(mask, CONF_BLOCK) && term != ";" {
          reasons := reasons + 1;
          continue;
        }
        var n := |args|;
        if (n <= 7 && (mask >> n) & 1 != 0)
          || (Bit(mask, CONF_FLAG) && n == 1 && ValidFlag(args[0]))
          || Bit(mask, CONF_ANY)
          || (Bit(mask, CONF_1_MORE) && n >= 1)
          || (Bit(mask, CONF_2_MORE) && n >= 2) {
          assert masks[..][i] == mask;
          return reasons, true;
        }
        reasons := reasons + 1;
      }
      return reasons, false;
    }

    /** The check of the arguments: reverses the slice and goes through it. */
    method CheckArgs(masks: array<Mask>, ghost was: seq<Mask>, term: string, args: seq<string>) returns (bad: bool)
      requires masks[..] == was || masks[..] == Mirror(was)
      modifies masks
      ensures masks[..] == was || masks[..] == Mirror(was)
      ensures bad <==> was != [] && !SomeAdmits(was, term, args)
    {
      MirrorTwice(was);
      Reverse(masks);
      var reasons, ok := Check(masks, term, args);
      MirrorAdmits(was, term, args);
      return !ok && reasons > 0;
    }

    /**
      * Every call, after any calls before it, gives the verdict of the table as it was written,
      * and leaves every slice the original or its mirror. The check of the context never rejects.
      */
    method Analyze(directive: string, term: string, args: seq<string>, ctx: seq<string>, strict: bool,
                   checkCtx: bool, checkArgs: bool) returns (v: Verdict)
      requires Valid()
      modifies directives.Values
      ensures Valid()
      ensures v.UnknownDirective? <==> strict && directive !in original
      ensures v.BadArguments? <==>
        && directive in original && ToCtx(ctx) in contexts && checkArgs
        && original[directive] != [] && !SomeAdmits(original[directive], term, args)
    {
      var known := directive in directives;
      if strict && !known {
        return UnknownDirective;
      }
      if ToCtx(ctx) !in contexts || !known {
        return Fine;
      }
      var masks := directives[directive];
      if checkCtx {
        var pass := true;
        for i := 0 to masks.Length
          invariant pass
        {
          if Bit(masks[i], contexts[ToCtx(ctx)]) {
            pass := true;
            break;
          }
        }
        if !pass {
          return UnknownDirective;
        }
      }
      if !checkArgs {
        return Fine;
      }
      var bad := CheckArgs(masks, original[directive], term, args);
      return if bad then BadArguments else Fine;
    }
  }
}
