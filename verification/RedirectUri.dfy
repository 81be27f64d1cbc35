/** oauth2_server.go: which redirect addresses a client may use. */
module RedirectUri {
  import opened Common
  import opened Text

  /** The parts of a parsed address that are looked at. */
  datatype Url = Url(scheme: string, host: string, path: string, fragment: string)

  datatype Verdict =
    | Accepted | Blank | Unparsed | HasFragment | SchemeMismatch | HostMismatch | NotSubpath | Traversal

  /** The position of the first slash at or after `n`, or the length. */
  function NextSlash(s: string, n: nat): (k: nat)
    requires n <= |s|
    ensures n <= k <= |s| && (k < |s| ==> s[k] == '/') && forall i :: n <= i < k ==> s[i] != '/'
    decreases |s| - n
  {
    if n == |s| || s[n] == '/' then n else NextSlash(s, n + 1)
  }

  /** strings.Split at slashes. */
  function Segments(s: string): seq<string>
    decreases |s|
  {
    var k := NextSlash(s, 0);
    if k == |s| then [s] else [s[..k]] + Segments(s[k + 1..])
  }

  /** The directory that redirects must lie in. */
  function Directory(base: string): string { TrimRight(base, '/') + "/" }

  predicate Climbs(path: string) { ".." in Segments(path) }

  function PathVerdict(base: string, redirect: string): Verdict {
    if base == redirect then Accepted
    else if !(Directory(base) <= redirect) then NotSubpath
    else if Climbs(redirect[|Directory(base)|..]) then Traversal
    else Accepted
  }

  /** validateURI; `parse` stands for url.Parse. */
  function Validated(parse: string -> Option<Url>, base: string, redirect: string): Verdict {
    if base == "" || redirect == "" then Blank
    else match (parse(base), parse(redirect))
      case (Some(b), Some(r)) =>
        if b.fragment != "" || r.fragment != "" then HasFragment
        else if b.scheme != r.scheme then SchemeMismatch
        else if b.host != r.host then HostMismatch
        else PathVerdict(b.path, r.path)
      case _ => Unparsed
  }

  // ---- What is accepted, stated of the parts ----

  predicate StartsAt(s: string, sep: string, k: nat) { k <= |s| && sep <= s[k..] }

  /** A segment of the path is `..`. */
  predicate HoldsDotDot(s: string) {
    || s == ".." || "../" <= s
    || (|s| >= 3 && s[|s| - 3..] == "/..")
    || (exists k :: 0 <= k <= |s| && StartsAt(s, "/../", k))
  }

  /** The path is the base path without its trailing slashes, a slash, and the rest. */
  predicate Below(base: string, path: string, d: string, rest: string) {
    WithoutTrail(base, '/', d) && path == d + "/" + rest
  }

  ghost predicate PathAllowed(base: string, path: string) {
    path == base || exists d, rest :: Below(base, path, d, rest) && !HoldsDotDot(rest)
  }

  /** Both addresses are there and well formed, without fragments, on one host, and the paths fit. */
  ghost predicate Allowed(parse: string -> Option<Url>, base: string, redirect: string) {
    && base != "" && redirect != "" && parse(base).Some? && parse(redirect).Some?
    && var b, r := parse(base).value, parse(redirect).value;
    && b.fragment == "" && r.fragment == "" && b.scheme == r.scheme && b.host == r.host
    && PathAllowed(b.path, r.path)
  }

  lemma StrippedOnce(path: string, a: string, b: string)
    requires WithoutTrail(path, '/', a) && WithoutTrail(path, '/', b)
    ensures a == b
  {
    assert a == path[..|a|] && b == path[..|b|];
    assert |b| > 0 ==> b[|b| - 1] == path[|b| - 1];
    assert |a| > 0 ==> a[|a| - 1] == path[|a| - 1];
  }

  /** The segment from `i` on is `..`. */
  predicate DotDotAt(s: string, i: nat) {
    && i + 2 <= |s| && s[i] == '.' && s[i + 1] == '.'
    && (i == 0 || s[i - 1] == '/') && (i + 2 == |s| || s[i + 2] == '/')
  }

  lemma DotDotFound(s: string, i: nat)
    requires DotDotAt(s, i)
    ensures HoldsDotDot(s)
  {
    if i == 0 {
      assert |s| == 2 ==> s == "..";
      assert |s| > 2 ==> "../" <= s;
    } else if i + 2 == |s| {
      assert s[i - 1..] == "/..";
    } else {
      assert s[i - 1..][..4] == "/../";
      assert StartsAt(s, "/../", i - 1);
    }
  }

  lemma DotDotStands(s: string) returns (i: nat)
    requires HoldsDotDot(s)
    ensures DotDotAt(s, i)
  {
    if s == ".." || "../" <= s {
      i := 0;
    } else if |s| >= 3 && s[|s| - 3..] == "/.." {
      i := |s| - 2;
      var end := s[i - 1..];
      assert end[0] == s[i - 1] && end[1] == s[i] && end[2] == s[i + 1];
    } else {
      var k :| 0 <= k <= |s| && StartsAt(s, "/../", k);
      i := k + 1;
      var end := s[k..];
      assert end[0] == s[k] && end[1] == s[i] && end[2] == s[i + 1] && end[3] == s[i + 2];
    }
  }

  lemma FirstSegment(s: string, k: nat)
    requires k == NextSlash(s, 0)
    ensures s[..k] == ".." <==> DotDotAt(s, 0)
    ensures forall i :: 0 < i <= k ==> !DotDotAt(s, i)
  {
    if DotDotAt(s, 0) {
      assert k == 2;
    }
  }

  lemma {:induction false} ClimbsAt(s: string, i: nat)
    requires DotDotAt(s, i)
    ensures Climbs(s)
    decreases |s|
  {
    var k := NextSlash(s, 0);
    FirstSegment(s, k);
    if k == |s| {
      assert s[..k] == s;
    } else if i > 0 {
      assert DotDotAt(s[k + 1..], i - k - 1);
      ClimbsAt(s[k + 1..], i - k - 1);
    }
  }

  lemma {:induction false} ClimbStands(s: string) returns (i: nat)
    requires Climbs(s)
    ensures DotDotAt(s, i)
    decreases |s|
  {
    var k := NextSlash(s, 0);
    FirstSegment(s, k);
    if k == |s| {
      i := 0;
      assert s[..k] == s;
    } else if s[..k] == ".." {
      i := 0;
    } else {
      i := ClimbStands(s[k + 1..]);
      i := i + k + 1;
    }
  }

  lemma ClimbsIff(s: string)
    ensures Climbs(s) <==> HoldsDotDot(s)
  {
    if Climbs(s) {
      var i := ClimbStands(s);
      DotDotFound(s, i);
    } else if HoldsDotDot(s) {
      var i := DotDotStands(s);
      ClimbsAt(s, i);
    }
  }

  lemma BelowIs(base: string, path: string, d: string, rest: string)
    requires Below(base, path, d, rest)
    ensures d + "/" == Directory(base) <= path && rest == path[|Directory(base)|..]
  {
    TrimRightIs(base, '/');
    StrippedOnce(base, d, TrimRight(base, '/'));
  }

  /** A redirect is accepted if and only if it is allowed. */
  lemma AcceptedIff(parse: string -> Option<Url>, base: string, redirect: string)
    ensures Validated(parse, base, redirect).Accepted? <==> Allowed(parse, base, redirect)
  {
    if parse(base).Some? && parse(redirect).Some? {
      PathAcceptedIff(parse(base).value.path, parse(redirect).value.path);
    }
  }

  lemma PathAcceptedIff(base: string, path: string)
    ensures PathVerdict(base, path).Accepted? <==> PathAllowed(base, path)
  {
    var d := TrimRight(base, '/');
    TrimRightIs(base, '/');
    if Directory(base) <= path {
      var rest := path[|d| + 1..];
      assert Below(base, path, d, rest);
      ClimbsIff(rest);
    }
    forall e, rest | Below(base, path, e, rest)
      ensures Directory(base) <= path && rest == path[|d| + 1..]
    {
      BelowIs(base, path, e, rest);
    }
  }

  /** The reason given for a refusal is true. */
  ghost predicate Holds(v: Verdict, parse: string -> Option<Url>, base: string, redirect: string) {
    match v
    case Accepted => Allowed(parse, base, redirect)
    case Blank => base == "" || redirect == ""
    case Unparsed => parse(base).None? || parse(redirect).None?
    case _ => parse(base).Some? && parse(redirect).Some? && HoldsOfParts(v, parse(base).value, parse(redirect).value)
  }

  ghost predicate HoldsOfParts(v: Verdict, b: Url, r: Url) {
    match v
    case HasFragment => b.fragment != "" || r.fragment != ""
    case SchemeMismatch => b.scheme != r.scheme
    case HostMismatch => b.host != r.host
    case NotSubpath => r.path != b.path && !exists d, rest :: Below(b.path, r.path, d, rest)
    case Traversal => r.path != b.path && exists d, rest :: Below(b.path, r.path, d, rest) && HoldsDotDot(rest)
    case _ => false
  }

  lemma ReasonHolds(parse: string -> Option<Url>, base: string, redirect: string)
    ensures Holds(Validated(parse, base, redirect), parse, base, redirect)
  {
    AcceptedIff(parse, base, redirect);
    if parse(base).Some? && parse(redirect).Some? {
      var b, p := parse(base).value.path, parse(redirect).value.path;
      var d := TrimRight(b, '/');
      TrimRightIs(b, '/');
      if Directory(b) <= p {
        var rest := p[|d| + 1..];
        assert Below(b, p, d, rest);
        ClimbsIff(rest);
      }
      forall e, rest | Below(b, p, e, rest)
        ensures Directory(b) <= p
      {
        BelowIs(b, p, e, rest);
      }
    }
  }

  method ValidateUri(parse: string -> Option<Url>, base: string, redirect: string) returns (v: Verdict)
    ensures v == Validated(parse, base, redirect)
    ensures v.Accepted? <==> Allowed(parse, base, redirect)
    ensures Holds(v, parse, base, redirect)
  {
    AcceptedIff(parse, base, redirect);
    ReasonHolds(parse, base, redirect);
    if base == "" || redirect == "" {
      return Blank;
    }
    var b, r := parse(base), parse(redirect);
    if b.None? || r.None? {
      return Unparsed;
    }
    if b.value.fragment != "" || r.value.fragment != "" {
      return HasFragment;
    }
    if b.value.scheme != r.value.scheme {
      return SchemeMismatch;
    }
    if b.value.host != r.value.host {
      return HostMismatch;
    }
    if b.value.path == r.value.path {
      return Accepted;
    }
    var prefix := TrimRight(b.value.path, '/') + "/";
    if !(prefix <= r.value.path) {
      return NotSubpath;
    }
    var segments := Segments(r.value.path[|prefix|..]);
    for i := 0 to |segments|
      invariant forall j :: 0 <= j < i ==> segments[j] != ".."
    {
      if segments[i] == ".." {
        return Traversal;
      }
    }
    return Accepted;
  }

  // ---- Lists of addresses ----

  /** strings.Split at occurrences of `sep`, from the left. */
  function SplitFrom(s: string, sep: string, n: nat): seq<string>
    requires sep != "" && n <= |s|
    decreases |s|, |s| - n
  {
    if n == |s| then [s]
    else if sep <= s[n..] then [s[..n]] + SplitFrom(s[n + |sep|..], sep, 0)
    else SplitFrom(s, sep, n + 1)
  }

  function Items(list: string, sep: string): seq<string> {
    if sep == "" then [list] else SplitFrom(list, sep, 0)
  }

  function Joined(items: seq<string>, sep: string): string {
    if items == [] then "" else if |items| == 1 then items[0] else items[0] + sep + Joined(items[1..], sep)
  }

  lemma JoinedCons(item: string, items: seq<string>, sep: string)
    requires items != []
    ensures Joined([item] + items, sep) == item + sep + Joined(items, sep)
  {
    assert ([item] + items)[1..] == items;
  }

  lemma AroundSeparator(s: string, sep: string, n: nat)
    requires n <= |s| && sep <= s[n..]
    ensures n + |sep| <= |s| && s == s[..n] + sep + s[n + |sep|..]
  {
    assert s == s[..n] + s[n..] && s[n..] == sep + s[n..][|sep|..] && s[n..][|sep|..] == s[n + |sep|..];
  }

  lemma {:induction false} SplitUndone(s: string, sep: string, n: nat)
    requires sep != "" && n <= |s|
    ensures SplitFrom(s, sep, n) != [] && Joined(SplitFrom(s, sep, n), sep) == s
    decreases |s|, |s| - n
  {
    if n < |s| {
      if sep <= s[n..] {
        AroundSeparator(s, sep, n);
        var rest := s[n + |sep|..];
        SplitUndone(rest, sep, 0);
        JoinedCons(s[..n], SplitFrom(rest, sep, 0), sep);
      } else {
        SplitUndone(s, sep, n + 1);
      }
    }
  }

  /** The separator does not occur. */
  predicate FreeOf(s: string, sep: string) { forall k :: 0 <= k <= |s| ==> !StartsAt(s, sep, k) }

  lemma FrontIsFree(s: string, sep: string, n: nat)
    requires sep != "" && n <= |s| && forall k :: 0 <= k < n ==> !StartsAt(s, sep, k)
    ensures FreeOf(s[..n], sep)
  {
    forall k | 0 <= k <= n
      ensures !StartsAt(s[..n], sep, k)
    {
      if k < n {
        assert !StartsAt(s, sep, k) && s[..n][k..] == s[k..][..n - k];
      }
    }
  }

  lemma {:induction false} SplitIsFree(s: string, sep: string, n: nat)
    requires sep != "" && n <= |s| && forall k :: 0 <= k < n ==> !StartsAt(s, sep, k)
    ensures forall item <- SplitFrom(s, sep, n) :: FreeOf(item, sep)
    decreases |s|, |s| - n
  {
    FrontIsFree(s, sep, n);
    if n == |s| {
      assert s[..n] == s;
    } else if sep <= s[n..] {
      SplitIsFree(s[n + |sep|..], sep, 0);
    } else {
      SplitIsFree(s, sep, n + 1);
    }
  }

  /** The items of a list make up the list again, and none holds the separator. */
  lemma ItemsMakeTheList(list: string, sep: string)
    ensures Items(list, sep) != [] && Joined(Items(list, sep), sep) == list
    ensures sep != "" ==> forall item <- Items(list, sep) :: FreeOf(item, sep)
  {
    if sep != "" {
      SplitUndone(list, sep, 0);
      SplitIsFree(list, sep, 0);
    }
  }

  /** Accepts exactly when some item of the list accepts the redirect. */
  method ValidateUriList(parse: string -> Option<Url>, baseList: string, redirect: string, sep: string)
    returns (ok: bool)
    ensures ok <==> exists i :: 0 <= i < |Items(baseList, sep)|
                                && Validated(parse, Items(baseList, sep)[i], redirect).Accepted?
  {
    var list := if sep != "" then SplitFrom(baseList, sep, 0) else [baseList];
    for i := 0 to |list|
      invariant forall j :: 0 <= j < i ==> !Validated(parse, list[j], redirect).Accepted?
    {
      var v := ValidateUri(parse, list[i], redirect);
      if v.Accepted? {
        assert list == Items(baseList, sep);
        return true;
      }
    }
    return false;
  }

  // ---- Section 5.2.4 of RFC 3986 ----

  /** The output without its last segment and the slash before it. */
  function DropLast(output: string): string {
    if output == "" then ""
    else if output[|output| - 1] == '/' then output[..|output| - 1]
    else DropLast(output[..|output| - 1])
  }

  datatype Buffers = Buffers(input: string, output: string)

  /** One turn of the loop: its steps A to E. */
  function Turn(b: Buffers): (r: Buffers)
    requires b.input != ""
    ensures |r.input| < |b.input|
  {
    var s := b.input;
    if "../" <= s then Buffers(s[3..], b.output)
    else if "./" <= s then Buffers(s[2..], b.output)
    else if "/./" <= s then Buffers("/" + s[3..], b.output)
    else if s == "/." then Buffers("/", b.output)
    else if "/../" <= s then Buffers("/" + s[4..], DropLast(b.output))
    else if s == "/.." then Buffers("/", DropLast(b.output))
    else if s == "." || s == ".." then Buffers("", b.output)
    else var n := NextSlash(s, 1); Buffers(s[n..], b.output + s[..n])
  }

  function Resolved(b: Buffers): string
    decreases |b.input|
  {
    if b.input == "" then b.output else Resolved(Turn(b))
  }

  /** A path with its dot segments removed. */
  function RemoveDots(path: string): string { Resolved(Buffers(path, "")) }

  predicate Absolute(path: string) { path != "" && path[0] == '/' }

  /** On an absolute path a turn deals with the first segment. */
  function TurnOnSegment(s: string, n: nat, output: string): Buffers
    requires 0 < n <= |s|
  {
    var left := if n < |s| then s[n..] else "/";
    if s[1..n] == "." then Buffers(left, output)
    else if s[1..n] == ".." then Buffers(left, DropLast(output))
    else Buffers(s[n..], output + s[..n])
  }

  lemma SegmentIs(s: string, n: nat)
    requires 1 <= n <= |s|
    ensures s[1..n] == "." <==> n == 2 && s[1] == '.'
    ensures s[1..n] == ".." <==> n == 3 && s[1] == '.' && s[2] == '.'
  {
    var seg := s[1..n];
    assert n >= 2 ==> seg[0] == s[1];
    assert n >= 3 ==> seg[1] == s[2];
  }

  lemma TurnOnAbsolute(s: string, output: string)
    requires Absolute(s)
    ensures Turn(Buffers(s, output)) == TurnOnSegment(s, NextSlash(s, 1), output)
  {
    var n := NextSlash(s, 1);
    assert "/./" <= s <==> |s| >= 3 && s[1] == '.' && s[2] == '/';
    assert "/../" <= s <==> |s| >= 4 && s[1] == '.' && s[2] == '.' && s[3] == '/';
    assert s == "/." <==> |s| == 2 && s[1] == '.';
    assert s == "/.." <==> |s| == 3 && s[1] == '.' && s[2] == '.';
    SegmentIs(s, n);
    if "/./" <= s {
      assert "/" + s[3..] == s[2..];
    } else if "/../" <= s {
      assert "/" + s[4..] == s[3..];
    }
  }

  /** A turn on a directory does not look at what follows it. */
  lemma TurnInDirectory(d: string, rest: string, output: string)
    requires |d| >= 2 && d[0] == '/' && d[|d| - 1] == '/'
    ensures var t := Turn(Buffers(d, output));
      && Absolute(t.input) && t.input[|t.input| - 1] == '/'
      && Turn(Buffers(d + rest, output)) == Buffers(t.input + rest, t.output)
  {
    var s, n := d + rest, NextSlash(d, 1);
    TurnOnAbsolute(d, output);
    TurnOnAbsolute(s, output);
    SameSlash(d, rest, 1);
    SameSegment(d, rest, n, output);
  }

  lemma SameSegment(d: string, rest: string, n: nat, output: string)
    requires 0 < n < |d| && d[n] == '/' && d[|d| - 1] == '/'
    ensures var t := TurnOnSegment(d, n, output);
      && Absolute(t.input) && t.input[|t.input| - 1] == '/'
      && TurnOnSegment(d + rest, n, output) == Buffers(t.input + rest, t.output)
  {
    var s := d + rest;
    assert s[n..] == d[n..] + rest && s[..n] == d[..n] && s[1..n] == d[1..n];
  }

  lemma {:induction false} SameSlash(d: string, rest: string, n: nat)
    requires n < |d| && d[|d| - 1] == '/'
    ensures NextSlash(d + rest, n) == NextSlash(d, n) < |d|
    decreases |d| - n
  {
    if d[n] != '/' {
      SameSlash(d, rest, n + 1);
    }
  }

  /** The turn on the first segment, up to `k`, of what follows a directory, unless it is `..`. */
  function TurnBehind(rest: string, k: nat, output: string): Buffers
    requires k <= |rest|
  {
    if rest[..k] != "." then Buffers(rest[k..], output + ("/" + rest[..k]))
    else Buffers(if k < |rest| then rest[k..] else "/", output)
  }

  lemma SegmentBehind(s: string, rest: string, k: nat, n: nat, output: string)
    requires s == "/" + rest && k <= |rest| && n == k + 1 && rest[..k] != ".."
    ensures TurnOnSegment(s, n, output) == TurnBehind(rest, k, output)
  {
    assert s[1..n] == rest[..k];
    assert s[n..] == rest[k..];
    assert s[..n] == "/" + rest[..k];
  }

  lemma ResolvedTurn(s: string, n: nat, output: string)
    requires Absolute(s) && n == NextSlash(s, 1)
    ensures Resolved(Buffers(s, output)) == Resolved(TurnOnSegment(s, n, output))
  {
    TurnOnAbsolute(s, output);
  }

  lemma StepBehind(s: string, rest: string, k: nat, output: string)
    requires s == "/" + rest && k == NextSlash(rest, 0) && rest[..k] != ".."
    ensures Resolved(Buffers(s, output)) == Resolved(TurnBehind(rest, k, output))
  {
    SlashBehind(rest, 0);
    var n := NextSlash(s, 1);
    ResolvedTurn(s, n, output);
    SegmentBehind(s, rest, k, n, output);
  }

  lemma SlashAlone(output: string)
    ensures Resolved(Buffers("/", output)) == output + "/"
  {
    assert Turn(Buffers("/", output)) == Buffers("", output + "/");
  }

  /** Without `..` among its segments, what follows a directory only adds to the output. */
  lemma {:induction false} OnlyAdds(rest: string, output: string) returns (r: string)
    requires !Climbs(rest)
    ensures r == Resolved(Buffers("/" + rest, output)) && output + "/" <= r
    decreases |rest|
  {
    var k := NextSlash(rest, 0);
    assert Segments(rest)[0] == rest[..k];
    StepBehind("/" + rest, rest, k, output);
    SlashAlone(output);
    if k < |rest| {
      assert rest[k..] == "/" + rest[k + 1..] && Segments(rest)[1..] == Segments(rest[k + 1..]);
      r := OnlyAdds(rest[k + 1..], if rest[..k] == "." then output else output + ("/" + rest[..k]));
    } else if rest == "." {
      r := output + "/";
    } else {
      r := output + ("/" + rest);
      assert rest[..k] == rest && rest[k..] == "";
    }
  }

  lemma {:induction false} SlashBehind(rest: string, n: nat)
    requires n <= |rest|
    ensures NextSlash("/" + rest, n + 1) == NextSlash(rest, n) + 1
    decreases |rest| - n
  {
    if n < |rest| && rest[n] != '/' {
      SlashBehind(rest, n + 1);
    }
  }

  /** A path below a directory resolves to a path below the directory's own resolution. */
  lemma {:induction false} StaysBelow(d: string, rest: string, output: string)
    requires Absolute(d) && d[|d| - 1] == '/' && !Climbs(rest)
    ensures Resolved(Buffers(d, output)) <= Resolved(Buffers(d + rest, output))
    decreases |d|
  {
    if d == "/" {
      var r := OnlyAdds(rest, output);
      SlashAlone(output);
    } else {
      TurnInDirectory(d, rest, output);
      var t := Turn(Buffers(d, output));
      StaysBelow(t.input, rest, t.output);
    }
  }

  /**
    * An accepted redirect has the scheme and host of the base and no fragment, as section 3.1.2 of
    * RFC 6749 wants, and its path is that of the base or resolves to one below the base path.
    */
  lemma RedirectIsContained(parse: string -> Option<Url>, base: string, redirect: string)
    requires Validated(parse, base, redirect).Accepted?
    requires parse(base).Some? ==> parse(base).value.path == "" || Absolute(parse(base).value.path)
    ensures parse(base).Some? && parse(redirect).Some?
    ensures var b, r := parse(base).value, parse(redirect).value;
      && r.scheme == b.scheme && r.host == b.host && r.fragment == "" && b.fragment == ""
      && (r.path == b.path || forall d :: WithoutTrail(b.path, '/', d) ==> RemoveDots(d + "/") <= RemoveDots(r.path))
  {
    AcceptedIff(parse, base, redirect);
    var b, r := parse(base).value, parse(redirect).value;
    if r.path != b.path {
      var d, rest :| Below(b.path, r.path, d, rest) && !HoldsDotDot(rest);
      ClimbsIff(rest);
      StaysBelow(d + "/", rest, "");
      forall e | WithoutTrail(b.path, '/', e)
        ensures e == d
      {
        StrippedOnce(b.path, d, e);
      }
    }
  }

  predicate DotFree(path: string) { "." !in Segments(path) && ".." !in Segments(path) }

  lemma SegmentsSplit(rest: string, k: nat)
    requires k == NextSlash(rest, 0) < |rest|
    ensures rest[..k] in Segments(rest) && forall seg <- Segments(rest[k + 1..]) :: seg in Segments(rest)
  {
    var later := Segments(rest[k + 1..]);
    assert Segments(rest) == [rest[..k]] + later;
    assert forall i :: 0 <= i < |later| ==> ([rest[..k]] + later)[i + 1] == later[i];
  }

  lemma DotFreeSplit(rest: string, k: nat)
    requires DotFree(rest) && k == NextSlash(rest, 0)
    ensures rest[..k] != "." && rest[..k] != ".."
    ensures k < |rest| ==> DotFree(rest[k + 1..])
  {
    if k == |rest| {
      assert rest[..k] == rest && rest in Segments(rest);
    } else {
      SegmentsSplit(rest, k);
    }
  }

  lemma Rejoined(s: string, rest: string, k: nat, output: string)
    requires s == "/" + rest && k <= |rest|
    ensures output + ("/" + rest[..k]) + rest[k..] == output + s
    ensures k < |rest| && rest[k] == '/' ==> rest[k..] == "/" + rest[k + 1..]
  {
    assert rest == rest[..k] + rest[k..];
  }

  lemma PlainTurn(s: string, rest: string, k: nat, output: string, left: string, more: string)
    requires s == "/" + rest && DotFree(rest) && k == NextSlash(rest, 0)
    requires left == rest[k..] && more == output + ("/" + rest[..k])
    ensures Resolved(Buffers(s, output)) == Resolved(Buffers(left, more))
  {
    DotFreeSplit(rest, k);
    StepBehind(s, rest, k, output);
  }

  lemma ResolvedEnd(output: string)
    ensures Resolved(Buffers("", output)) == output
  {
  }

  lemma {:induction false} PlainOnlyAdds(s: string, rest: string, output: string)
    requires s == "/" + rest && DotFree(rest)
    ensures Resolved(Buffers(s, output)) == output + s
    decreases |rest|
  {
    var k := NextSlash(rest, 0);
    var left, more := rest[k..], output + ("/" + rest[..k]);
    PlainTurn(s, rest, k, output, left, more);
    Rejoined(s, rest, k, output);
    if k < |rest| {
      DotFreeSplit(rest, k);
      PlainOnlyAdds(left, rest[k + 1..], more);
    } else {
      ResolvedEnd(more);
    }
  }

  /** Removing dot segments changes nothing of an absolute path without them. */
  lemma PlainIsResolved(path: string)
    requires Absolute(path) && DotFree(path[1..])
    ensures RemoveDots(path) == path
  {
    assert path == "/" + path[1..];
    PlainOnlyAdds(path, path[1..], "");
  }
}
