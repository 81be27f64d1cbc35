/** strconv.Quote, as the printer uses it, against the string literals of the Go specification. */
module GoStrings {
  import opened Common
  import opened ConfigBuild
  import WrittenTokens

  function Digit(c: char): Option<nat> {
    if '0' <= c <= '9' then Some(c as int - '0' as int)
    else if 'a' <= c <= 'f' then Some(c as int - 'a' as int + 10)
    else None
  }

  /** The number that hexadecimal digits stand for. */
  function HexValue(s: string): Option<nat> {
    if s == "" then Some(0)
    else match (HexValue(s[..|s| - 1]), Digit(s[|s| - 1]))
      case (Some(n), Some(d)) => Some(16 * n + d)
      case _ => None
  }

  function RuneOf(n: nat): Option<char> {
    if n < 0xD800 || 0xE000 <= n < 0x110000 then Some(n as char) else None
  }

  /** How many hexadecimal digits follow the letter of an escape. */
  function DigitsOf(letter: char): nat {
    if letter == 'x' then 2 else if letter == 'u' then 4 else if letter == 'U' then 8 else 0
  }

  /** The rune of an escape by one letter. */
  function Named(letter: char): Option<char> {
    match letter
    case 'a' => RuneOf(7)
    case 'b' => RuneOf(8)
    case 't' => RuneOf(9)
    case 'n' => RuneOf(10)
    case 'v' => RuneOf(11)
    case 'f' => RuneOf(12)
    case 'r' => RuneOf(13)
    case '\\' => Some('\\')
    case '"' => Some('"')
    case _ => None
  }

  function Cons(c: Option<char>, rest: Option<string>): Option<string> {
    if c.Some? && rest.Some? then Some([c.value] + rest.value) else None
  }

  /** The string that the inside of a literal stands for. */
  function Literal(s: string): Option<string>
    decreases |s|
  {
    if s == "" then Some("")
    else if s[0] != '\\' then Cons(Some(s[0]), Literal(s[1..]))
    else if |s| == 1 then None
    else
      var k := DigitsOf(s[1]);
      if k == 0 then Cons(Named(s[1]), Literal(s[2..]))
      else if |s| < k + 2 then None
      else match HexValue(s[2..k + 2])
        case None => None
        case Some(n) => Cons(RuneOf(n), Literal(s[k + 2..]))
  }

  function Sixteens(k: nat): nat { if k == 0 then 1 else 16 * Sixteens(k - 1) }

  lemma DigitIs(n: nat)
    requires n < 16
    ensures Digit("0123456789abcdef"[n]) == Some(n)
  {
  }

  lemma {:induction false} HexReadBack(n: nat, k: nat)
    requires n < Sixteens(k)
    ensures |HexDigits(n, k)| == k && HexValue(HexDigits(n, k)) == Some(n)
    decreases k
  {
    if k > 0 {
      HexReadBack(n / 16, k - 1);
      DigitIs(n % 16);
      var front, last := HexDigits(n / 16, k - 1), "0123456789abcdef"[n % 16];
      assert HexDigits(n, k) == front + [last];
      assert (front + [last])[..k - 1] == front;
    }
  }

  lemma HexEscape(letter: char, n: nat, rest: string)
    requires DigitsOf(letter) > 0 && n < Sixteens(DigitsOf(letter))
    ensures Literal(['\\', letter] + HexDigits(n, DigitsOf(letter)) + rest) == Cons(RuneOf(n), Literal(rest))
  {
    var k := DigitsOf(letter);
    var digits := HexDigits(n, k);
    HexReadBack(n, k);
    var s := ['\\', letter] + digits + rest;
    assert s[2..k + 2] == digits && s[k + 2..] == rest;
  }

  lemma NamedEscape(letter: char, rest: string)
    requires DigitsOf(letter) == 0
    ensures Literal(['\\', letter] + rest) == Cons(Named(letter), Literal(rest))
  {
    assert (['\\', letter] + rest)[2..] == rest;
  }

  lemma PlainRune(c: char, rest: string)
    requires c != '\\'
    ensures Literal([c] + rest) == Cons(Some(c), Literal(rest))
  {
    assert ([c] + rest)[1..] == rest;
  }

  lemma SixteensAre()
    ensures Sixteens(2) == 0x100 && Sixteens(4) == 0x10000 && Sixteens(8) == 0x1_0000_0000
  {
    assert Sixteens(1) == 16 && Sixteens(2) == 0x100 && Sixteens(3) == 0x1000 && Sixteens(4) == 0x10000;
    assert Sixteens(5) == 0x10_0000 && Sixteens(6) == 0x100_0000 && Sixteens(7) == 0x1000_0000;
  }

  lemma NamedControl(c: char) returns (letter: char)
    requires 7 <= c as int <= 13
    ensures Control(c) == ['\\', letter] && DigitsOf(letter) == 0 && Named(letter) == Some(c)
  {
    letter := "abtnvfr"[c as int - 7];
  }

  lemma HexControl(c: char) returns (letter: char)
    requires !(7 <= c as int <= 13)
    ensures DigitsOf(letter) > 0 && c as int < Sixteens(DigitsOf(letter))
    ensures Control(c) == ['\\', letter] + HexDigits(c as int, DigitsOf(letter))
  {
    SixteensAre();
    letter := if c as int < 0x20 then 'x' else if c as int < 0x10000 then 'u' else 'U';
  }

  lemma RuneIs(c: char)
    ensures RuneOf(c as int) == Some(c)
  {
  }

  lemma ControlReadBack(c: char, rest: string)
    ensures Literal(Control(c) + rest) == Cons(Some(c), Literal(rest))
  {
    if 7 <= c as int <= 13 {
      var letter := NamedControl(c);
      NamedEscape(letter, rest);
    } else {
      var letter := HexControl(c);
      HexEscape(letter, c as int, rest);
      RuneIs(c);
    }
  }

  lemma RuneReadBack(st: Style, c: char, rest: string)
    ensures Literal(QuoteRune(st, c) + rest) == Cons(Some(c), Literal(rest))
  {
    if c == '"' || c == '\\' {
      NamedEscape(c, rest);
    } else if st.isPrint(c) {
      PlainRune(c, rest);
    } else {
      ControlReadBack(c, rest);
    }
  }

  /** What is printed between quotes is a Go literal of the string, whatever the table of printing runes. */
  lemma {:induction false} QuoteReadBack(st: Style, s: string)
    ensures Literal(QuoteRunes(st, s)) == Some(s)
    decreases |s|
  {
    if s != "" {
      QuoteReadBack(st, s[1..]);
      RuneReadBack(st, s[0], QuoteRunes(st, s[1..]));
      assert s == [s[0]] + s[1..];
    }
  }

  // ---- When quotes are needed ----

  /** A rune that cannot be in a word. */
  predicate EndsWords(c: char) { WrittenTokens.Blank(c) || c in "{};\"'" }

  lemma SpecialIs(c: char)
    ensures Special(c) <==> EndsWords(c)
  {
    WrittenTokens.BlankIff(c);
  }

  predicate HoldsEnd(s: string) { exists i :: 0 <= i < |s| && EndsWords(s[i]) }

  lemma SpecialIn(s: string)
    ensures (exists i :: 0 <= i < |s| && Special(s[i])) <==> HoldsEnd(s)
  {
    forall i | 0 <= i < |s|
      ensures Special(s[i]) <==> EndsWords(s[i])
    {
      SpecialIs(s[i]);
    }
  }

  predicate TwoDollars(s: string, k: nat) { k + 1 < |s| && s[k] == '$' == s[k + 1] }

  lemma PlainEscaped(s: string)
    requires '\\' !in s
    ensures Escaped(s) == s
  {
    EscapeFromPlain('\0', s);
  }

  /**
    * A string without backslashes is printed in quotes if and only if it is empty, holds white
    * space, a brace, a semicolon or a quotation mark, or two dollars in a row behind its first rune.
    */
  lemma QuotedIff(s: string)
    requires '\\' !in s
    ensures NeedsQuote(s) <==> s == "" || HoldsEnd(s) || exists k :: 1 <= k < |s| && TwoDollars(s, k)
  {
    PlainEscaped(s);
    SpecialIn(s);
    assert forall k :: 1 <= k < |s| ==> (DoubleDollar(s, k) <==> TwoDollars(s, k));
  }
}
