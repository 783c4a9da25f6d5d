/**
  Bodies of quoted character strings: the language the lexer accepts between the quotes, the loop that
  unescapes a body, and a decoder that takes one unit at a time.
 */
module Unescape {
  import opened Wrap

  predicate IsQuote(q: char) { q == '\'' || q == '"' || q == '`' }

  predicate IsHex(c: char) { '0' <= c <= '9' || 'a' <= c <= 'f' || 'A' <= c <= 'F' }

  function HexDigit(c: char): (d: nat)
    requires IsHex(c)
    ensures d < 16
  {
    if c <= '9' then c as int - '0' as int else if c <= 'F' then c as int - 'A' as int + 10 else c as int - 'a' as int + 10
  }

  function HexValue(s: string): nat
    requires forall i | 0 <= i < |s| :: IsHex(s[i])
  {
    if s == "" then 0 else 16 * HexValue(s[..|s| - 1]) + HexDigit(s[|s| - 1])
  }

  /** The letters that may follow a backslash on their own. */
  predicate IsSimple(c: char) {
    c == '\\' || c == '\'' || c == '"' || c == '`' || c == 't' || c == 'b' || c == 'n' || c == 'r' || c == 'f'
  }

  function Simple(c: char): char {
    match c
    case 't' => '\t'
    case 'b' => '\U{8}'
    case 'n' => '\n'
    case 'r' => '\r'
    case 'f' => '\U{c}'
    case _ => c
  }

  /** A Unicode scalar value: a code point that is not a surrogate. */
  predicate IsScalar(n: nat) { n < 0xD800 || 0xE000 <= n <= 0x10FFFF }

  // ----- the body language -----

  /** One unit of a body; `Code` is a hexadecimal escape. */
  datatype Unit = Plain(c: char) | Doubled | Escaped(c: char) | Code(n: nat)

  /** Length of the hexadecimal escape introduced by `u` or `U`. */
  function CodeLength(c: char): nat { if c == 'u' then 4 else if c == 'U' then 6 else 0 }

  predicate AllHex(s: string) { forall i | 0 <= i < |s| :: IsHex(s[i]) }

  /** The first unit of a body and its length, if the body starts with one. */
  function First(s: string, q: char, raw: bool): (r: Option<(Unit, nat)>)
    requires s != ""
    ensures r.Some? ==> 0 < r.value.1 <= |s|
  {
    if s[0] == q then (if |s| >= 2 && s[1] == q then Some((Doubled, 2)) else None)
    else if raw || s[0] != '\\' then Some((Plain(s[0]), 1))
    else if |s| < 2 then None
    else if IsSimple(s[1]) then Some((Escaped(s[1]), 2))
    else
      var n := CodeLength(s[1]);
      if n > 0 && |s| >= 2 + n && AllHex(s[2..2 + n]) then Some((Code(HexValue(s[2..2 + n])), 2 + n)) else None
  }

  predicate IsBody(s: string, q: char, raw: bool)
    decreases |s|
  {
    s == "" || (First(s, q, raw).Some? && IsBody(s[First(s, q, raw).value.1..], q, raw))
  }

  function Units(s: string, q: char, raw: bool): seq<Unit>
    requires IsBody(s, q, raw)
    decreases |s|
  {
    if s == "" then [] else [First(s, q, raw).value.0] + Units(s[First(s, q, raw).value.1..], q, raw)
  }

  // ----- the reference decoder -----

  function UnitChar(u: Unit, q: char): Option<char> {
    match u
    case Plain(c) => Some(c)
    case Doubled => Some(q)
    case Escaped(c) => Some(Simple(c))
    case Code(n) => if IsScalar(n) then Some(n as char) else None
  }

  function DecodeUnits(us: seq<Unit>, q: char): Option<string>
    decreases |us|
  {
    if us == [] then Some("")
    else
      match (UnitChar(us[0], q), DecodeUnits(us[1..], q))
      case (Some(c), Some(rest)) => Some([c] + rest)
      case _ => None
  }

  function Decode(s: string, q: char, raw: bool): Option<string>
    requires IsBody(s, q, raw)
  {
    DecodeUnits(Units(s, q, raw), q)
  }

  /** Decoding fails exactly when some escape names no Unicode scalar; otherwise each unit gives one
      character. */
  lemma {:induction false} DecodeFails(us: seq<Unit>, q: char)
    ensures DecodeUnits(us, q).None? <==> exists i | 0 <= i < |us| :: us[i].Code? && !IsScalar(us[i].n)
    ensures DecodeUnits(us, q).Some? ==> |DecodeUnits(us, q).value| == |us|
    decreases |us|
  {
    if us != [] {
      DecodeFails(us[1..], q);
      if i :| 0 <= i < |us| && us[i].Code? && !IsScalar(us[i].n) && i > 0 { assert us[1..][i - 1] == us[i]; }
      if DecodeUnits(us[1..], q).None? {
        var j :| 0 <= j < |us| - 1 && us[1..][j].Code? && !IsScalar(us[1..][j].n);
        assert us[j + 1] == us[1..][j];
      }
    }
  }

  // ----- what the escapes stand for -----

  const LOWER: string := "0123456789abcdef"
  const UPPER: string := "0123456789ABCDEF"

  /** The digits of `n`, most significant first, each in either case. */
  predicate Spells(s: string, n: nat)
    decreases |s|
  {
    if s == "" then n == 0
    else (s[|s| - 1] == LOWER[n % 16] || s[|s| - 1] == UPPER[n % 16]) && Spells(s[..|s| - 1], n / 16)
  }

  /** Every number below 16 to the `k` is spelled with `k` digits. */
  lemma {:induction false} Spelling(n: nat, k: nat) returns (s: string)
    requires n < Pow16(k)
    ensures |s| == k && Spells(s, n)
    decreases k
  {
    s := "";
    if k > 0 {
      var rest := Spelling(n / 16, k - 1);
      s := rest + [LOWER[n % 16]];
      assert s[..k - 1] == rest;
    }
  }

  function Pow16(k: nat): nat { if k == 0 then 1 else 16 * Pow16(k - 1) }

  lemma {:induction false} SpelledValue(s: string, n: nat)
    requires Spells(s, n)
    ensures AllHex(s) && HexValue(s) == n
    decreases |s|
  {
    if s != "" {
      SpelledValue(s[..|s| - 1], n / 16);
      DigitValue(s[|s| - 1], n % 16);
      forall i | 0 <= i < |s| ensures IsHex(s[i]) { if i < |s| - 1 { assert s[i] == s[..|s| - 1][i]; } }
    }
  }

  lemma DigitValue(c: char, d: nat)
    requires d < 16 && (c == LOWER[d] || c == UPPER[d])
    ensures IsHex(c) && HexDigit(c) == d
  {
  }

  /** A hexadecimal escape, four digits after `u` or six after `U`, stands for the character with that
      number, and fails when no character has it. */
  lemma EscapeDecodes(digits: string, n: nat, rest: string, q: char)
    requires IsQuote(q) && Spells(digits, n) && (|digits| == 4 || |digits| == 6) && IsBody(rest, q, false)
    ensures var s := ['\\', if |digits| == 4 then 'u' else 'U'] + digits + rest;
            && IsBody(s, q, false)
            && Decode(s, q, false) == if n < 0xD800 || 0xE000 <= n <= 0x10FFFF then Then([n as char], Decode(rest, q, false))
                                      else None
  {
    var k := |digits|;
    var s := ['\\', if k == 4 then 'u' else 'U'] + digits + rest;
    SpelledValue(digits, n);
    assert s[2..2 + k] == digits && s[2 + k..] == rest;
    assert First(s, q, false) == Some((Code(n), 2 + k));
    DecodeStep(s, q, false);
  }

  /** What a letter after a backslash stands for. */
  const ESCAPES: map<char, char> :=
    map['\\' := '\\', '\'' := '\'', '"' := '"', '`' := '`',
        't' := 9 as char, 'b' := 8 as char, 'n' := 10 as char, 'r' := 13 as char, 'f' := 12 as char]

  lemma SimpleDecodes(c: char, rest: string, q: char)
    requires IsQuote(q) && IsBody(rest, q, false)
    ensures var s := ['\\', c] + rest;
            if c in ESCAPES then IsBody(s, q, false) && Decode(s, q, false) == Then([ESCAPES[c]], Decode(rest, q, false))
            else IsBody(s, q, false) ==> c == 'u' || c == 'U'
  {
    var s := ['\\', c] + rest;
    assert s[2..] == rest;
    if c in ESCAPES {
      assert First(s, q, false) == Some((Escaped(c), 2));
      DecodeStep(s, q, false);
    }
  }

  // ----- the loop -----

  predicate Special(c: char, q: char, raw: bool) { c == q || (!raw && c == '\\') }

  /** Position of the first quote or, unless raw, backslash. */
  method Find(s: string, q: char, raw: bool) returns (pos: nat)
    ensures pos <= |s| && (forall i | 0 <= i < pos :: !Special(s[i], q, raw))
    ensures pos < |s| ==> Special(s[pos], q, raw)
  {
    pos := 0;
    while pos < |s| && !Special(s[pos], q, raw)
      invariant pos <= |s| && forall i | 0 <= i < pos :: !Special(s[i], q, raw)
    {
      pos := pos + 1;
    }
  }

  /** What is left to do, put in front of what is done. */
  function Then(done: string, rest: Option<string>): Option<string> {
    if rest.Some? then Some(done + rest.value) else None
  }

  /** Ordinary characters stand for themselves. */
  lemma {:induction false} SkipPlain(s: string, q: char, raw: bool, pos: nat)
    requires IsBody(s, q, raw) && pos <= |s| && forall i | 0 <= i < pos :: !Special(s[i], q, raw)
    ensures IsBody(s[pos..], q, raw)
    ensures Decode(s, q, raw) == Then(s[..pos], Decode(s[pos..], q, raw))
    decreases pos
  {
    if pos == 0 {
      assert s[0..] == s && s[..0] == "";
      ThenNothing(Decode(s, q, raw));
    } else {
      PlainStep(s, q, raw);
      forall i | 0 <= i < pos - 1 ensures !Special(s[1..][i], q, raw) { assert s[1..][i] == s[i + 1]; }
      hide *;
      SkipPlain(s[1..], q, raw, pos - 1);
      Shorter(s, pos);
      ThenThen([s[0]], s[1..][..pos - 1], Decode(s[pos..], q, raw));
    }
  }

  lemma Shorter(s: string, pos: nat)
    requires 0 < pos <= |s|
    ensures s[1..][pos - 1..] == s[pos..] && s[..pos] == [s[0]] + s[1..][..pos - 1]
  {
  }

  lemma PlainStep(s: string, q: char, raw: bool)
    requires IsBody(s, q, raw) && s != "" && !Special(s[0], q, raw)
    ensures IsBody(s[1..], q, raw) && Decode(s, q, raw) == Then([s[0]], Decode(s[1..], q, raw))
  {
    assert First(s, q, raw) == Some((Plain(s[0]), 1));
    DecodeStep(s, q, raw);
  }

  lemma DecodeStep(s: string, q: char, raw: bool)
    requires s != "" && IsBody(s, q, raw)
    ensures First(s, q, raw).Some? && IsBody(s[First(s, q, raw).value.1..], q, raw)
    ensures var (u, n) := First(s, q, raw).value;
            var c, rest := UnitChar(u, q), Decode(s[n..], q, raw);
            Decode(s, q, raw) == if c.Some? then Then([c.value], rest) else None
  {
  }

  lemma ThenThen(a: string, b: string, rest: Option<string>)
    ensures Then(a, Then(b, rest)) == Then(a + b, rest)
  {
    if rest.Some? { assert a + (b + rest.value) == a + b + rest.value; }
  }

  /** One turn of the loop: the escape or doubled quote in front, as a character. */
  method UnescapeOne(input: string, q: char, raw: bool) returns (c: Option<char>, length: nat)
    requires IsQuote(q) && input != "" && IsBody(input, q, raw) && Special(input[0], q, raw)
    ensures var (u, n) := First(input, q, raw).value; length == n && c == UnitChar(u, q)
  {
    assert |input| >= 2;
    var delim, next := input[0], input[1];
    length := 2;
    if !raw && delim == '\\' {
      if next == '\\' || next == '\'' || next == '"' || next == '`' { c := Some(next); }
      else if next == 't' { c := Some('\t'); }
      else if next == 'b' { c := Some('\U{8}'); }
      else if next == 'n' { c := Some('\n'); }
      else if next == 'r' { c := Some('\r'); }
      else if next == 'f' { c := Some('\U{c}'); }
      else {
        assert next == 'u' || next == 'U';
        length := if next == 'u' then 6 else 8;
        assert |input| >= length && AllHex(input[2..length]);
        var num := HexValue(input[2..length]);
        c := if IsScalar(num) then Some(num as char) else None;
      }
    } else {
      assert delim == q && next == delim;
      c := Some(q);
    }
  }

  /** The unescaping loop. On every body of the language it ends, meets none of the cases the code takes
      for impossible, and gives what the decoder gives. */
  method UnescapeBody(s: string, q: char, raw: bool) returns (r: Option<string>)
    requires IsQuote(q) && IsBody(s, q, raw)
    ensures r == Decode(s, q, raw)
  {
    hide IsBody, Decode, First, UnitChar;
    var input, done := s, "";
    var pos: nat := Find(input, q, raw);
    ThenNothing(Decode(s, q, raw));
    while pos < |input|
      invariant IsBody(input, q, raw) && Then(done, Decode(input, q, raw)) == Decode(s, q, raw)
      invariant pos <= |input| && (forall i | 0 <= i < pos :: !Special(input[i], q, raw))
      invariant pos < |input| ==> Special(input[pos], q, raw)
      decreases |input|
    {
      SkipPlain(input, q, raw, pos);
      ThenThen(done, input[..pos], Decode(input[pos..], q, raw));
      done := done + input[..pos];
      input := input[pos..];
      DecodeStep(input, q, raw);
      var c, length := UnescapeOne(input, q, raw);
      if c.None? { return None; }
      ThenThen(done, [c.value], Decode(input[length..], q, raw));
      done := done + [c.value];
      input := input[length..];
      pos := Find(input, q, raw);
    }
    SkipPlain(input, q, raw, pos);
    assert input[..pos] == input && input[pos..] == "";
    DecodeNothing(q, raw);
    r := Some(done + input);
    assert input + "" == input;
  }

  lemma DecodeNothing(q: char, raw: bool)
    ensures IsBody("", q, raw) && Decode("", q, raw) == Some("")
  {
  }

  lemma ThenNothing(rest: Option<string>)
    ensures Then("", rest) == rest
  {
    if rest.Some? { assert "" + rest.value == rest.value; }
  }

  // ----- quoting -----

  /** The shortest quoting: double the quote and, unless raw, escape the backslash. */
  function Quote(s: string, q: char, raw: bool): string
    decreases |s|
  {
    if s == "" then ""
    else
      (if s[0] == q then [q, q] else if !raw && s[0] == '\\' then "\\\\" else [s[0]]) + Quote(s[1..], q, raw)
  }

  /** Every string has a body in every mode, and unescaping it gives the string back. */
  lemma {:induction false} QuoteDecodes(s: string, q: char, raw: bool)
    requires IsQuote(q)
    ensures IsBody(Quote(s, q, raw), q, raw) && Decode(Quote(s, q, raw), q, raw) == Some(s)
    decreases |s|
  {
    if s != "" {
      QuoteDecodes(s[1..], q, raw);
      QuotedOne(s[0], Quote(s[1..], q, raw), q, raw);
      assert [s[0]] + s[1..] == s;
    }
  }

  lemma QuotedOne(c: char, rest: string, q: char, raw: bool)
    requires IsQuote(q) && IsBody(rest, q, raw)
    ensures var s := (if c == q then [q, q] else if !raw && c == '\\' then "\\\\" else [c]) + rest;
            IsBody(s, q, raw) && Decode(s, q, raw) == Then([c], Decode(rest, q, raw))
  {
    var head := if c == q then [q, q] else if !raw && c == '\\' then "\\\\" else [c];
    var s := head + rest;
    assert s[|head|..] == rest;
    assert First(s, q, raw).Some? && First(s, q, raw).value.1 == |head|;
    DecodeStep(s, q, raw);
  }

  // ----- whole literals -----

  /** The literal's text: quotes around the body, an `@` in front when raw. */
  function Literal(body: string, q: char, raw: bool): string { (if raw then ['@', q] else [q]) + body + [q] }

  function Strip(text: string, raw: bool): string
    requires |text| >= if raw then 3 else 2
  {
    if raw then text[2..|text| - 1] else text[1..|text| - 1]
  }

  /** A literal ends where its body does: the text up to a quote inside it is never a whole body unless
      that quote is doubled. So the longest match and the first match are the same literal. */
  lemma {:induction false} QuoteInsideIsDoubled(s: string, q: char, raw: bool, k: nat)
    requires IsQuote(q) && IsBody(s, q, raw) && k < |s| && s[k] == q && IsBody(s[..k], q, raw)
    ensures k + 1 < |s| && s[k + 1] == q
    decreases |s|
  {
    if k > 0 {
      var (u, n) := First(s, q, raw).value;
      FirstOfPrefix(s, q, raw, k);
      assert s[..k][n..] == s[n..][..k - n];
      QuoteInsideIsDoubled(s[n..], q, raw, k - n);
    }
  }

  lemma FirstOfPrefix(s: string, q: char, raw: bool, k: nat)
    requires 0 < k <= |s| && First(s[..k], q, raw).Some?
    ensures First(s, q, raw) == First(s[..k], q, raw)
  {
    var p := s[..k];
    var n := CodeLength(if |s| > 1 then s[1] else s[0]);
    if 2 + n <= k { assert p[2..2 + n] == s[2..2 + n]; }
  }

  lemma StripLiteral(body: string, q: char, raw: bool)
    ensures |Literal(body, q, raw)| >= (if raw then 3 else 2) && Strip(Literal(body, q, raw), raw) == body
  {
  }

  /** Quoting a string and reading the literal back gives the string, in all six kinds of literal. */
  lemma LiteralRoundTrip(s: string, q: char, raw: bool)
    requires IsQuote(q)
    ensures var text := Literal(Quote(s, q, raw), q, raw);
            && |text| >= (if raw then 3 else 2) && IsBody(Strip(text, raw), q, raw)
            && Decode(Strip(text, raw), q, raw) == Some(s)
  {
    StripLiteral(Quote(s, q, raw), q, raw);
    QuoteDecodes(s, q, raw);
  }
}
