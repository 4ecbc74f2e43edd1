/** The few pieces of Go's standard library that the core leans on, modelled
    on Dafny strings: `strings.ToLower` and `strings.Title` (on ASCII),
    `strings.Replace` with one-character patterns, decimal formatting
    (`fmt.Sprint` of an int) and `fmt.Sprintf` with the verbs `%s`, `%d`
    and `%w`. */
module GoText {

  // ---------------------------------------------------------------------
  // Case mapping (ASCII)
  // ---------------------------------------------------------------------

  function LowerChar(c: char): char {
    if 'A' <= c <= 'Z' then (c as int + 32) as char else c
  }

  function UpperChar(c: char): char {
    if 'a' <= c <= 'z' then (c as int - 32) as char else c
  }

  /** strings.ToLower, restricted to ASCII letters. */
  function ToLower(s: string): string {
    seq(|s|, i requires 0 <= i < |s| => LowerChar(s[i]))
  }

  /** The separator test of strings.Title: every ASCII character other than a
      letter, a digit or '_' separates words; non-ASCII characters are taken
      as word characters. */
  predicate IsSeparator(c: char) {
    (c as int) < 128 && !('0' <= c <= '9' || 'a' <= c <= 'z' || 'A' <= c <= 'Z' || c == '_')
  }

  /** strings.Title: the first letter of every word is upper-cased; nothing
      else changes (in particular the rest of a word is not lower-cased). */
  function Title(s: string): string {
    seq(|s|, i requires 0 <= i < |s| =>
      if i == 0 || IsSeparator(s[i - 1]) then UpperChar(s[i]) else s[i])
  }

  lemma LowerIdempotent(s: string)
    ensures ToLower(ToLower(s)) == ToLower(s)
  {
  }

  /** Title-casing only touches the case of letters, so lower-casing forgets it. */
  lemma LowerOfTitle(s: string)
    ensures |Title(s)| == |s|
    ensures ToLower(Title(s)) == ToLower(s)
  {
  }

  // ---------------------------------------------------------------------
  // strings.Replace(s, from, to, -1) with one-character patterns
  // ---------------------------------------------------------------------

  /** Every occurrence of `from` becomes `to`. With one-character patterns the
      non-overlapping left-to-right scan of strings.Replace is exactly this
      character-wise map. */
  function Replace(s: string, from: char, to: char): string {
    seq(|s|, i requires 0 <= i < |s| => if s[i] == from then to else s[i])
  }

  // ---------------------------------------------------------------------
  // Decimal formatting (fmt.Sprint / %d of an int)
  // ---------------------------------------------------------------------

  predicate IsDigit(c: char) {
    '0' <= c <= '9'
  }

  predicate AllDigits(s: string) {
    forall i :: 0 <= i < |s| ==> IsDigit(s[i])
  }

  function DigitChar(d: nat): char
    requires d < 10
  {
    ('0' as int + d) as char
  }

  /** The shortest base-10 spelling of n. */
  function NatDecimal(n: nat): string
    decreases n
  {
    if n < 10 then [DigitChar(n)] else NatDecimal(n / 10) + [DigitChar(n % 10)]
  }

  /** Go's decimal spelling of a signed int: a '-' in front of a negative one. */
  function IntDecimal(i: int): string {
    if i < 0 then "-" + NatDecimal(-i) else NatDecimal(i)
  }

  /** The value of a string of decimal digits, read most significant first. */
  function DigitsValue(s: string): nat
    requires AllDigits(s)
    decreases |s|
  {
    if s == [] then 0 else DigitsValue(s[..|s| - 1]) * 10 + (s[|s| - 1] as int - '0' as int)
  }

  /** Reading back the decimal spelling of n gives n; the spelling is made of
      digits and has no leading zero. */
  lemma {:induction false} NatDecimalRoundTrip(n: nat)
    ensures NatDecimal(n) != [] && AllDigits(NatDecimal(n))
    ensures DigitsValue(NatDecimal(n)) == n
    ensures NatDecimal(n)[0] == '0' ==> n == 0
    decreases n
  {
    if n >= 10 {
      NatDecimalRoundTrip(n / 10);
      var s := NatDecimal(n);
      assert s == NatDecimal(n / 10) + [DigitChar(n % 10)];
      assert s[..|s| - 1] == NatDecimal(n / 10);
      assert s[0] == NatDecimal(n / 10)[0];
    }
  }

  /** Different numbers are spelled differently. */
  lemma NatDecimalInjective(m: nat, n: nat)
    requires NatDecimal(m) == NatDecimal(n)
    ensures m == n
  {
    NatDecimalRoundTrip(m);
    NatDecimalRoundTrip(n);
  }

  // ---------------------------------------------------------------------
  // fmt.Sprintf
  // ---------------------------------------------------------------------

  /** An operand of fmt.Sprintf: a string (also an error's text for `%w`) or an int. */
  datatype Arg = Str(s: string) | Int(i: int)

  function Render(a: Arg): string {
    match a
    case Str(s) => s
    case Int(i) => IntDecimal(i)
  }

  /** fmt.Sprintf for the verbs the program uses: each `%` followed by a verb
      letter consumes the next operand and is replaced by its text, `%%` is a
      literal '%', a verb without an operand reads `%!v(MISSING)`, a lone
      trailing '%' reads `%!(NOVERB)`. The verb letter is not checked against
      the operand's type, and surplus operands are dropped rather than
      reported. */
  function Sprintf(format: string, args: seq<Arg>): string
    decreases |format| + |args|
  {
    if format == [] then ""
    else if format[0] == '%' && |format| == 1 then "%!(NOVERB)"
    else if format[0] == '%' then
      if format[1] == '%' then "%" + Sprintf(format[2..], args)
      else if args == [] then "%!" + [format[1]] + "(MISSING)" + Sprintf(format[2..], args)
      else Render(args[0]) + Sprintf(format[2..], args[1..])
    else [format[0]] + Sprintf(format[1..], args)
  }

  /** Text without '%' is copied through unchanged. */
  lemma {:induction false} SprintfLiteral(lit: string, rest: string, args: seq<Arg>)
    requires '%' !in lit
    ensures Sprintf(lit + rest, args) == lit + Sprintf(rest, args)
    decreases |lit|
  {
    if lit != [] {
      assert (lit + rest)[0] == lit[0];
      assert lit[0] != '%' && '%' !in lit[1..];
      assert (lit + rest)[1..] == lit[1..] + rest;
      SprintfLiteral(lit[1..], rest, args);
      calc {
        Sprintf(lit + rest, args);
        [lit[0]] + Sprintf(lit[1..] + rest, args);
        [lit[0]] + (lit[1..] + Sprintf(rest, args));
        { assert lit == [lit[0]] + lit[1..]; }
        lit + Sprintf(rest, args);
      }
    } else {
      assert lit + rest == rest;
    }
  }

  /** A verb consumes the next operand and stands for its text. */
  lemma SprintfVerb(verb: char, rest: string, a: Arg, args: seq<Arg>)
    requires verb != '%'
    ensures Sprintf(['%', verb] + rest, [a] + args) == Render(a) + Sprintf(rest, args)
  {
  }

  /** The format string that alternates literal pieces (the first and the
      last possibly empty) with `%` verbs. */
  function Stencil(pieces: seq<string>, verbs: seq<char>): string
    requires |pieces| == |verbs| + 1
    decreases |verbs|
  {
    if verbs == [] then pieces[0]
    else pieces[0] + (['%', verbs[0]] + Stencil(pieces[1..], verbs[1..]))
  }

  /** The pieces with the operands' text between them. */
  function Interleave(pieces: seq<string>, args: seq<Arg>): string
    requires |pieces| == |args| + 1
    decreases |args|
  {
    if args == [] then pieces[0]
    else pieces[0] + (Render(args[0]) + Interleave(pieces[1..], args[1..]))
  }

  /** Formatting a stencil with one operand per verb puts each operand's text
      in the place of its verb. */
  lemma {:induction false} SprintfStencil(pieces: seq<string>, verbs: seq<char>, args: seq<Arg>)
    requires |pieces| == |verbs| + 1 == |args| + 1
    requires forall i :: 0 <= i < |pieces| ==> '%' !in pieces[i]
    requires forall i :: 0 <= i < |verbs| ==> verbs[i] != '%'
    ensures Sprintf(Stencil(pieces, verbs), args) == Interleave(pieces, args)
    decreases |verbs|
  {
    if verbs == [] {
      SprintfLiteral(pieces[0], "", args);
      assert pieces[0] + "" == pieces[0];
    } else {
      var rest := Stencil(pieces[1..], verbs[1..]);
      SprintfLiteral(pieces[0], ['%', verbs[0]] + rest, args);
      assert args == [args[0]] + args[1..];
      SprintfVerb(verbs[0], rest, args[0], args[1..]);
      SprintfStencil(pieces[1..], verbs[1..], args[1..]);
    }
  }

  /** A message wrapping an error with `%w` is its prefix followed by the
      error's text. */
  lemma SprintfWrapped(prefix: string, e: string)
    requires '%' !in prefix
    ensures Sprintf(prefix + "%w", [Str(e)]) == prefix + e
  {
    assert Stencil([prefix, ""], "w") == prefix + (['%', 'w'] + "");
    assert ['%', 'w'] + "" == "%w";
    SprintfStencil([prefix, ""], "w", [Str(e)]);
    assert e + "" == e;
  }

  /** A format with two verbs and literal text around them: each operand's
      text takes the place of its verb. */
  lemma SprintfTwo(p0: string, v0: char, p1: string, v1: char, p2: string, a: Arg, b: Arg)
    requires '%' !in p0 && '%' !in p1 && '%' !in p2 && v0 != '%' && v1 != '%'
    ensures Sprintf(p0 + ['%', v0] + p1 + ['%', v1] + p2, [a, b])
         == p0 + Render(a) + p1 + Render(b) + p2
  {
    var pieces, verbs, args := [p0, p1, p2], [v0, v1], [a, b];
    var f1, f0 := ['%', v1] + p2, ['%', v0];
    assert Stencil(pieces[2..], verbs[2..]) == p2;
    assert Stencil(pieces[1..], verbs[1..]) == p1 + f1;
    assert Stencil(pieces, verbs) == p0 + (f0 + (p1 + f1));
    Assoc(f0, p1, f1);
    Assoc(p0, f0 + p1, f1);
    Assoc(p0, f0, p1);
    Assoc(p1, ['%', v1], p2);
    Assoc(p0 + f0, p1, ['%', v1] + p2);
    Assoc(p0 + f0 + p1, ['%', v1], p2);
    SprintfStencil(pieces, verbs, args);
    var ra, rb := Render(a), Render(b);
    assert Interleave(pieces[2..], args[2..]) == p2;
    assert Interleave(pieces[1..], args[1..]) == p1 + (rb + p2);
    assert Interleave(pieces, args) == p0 + (ra + (p1 + (rb + p2)));
    Assoc(p1, rb, p2);
    Assoc(ra, p1 + rb, p2);
    Assoc(ra, p1, rb);
    Assoc(p0, ra + p1 + rb, p2);
    Assoc(p0, ra + p1, rb);
    Assoc(p0, ra, p1);
  }

  lemma Assoc<T>(x: seq<T>, y: seq<T>, z: seq<T>)
    ensures x + (y + z) == x + y + z
  {
  }
}
