/** The parts of Python's `int()`, `float()`, `str()` and `str.split` that the scripts apply to
    the text of a catalog or light-curve field. Only plain decimal text is modelled: an optional
    sign, digits, and for `float()` an optional fractional part. */
module PyText {
  import opened Wrappers

  predicate IsDigit(c: char)
  {
    '0' <= c <= '9'
  }

  function DigitValue(c: char): nat
    requires IsDigit(c)
  {
    (c as int) - ('0' as int)
  }

  function DigitChar(d: nat): (c: char)
    requires d < 10
    ensures IsDigit(c) && DigitValue(c) == d
  {
    (('0' as int) + d) as char
  }

  /** The value of a run of decimal digits, most significant first, or `None` when some
      character is not a digit. The empty run is worth 0. */
  function ParseDigits(s: string): Option<nat>
  {
    if s == [] then Some(0)
    else if !IsDigit(s[|s| - 1]) then None
    else match ParseDigits(s[..|s| - 1])
      case None => None
      case Some(v) => Some(10 * v + DigitValue(s[|s| - 1]))
  }

  function Pow10(k: nat): (p: nat)
    ensures p >= 1
  {
    if k == 0 then 1 else 10 * Pow10(k - 1)
  }

  /** A run of `k` digits is worth less than 10^k. */
  lemma {:induction false} ParseDigitsBound(s: string)
    requires ParseDigits(s).Some?
    ensures ParseDigits(s).value < Pow10(|s|)
  {
    if s != [] {
      ParseDigitsBound(s[..|s| - 1]);
    }
  }

  /** Text holding a character that is not a digit is not a run of digits. */
  lemma {:induction false} ParseDigitsRejects(s: string, i: nat)
    requires i < |s| && !IsDigit(s[i])
    ensures ParseDigits(s) == None
  {
    if i < |s| - 1 {
      ParseDigitsRejects(s[..|s| - 1], i);
    }
  }

  /** `str(n)` for a non-negative integer: its shortest decimal digits. */
  function NatToString(n: nat): string
  {
    if n < 10 then [DigitChar(n)] else NatToString(n / 10) + [DigitChar(n % 10)]
  }

  /** Reading back what `str` wrote gives the number again. */
  lemma {:induction false} NatToStringRoundTrip(n: nat)
    ensures |NatToString(n)| > 0 && IsDigit(NatToString(n)[0])
    ensures ParseDigits(NatToString(n)) == Some(n)
  {
    if n >= 10 {
      NatToStringRoundTrip(n / 10);
      var s := NatToString(n);
      assert s[..|s| - 1] == NatToString(n / 10);
    }
  }

  /** `str(i)` for any integer. */
  function IntToString(i: int): string
  {
    if i < 0 then "-" + NatToString(-i) else NatToString(i)
  }

  /** Splits off one leading sign character: whether the text is negative, and the rest. */
  function SplitSign(s: string): (bool, string)
  {
    if |s| > 0 && (s[0] == '-' || s[0] == '+') then (s[0] == '-', s[1..]) else (false, s)
  }

  /** `int(s)`: an optional sign followed by at least one digit; anything else is a
      ValueError, modelled as `None`. */
  function ParseInt(s: string): Option<int>
  {
    var (negative, digits) := SplitSign(s);
    if digits == [] then None
    else match ParseDigits(digits)
      case None => None
      case Some(magnitude) => Some(if negative then 0 - magnitude as int else magnitude)
  }

  /** `int(str(i))` gives `i` back. */
  /** A sign in front of digits that read as `n` gives `-n` or `n`; without a sign they read
      as `n`. */
  lemma SignedDigits(digits: string, n: nat)
    requires |digits| > 0 && IsDigit(digits[0]) && ParseDigits(digits) == Some(n)
    ensures ParseInt("-" + digits) == Some(-(n as int))
    ensures ParseInt("+" + digits) == Some(n)
    ensures ParseInt(digits) == Some(n)
  {
    assert ("-" + digits)[1..] == digits;
    assert ("+" + digits)[1..] == digits;
  }

  lemma IntToStringRoundTrip(i: int)
    ensures ParseInt(IntToString(i)) == Some(i)
  {
    if i < 0 {
      NatToStringRoundTrip(-i);
      assert SplitSign(IntToString(i)) == (true, NatToString(-i));
    } else {
      NatToStringRoundTrip(i);
    }
  }

  /** `s.split(".")[0]`: the text before the first '.', or all of it when there is none. */
  function BeforeDot(s: string): (r: string)
    ensures |r| <= |s| && r == s[..|r|]
    ensures '.' !in r
    ensures |r| < |s| ==> s[|r|] == '.'
  {
    if s == [] then []
    else if s[0] == '.' then []
    else [s[0]] + BeforeDot(s[1..])
  }

  /** The digits after the first '.' of unsigned decimal text, or nothing when it has no '.'. */
  function FractionDigits(body: string): string
  {
    var whole := BeforeDot(body);
    if |whole| < |body| then body[|whole| + 1..] else []
  }

  /** The value of `whole.fraction` from the values of both digit runs and the fraction's
      length. */
  function DecimalValue(whole: nat, fraction: nat, k: nat): real
  {
    whole as real + (fraction as real) / (Pow10(k) as real)
  }

  /** `float(s)` on plain decimal text: an optional sign, digits, optionally a '.' and more
      digits, with at least one digit in all. Anything else is a ValueError, modelled as
      `None`. */
  function ParseFloat(s: string): Option<real>
  {
    var (negative, body) := SplitSign(s);
    var whole := BeforeDot(body);
    var fraction := FractionDigits(body);
    if |whole| + |fraction| == 0 then None
    else match (ParseDigits(whole), ParseDigits(fraction))
      case (Some(w), Some(f)) =>
        var magnitude := DecimalValue(w, f, |fraction|);
        Some(if negative then -magnitude else magnitude)
      case _ => None
  }

  /** A fraction of `k` digits adds less than one to the whole part. */
  lemma {:induction false} DecimalValueBounds(whole: nat, fraction: string)
    requires ParseDigits(fraction).Some?
    ensures var v := DecimalValue(whole, ParseDigits(fraction).value, |fraction|);
      whole as real <= v < whole as real + 1.0 && (fraction == [] ==> v == whole as real)
  {
    ParseDigitsBound(fraction);
    ProperFraction(ParseDigits(fraction).value as real, Pow10(|fraction|) as real);
  }

  lemma ProperFraction(f: real, k: real)
    requires 0.0 <= f < k
    ensures 0.0 <= f / k < 1.0
  {
    assert f / k * k == f;
  }

  /** `int(s.split(".")[0])` for text without a minus sign: the value of the digits before the
      '.', after an optional '+'. */
  lemma IntegerPart(s: string)
    requires s == [] || s[0] != '-'
    ensures var whole := BeforeDot(SplitSign(s).1);
      !SplitSign(s).0 &&
      ParseInt(BeforeDot(s)) == (if whole == [] then None else match ParseDigits(whole)
        case None => None
        case Some(w) => Some(w as int))
  {
    var body := SplitSign(s).1;
    if |s| > 0 && s[0] == '+' {
      assert BeforeDot(s) == ['+'] + BeforeDot(body);
      assert SplitSign(BeforeDot(s)) == (false, BeforeDot(body));
    } else {
      assert body == s;
      assert SplitSign(BeforeDot(s)) == (false, BeforeDot(body));
    }
  }
}
