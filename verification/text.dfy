/** String helpers the library takes from PHP: `strtolower` (ASCII),
    decimal rendering of integers (string interpolation of an int) and
    `implode`. */
module Text {

  predicate IsUpper(c: char) {
    'A' <= c <= 'Z'
  }

  function LowerChar(c: char): (r: char)
    ensures IsUpper(c) ==> r as int == c as int + 32
    ensures !IsUpper(c) ==> r == c
  {
    if IsUpper(c) then (c as int + 32) as char else c
  }

  /** `strtolower`: every ASCII capital letter becomes its small letter,
      every other character is kept. */
  function Lower(s: string): (r: string)
    ensures |r| == |s|
    ensures forall i :: 0 <= i < |s| ==> r[i] == LowerChar(s[i])
  {
    seq(|s|, i requires 0 <= i < |s| => LowerChar(s[i]))
  }

  /** Lowering is idempotent, so comparing lowered strings is an
      equivalence that ignores case. */
  lemma LowerIdempotent(s: string)
    ensures Lower(Lower(s)) == Lower(s)
    ensures forall i :: 0 <= i < |s| ==> !IsUpper(Lower(s)[i])
  {
  }

  /** Two strings that differ only in the case of ASCII letters lower to
      the same string. */
  lemma LowerIgnoresCase(s: string, t: string)
    requires |s| == |t|
    requires forall i :: 0 <= i < |s| ==> s[i] == t[i] || LowerChar(s[i]) == t[i] || s[i] == LowerChar(t[i])
    ensures Lower(s) == Lower(t)
  {
    forall i | 0 <= i < |s|
      ensures Lower(s)[i] == Lower(t)[i]
    {
      assert LowerChar(LowerChar(s[i])) == LowerChar(s[i]);
      assert LowerChar(LowerChar(t[i])) == LowerChar(t[i]);
    }
  }

  // ---------------------------------------------------------------------
  // Decimal integers

  predicate IsDigit(c: char) {
    '0' <= c <= '9'
  }

  predicate AllDigits(s: string) {
    forall i :: 0 <= i < |s| ==> IsDigit(s[i])
  }

  function DigitChar(d: nat): (c: char)
    requires d < 10
    ensures IsDigit(c)
  {
    ('0' as int + d) as char
  }

  function DigitValue(c: char): (d: nat)
    requires IsDigit(c)
    ensures d < 10
  {
    c as int - '0' as int
  }

  /** The shortest decimal spelling of a natural number. */
  function NatToString(n: nat): (r: string)
    ensures |r| >= 1
    ensures AllDigits(r)
    ensures n >= 1 ==> r[0] != '0'
    decreases n
  {
    if n < 10 then [DigitChar(n)]
    else NatToString(n / 10) + [DigitChar(n % 10)]
  }

  /** How PHP renders an int inside a string: a minus sign for negative
      values, then the decimal digits. */
  function IntToString(n: int): (r: string)
    ensures |r| >= 1
  {
    if n < 0 then "-" + NatToString(-n) else NatToString(n)
  }

  /** Reads a string of decimal digits, most significant first. */
  function ParseDigits(s: string): (n: nat)
    requires AllDigits(s)
    decreases |s|
  {
    if |s| == 0 then 0
    else ParseDigits(s[..|s| - 1]) * 10 + DigitValue(s[|s| - 1])
  }

  /** An optionally signed run of decimal digits. */
  predicate IsIntText(s: string) {
    |s| >= 1 && (AllDigits(s) || (s[0] == '-' && AllDigits(s[1..])))
  }

  /** Reads an optionally signed decimal integer. */
  function ParseInt(s: string): (n: int)
    requires IsIntText(s)
  {
    if s[0] == '-' then 0 - ParseDigits(s[1..]) as int else ParseDigits(s) as int
  }

  lemma {:induction false} NatToStringRoundTrip(n: nat)
    ensures ParseDigits(NatToString(n)) == n
    decreases n
  {
    if n >= 10 {
      var prefix := NatToString(n / 10);
      var s := prefix + [DigitChar(n % 10)];
      assert s[..|s| - 1] == prefix;
      NatToStringRoundTrip(n / 10);
    }
  }

  /** Rendering an int and reading it back gives the int: the rendering
      loses nothing. */
  lemma IntToStringRoundTrip(n: int)
    ensures IsIntText(IntToString(n)) && ParseInt(IntToString(n)) == n
  {
    var s := IntToString(n);
    if n < 0 {
      assert s[1..] == NatToString(-n);
      NatToStringRoundTrip(-n);
    } else {
      assert s[0] != '-';
      NatToStringRoundTrip(n);
    }
  }

  /** Distinct ints render to distinct strings. */
  lemma IntToStringInjective()
    ensures forall a, b :: IntToString(a) == IntToString(b) ==> a == b
  {
    forall a, b | IntToString(a) == IntToString(b)
      ensures a == b
    {
      IntToStringRoundTrip(a);
      IntToStringRoundTrip(b);
    }
  }

  /** `m` is `prefix`, then an integer written in decimal that reads back as
      `n`, then `infix`, then `tail`: what PHP's "...$n...$tail"
      interpolation produces. */
  /** The shape PHP gives an integer it turns into text: no leading zero,
      no "-0", no lone "-". */
  predicate IsCanonicalIntText(s: string) {
    && IsIntText(s)
    && (s[0] == '-' ==> |s| >= 2 && s[1] != '0')
    && (s[0] != '-' ==> s[0] != '0' || s == "0")
  }

  lemma IntToStringCanonical(n: int)
    ensures IsCanonicalIntText(IntToString(n))
  {
    IntToStringRoundTrip(n);
    var s := IntToString(n);
    if n < 0 {
      assert s[1..] == NatToString(-n);
    }
  }

  lemma {:induction false} ParseDigitsZero(s: string)
    requires AllDigits(s) && |s| >= 1 && ParseDigits(s) == 0
    ensures s[0] == '0'
    decreases |s|
  {
    if |s| > 1 {
      ParseDigitsZero(s[..|s| - 1]);
    }
  }

  /** A digit string without a leading zero is the rendering of its value. */
  lemma {:induction false} CanonicalDigitsReadBack(s: string)
    requires AllDigits(s) && |s| >= 1 && (s[0] != '0' || s == "0")
    ensures NatToString(ParseDigits(s)) == s
    decreases |s|
  {
    var last := s[|s| - 1];
    var d := DigitValue(last);
    assert DigitChar(d) == last;
    if |s| == 1 {
      assert s[..0] == [];
      assert ParseDigits(s) == d;
    } else {
      var init := s[..|s| - 1];
      assert init[0] == s[0];
      assert s != "0";
      CanonicalDigitsReadBack(init);
      if ParseDigits(init) == 0 {
        ParseDigitsZero(init);
      }
      var n := ParseDigits(s);
      assert n == ParseDigits(init) * 10 + d;
      assert n / 10 == ParseDigits(init) && n % 10 == d;
      assert s == init + [last];
    }
  }

  /** Canonical integer text is the one rendering of its value. */
  lemma CanonicalIntTextIsUnique(s: string)
    requires IsCanonicalIntText(s)
    ensures s == IntToString(ParseInt(s))
  {
    if s[0] == '-' {
      assert !IsDigit(s[0]);
      CanonicalDigitsReadBack(s[1..]);
      if ParseDigits(s[1..]) == 0 {
        ParseDigitsZero(s[1..]);
      }
      assert s == "-" + s[1..];
    } else {
      CanonicalDigitsReadBack(s);
    }
  }

  predicate Interpolates(m: string, prefix: string, n: int, infix: string, tail: string) {
    && |m| > |prefix| + |infix| + |tail|
    && m[..|prefix|] == prefix
    && m[|m| - |tail|..] == tail
    && m[|m| - |tail| - |infix|..|m| - |tail|] == infix
    && IsCanonicalIntText(m[|prefix|..|m| - |tail| - |infix|])
    && ParseInt(m[|prefix|..|m| - |tail| - |infix|]) == n
  }

  /** Interpolating an int between fixed text and a tail can be read back:
      the number is recoverable from the message. */
  lemma InterpolationReadsBack(prefix: string, n: int, infix: string, tail: string)
    ensures Interpolates(prefix + IntToString(n) + infix + tail, prefix, n, infix, tail)
  {
    var digits := IntToString(n);
    var m := prefix + digits + infix + tail;
    IntToStringRoundTrip(n);
    IntToStringCanonical(n);
    assert m[..|prefix|] == prefix;
    assert m[|m| - |tail|..] == tail;
    assert m[|m| - |tail| - |infix|..|m| - |tail|] == infix;
    assert m[|prefix|..|m| - |tail| - |infix|] == digits;
  }

  /** The converse: a message that interpolates n is exactly the one built
      from n's rendering, so no other text passes for it. */
  lemma InterpolatedTextIsExact(m: string, prefix: string, n: int, infix: string, tail: string)
    requires Interpolates(m, prefix, n, infix, tail)
    ensures m == prefix + IntToString(n) + infix + tail
  {
    var middle := m[|prefix|..|m| - |tail| - |infix|];
    CanonicalIntTextIsUnique(middle);
    assert m == m[..|prefix|] + middle + m[|m| - |tail| - |infix|..|m| - |tail|] + m[|m| - |tail|..];
  }

  // ---------------------------------------------------------------------
  // implode

  /** `implode(sep, parts)`: the parts in order with `sep` between
      neighbours. */
  function Join(parts: seq<string>, sep: string): (r: string)
    decreases |parts|
  {
    if |parts| == 0 then ""
    else if |parts| == 1 then parts[0]
    else parts[0] + sep + Join(parts[1..], sep)
  }

  function TotalLength(parts: seq<string>): nat
    decreases |parts|
  {
    if |parts| == 0 then 0 else |parts[0]| + TotalLength(parts[1..])
  }

  /** Joining one more part appends the separator and that part: the
      parts appear in the joined string in their original order. */
  lemma {:induction false} JoinSnoc(parts: seq<string>, last: string, sep: string)
    requires |parts| >= 1
    ensures Join(parts + [last], sep) == Join(parts, sep) + sep + last
    decreases |parts|
  {
    var all := parts + [last];
    if |parts| == 1 {
      assert all[1..] == [last];
    } else {
      assert all[1..] == parts[1..] + [last];
      JoinSnoc(parts[1..], last, sep);
    }
  }

  /** The joined string holds every character of every part plus one
      separator between each pair of neighbours, and nothing else. */
  lemma {:induction false} JoinLength(parts: seq<string>, sep: string)
    ensures |parts| >= 1 ==> |Join(parts, sep)| == TotalLength(parts) + (|parts| - 1) * |sep|
    ensures |parts| == 0 ==> Join(parts, sep) == ""
    decreases |parts|
  {
    if |parts| >= 2 {
      JoinLength(parts[1..], sep);
      assert TotalLength(parts) == |parts[0]| + TotalLength(parts[1..]);
    } else if |parts| == 1 {
      assert TotalLength(parts[1..]) == 0;
    }
  }
}
