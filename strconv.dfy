/** Go's `strconv.ParseInt(s, 0, 64)`: base 0 (the prefix decides the base),
    64-bit result. It is modelled as Go's ParseInt and ParseUint are written:
    an optional sign, then a base prefix ("0x", "0o", "0b", or a bare leading
    "0" for octal), then a left-to-right digit loop that skips underscores and
    stops at the first bad digit or the first overflow of uint64, and finally
    the check that underscores stand only between digits. The decimal
    formatting used by `%d` is the partner that ParseInt reads back. */
module StrConv {
  import opened Wrappers

  /** The two causes a `*strconv.NumError` carries. */
  datatype NumErr = ErrSyntax | ErrRange

  const MaxUint64: int := 0xFFFF_FFFF_FFFF_FFFF
  /** 1 << 63: int64 values lie in [-Int64Cutoff, Int64Cutoff). */
  const Int64Cutoff: int := 0x8000_0000_0000_0000

  predicate IsDecimalDigit(c: char) { '0' <= c <= '9' }

  /** Go's `lower(c)`; only ever compared with lower-case letters, where
      folding just the upper-case letters gives the same answers. */
  function Lower(c: char): char
  {
    if 'A' <= c <= 'Z' then (c as int + 32) as char else c
  }

  /** The value of a digit character in bases up to 36, or None for a
      character that is no digit at all. */
  function DigitValue(c: char): (d: Option<nat>)
    ensures d.Some? ==> d.value < 36
  {
    if IsDecimalDigit(c) then Some(c as int - '0' as int)
    else if 'a' <= Lower(c) <= 'z' then Some(Lower(c) as int - 'a' as int + 10)
    else None
  }

  /** The base that ParseUint picks for base 0, and the digits that follow
      the prefix. "0x", "0o" and "0b" count only when a character follows. */
  function BasePrefix(s: string): (r: (nat, string))
    requires s != []
    ensures r.0 in {2, 8, 10, 16}
    ensures r.1 == s || r.1 == s[1..] || (|s| >= 3 && r.1 == s[2..])
    ensures r.0 == 10 <==> s[0] != '0'
    ensures r.0 == 10 ==> r.1 == s
    ensures r.0 == 16 <==> |s| >= 3 && s[0] == '0' && Lower(s[1]) == 'x'
    ensures r.0 == 2 <==> |s| >= 3 && s[0] == '0' && Lower(s[1]) == 'b'
    ensures r.0 == 16 || r.0 == 2 ==> r.1 == s[2..]
    ensures r.0 == 8 ==> r.1 == if |s| >= 3 && Lower(s[1]) == 'o' then s[2..] else s[1..]
    ensures '_' in s ==> '_' in r.1
  {
    if s[0] != '0' then (10, s)
    else if |s| >= 3 && Lower(s[1]) == 'b' then (2, s[2..])
    else if |s| >= 3 && Lower(s[1]) == 'o' then (8, s[2..])
    else if |s| >= 3 && Lower(s[1]) == 'x' then (16, s[2..])
    else (8, s[1..])
  }

  /** The smallest accumulator that overflows uint64 when multiplied by `base`. */
  function Cutoff(base: nat): nat
    requires base >= 2
  {
    MaxUint64 / base + 1
  }

  /** Every character is a digit below `base` or an underscore. */
  predicate DigitsOrUnderscores(ds: string, base: nat)
  {
    forall i :: 0 <= i < |ds| ==> ds[i] == '_' || (DigitValue(ds[i]).Some? && DigitValue(ds[i]).value < base)
  }

  /** ParseUint's digit loop, with accumulator `n`: what it accepts is made
      of digits and underscores only, and its value never exceeds uint64. */
  function Accumulate(ds: string, base: nat, n: nat): (r: Result<nat, NumErr>)
    requires 2 <= base <= 36 && n <= MaxUint64
    ensures r.Ok? ==> r.value <= MaxUint64 && DigitsOrUnderscores(ds, base)
    decreases |ds|
  {
    if ds == [] then Ok(n)
    else
      assert forall i :: 1 <= i < |ds| ==> ds[i] == ds[1..][i - 1];
      if ds[0] == '_' then Accumulate(ds[1..], base, n)
      else match DigitValue(ds[0])
        case None => Err(ErrSyntax)
        case Some(d) =>
          if d >= base then Err(ErrSyntax)
          else if n >= Cutoff(base) then Err(ErrRange)
          else if n * base + d > MaxUint64 then Err(ErrRange)
          else Accumulate(ds[1..], base, n * base + d)
  }

  /** What `underscoreOK` remembers about the last character seen. */
  datatype Saw = Start | Digit | Underscore | Other

  /** `underscoreOK`: an underscore must follow a digit (or the base prefix)
      and be followed by a digit. A text without underscores passes; one
      that ends in an underscore fails. */
  function UnderscoreOK(s: string): (ok: bool)
    ensures '_' !in s ==> ok
    ensures |s| >= 1 && s[|s| - 1] == '_' ==> !ok
  {
    var t := if |s| >= 1 && (s[0] == '-' || s[0] == '+') then s[1..] else s;
    if |t| >= 2 && t[0] == '0' && Lower(t[1]) in {'b', 'o', 'x'} then
      SeparatorsOK(t[2..], Digit, Lower(t[1]) == 'x')
    else
      SeparatorsOK(t, Start, false)
  }

  /** The scan of `underscoreOK` from a given state: no underscore ever
      leads to an underscore state, and a trailing underscore always fails. */
  function SeparatorsOK(s: string, saw: Saw, hex: bool): (ok: bool)
    ensures '_' !in s && saw != Underscore ==> ok
    ensures |s| >= 1 && s[|s| - 1] == '_' ==> !ok
    decreases |s|
  {
    if s == [] then saw != Underscore
    else if IsSeparatorDigit(s[0], hex) then SeparatorsOK(s[1..], Digit, hex)
    else if s[0] == '_' then saw == Digit && SeparatorsOK(s[1..], Underscore, hex)
    else if saw == Underscore then false
    else SeparatorsOK(s[1..], Other, hex)
  }

  /** A character `underscoreOK` counts as a digit: a decimal digit, or a
      hex letter after a `0x` prefix. */
  predicate IsSeparatorDigit(c: char, hex: bool)
  {
    IsDecimalDigit(c) || (hex && 'a' <= Lower(c) <= 'f')
  }

  /** Every underscore stands between two digits. For an underscore at the
      very start, `first` says whether a base prefix stands before it,
      which counts as a digit. */
  predicate Separated(s: string, first: bool, hex: bool)
  {
    forall i :: 0 <= i < |s| && s[i] == '_' ==>
      (i == 0 ==> first) && (i > 0 ==> IsSeparatorDigit(s[i - 1], hex)) &&
      i + 1 < |s| && IsSeparatorDigit(s[i + 1], hex)
  }

  lemma SeparatedAt(s: string, first: bool, hex: bool, i: nat)
    requires Separated(s, first, hex) && i < |s| && s[i] == '_'
    ensures i == 0 ==> first
    ensures i > 0 ==> IsSeparatorDigit(s[i - 1], hex)
    ensures i + 1 < |s| && IsSeparatorDigit(s[i + 1], hex)
  {
  }

  /** Dropping a first character that is no underscore: it becomes what
      stands before the rest. */
  lemma SeparatedCons(s: string, first: bool, hex: bool)
    requires s != [] && s[0] != '_'
    ensures Separated(s, first, hex) <==> Separated(s[1..], IsSeparatorDigit(s[0], hex), hex)
  {
    var t := s[1..];
    if Separated(s, first, hex) {
      forall j | 0 <= j < |t| && t[j] == '_'
        ensures (j == 0 ==> IsSeparatorDigit(s[0], hex)) && (j > 0 ==> IsSeparatorDigit(t[j - 1], hex))
        ensures j + 1 < |t| && IsSeparatorDigit(t[j + 1], hex)
      {
        assert s[j + 1] == '_';
        if j > 0 { assert t[j - 1] == s[j]; }
        if j + 2 < |s| { assert t[j + 1] == s[j + 2]; }
      }
    }
    if Separated(t, IsSeparatorDigit(s[0], hex), hex) {
      forall i | 0 <= i < |s| && s[i] == '_'
        ensures (i == 0 ==> first) && (i > 0 ==> IsSeparatorDigit(s[i - 1], hex))
        ensures i + 1 < |s| && IsSeparatorDigit(s[i + 1], hex)
      {
        assert i > 0 && t[i - 1] == '_';
        SeparatedAt(t, IsSeparatorDigit(s[0], hex), hex, i - 1);
        if i > 1 {
          assert t[i - 2] == s[i - 1];
        }
        if i < |t| { assert t[i] == s[i + 1]; }
      }
    }
  }

  /** A leading underscore needs a prefix before it and a digit after it. */
  lemma SeparatedUnderscore(s: string, first: bool, hex: bool)
    requires s != [] && s[0] == '_'
    ensures Separated(s, first, hex) <==>
      first && |s| >= 2 && IsSeparatorDigit(s[1], hex) && Separated(s[2..], true, hex)
  {
    if |s| >= 2 && IsSeparatorDigit(s[1], hex) {
      assert s[1] != '_';
      var t := s[1..];
      assert s[1..][0] == s[1] && s[1..][1..] == s[2..];
      SeparatedCons(t, true, hex);
      if first && Separated(s[2..], true, hex) {
        assert Separated(t, true, hex);
        forall i | 0 <= i < |s| && s[i] == '_'
          ensures (i == 0 ==> first) && (i > 0 ==> IsSeparatorDigit(s[i - 1], hex))
          ensures i + 1 < |s| && IsSeparatorDigit(s[i + 1], hex)
        {
          if i > 0 {
            assert t[i - 1] == '_';
            if i > 1 { assert t[i - 2] == s[i - 1]; }
            if i < |t| { assert t[i] == s[i + 1]; }
          }
        }
      }
      if Separated(s, first, hex) {
        SeparatedAt(s, first, hex, 0);
        forall j | 0 <= j < |t| && t[j] == '_'
          ensures j > 0 ==> IsSeparatorDigit(t[j - 1], hex)
          ensures j + 1 < |t| && IsSeparatorDigit(t[j + 1], hex)
        {
          assert s[j + 1] == '_';
          if j > 0 { assert t[j - 1] == s[j]; }
          if j + 2 < |s| { assert t[j + 1] == s[j + 2]; }
        }
      }
    } else {
      assert s[0] == '_';
    }
  }

  /** The scan of `underscoreOK` decides exactly the rule: from any state
      but right after an underscore, it accepts a text exactly when every
      underscore stands between two digits, the base prefix counting as the
      digit before it. */
  lemma {:induction false} SeparatorsRule(s: string, saw: Saw, hex: bool)
    requires saw != Underscore
    ensures SeparatorsOK(s, saw, hex) <==> Separated(s, saw == Digit, hex)
    decreases |s|
  {
    if s != [] {
      if s[0] == '_' {
        SeparatedUnderscore(s, saw == Digit, hex);
        if |s| >= 2 {
          assert s[1..][0] == s[1] && s[1..][1..] == s[2..];
          SeparatorsRule(s[2..], Digit, hex);
        }
      } else {
        SeparatedCons(s, saw == Digit, hex);
        if IsSeparatorDigit(s[0], hex) {
          SeparatorsRule(s[1..], Digit, hex);
        } else {
          SeparatorsRule(s[1..], Other, hex);
        }
      }
    }
  }

  /** `underscoreOK` is Go's rule: after an optional sign and an optional
      `0b`/`0o`/`0x` prefix, every underscore stands between two digits (hex
      letters count after `0x`), the prefix counting as the digit before. */
  lemma UnderscoreRule(s: string)
    ensures UnderscoreOK(s) <==>
      var t := if |s| >= 1 && (s[0] == '-' || s[0] == '+') then s[1..] else s;
      if |t| >= 2 && t[0] == '0' && Lower(t[1]) in {'b', 'o', 'x'} then Separated(t[2..], true, Lower(t[1]) == 'x')
      else Separated(t, false, false)
  {
    var t := if |s| >= 1 && (s[0] == '-' || s[0] == '+') then s[1..] else s;
    if |t| >= 2 && t[0] == '0' && Lower(t[1]) in {'b', 'o', 'x'} {
      SeparatorsRule(t[2..], Digit, Lower(t[1]) == 'x');
    } else {
      SeparatorsRule(t, Start, false);
    }
  }

  /** `strconv.ParseUint(s, 0, 64)`. */
  function ParseUint(s: string): (r: Result<nat, NumErr>)
    ensures r.Ok? ==> r.value <= MaxUint64
    ensures r.Ok? && '_' in s ==> UnderscoreOK(s)
  {
    if s == [] then Err(ErrSyntax)
    else
      var (base, digits) := BasePrefix(s);
      match Accumulate(digits, base, 0)
      case Err(e) => Err(e)
      case Ok(n) => if '_' in digits && !UnderscoreOK(s) then Err(ErrSyntax) else Ok(n)
  }

  /** `strconv.ParseInt(s, 0, 64)`: an accepted value always fits in int64. */
  function ParseInt(s: string): (r: Result<int, NumErr>)
    ensures r.Ok? ==> -Int64Cutoff <= r.value < Int64Cutoff
  {
    if s == [] then Err(ErrSyntax)
    else
      var neg := s[0] == '-';
      var body := if s[0] == '+' || s[0] == '-' then s[1..] else s;
      match ParseUint(body)
      case Err(e) => Err(e)
      case Ok(un) =>
        if !neg && un >= Int64Cutoff then Err(ErrRange)
        else if neg && un > Int64Cutoff then Err(ErrRange)
        else
          var v: int := if neg then -(un as int) else un;
          Ok(v)
  }

  // ---------------------------------------------------------------------
  // Decimal formatting (`%d`, `strconv.FormatInt(v, 10)`) and the round trip

  function DigitChar(d: nat): (c: char)
    requires d < 10
    ensures IsDecimalDigit(c) && DigitValue(c) == Some(d)
  {
    ('0' as int + d) as char
  }

  /** The decimal digits of `n`, without leading zeros. */
  function DecimalString(n: nat): (s: string)
    ensures |s| >= 1
    ensures forall i :: 0 <= i < |s| ==> IsDecimalDigit(s[i])
    ensures s[0] == '0' <==> n == 0
    decreases n
  {
    if n < 10 then [DigitChar(n)] else DecimalString(n / 10) + [DigitChar(n % 10)]
  }

  /** `%d` of an integer. */
  function FormatInt(v: int): (s: string)
    ensures |s| >= 1 && (s[0] == '-' <==> v < 0)
    ensures forall i :: (if v < 0 then 1 else 0) <= i < |s| ==> IsDecimalDigit(s[i])
  {
    if v < 0 then "-" + DecimalString(-v) else DecimalString(v)
  }

  /** Every character is a digit below `base` (no underscores). */
  predicate AllDigits(ds: string, base: nat)
  {
    forall i :: 0 <= i < |ds| ==> DigitValue(ds[i]).Some? && DigitValue(ds[i]).value < base
  }

  /** The value of a digit string read left to right onto accumulator `n`. */
  function Horner(ds: string, base: nat, n: nat): nat
    requires AllDigits(ds, base)
    decreases |ds|
  {
    if ds == [] then n else Horner(ds[1..], base, n * base + DigitValue(ds[0]).value)
  }

  lemma {:induction false} HornerGrows(ds: string, base: nat, n: nat)
    requires AllDigits(ds, base)
    ensures Horner(ds, base, n) >= n
  {
    if ds != [] {
      var m := n * base + DigitValue(ds[0]).value;
      AllDigitsTail(ds, base);
      HornerGrows(ds[1..], base, m);
      assert Horner(ds, base, n) == Horner(ds[1..], base, m);
      MulGrows(n, base);
    }
  }

  lemma AllDigitsTail(ds: string, base: nat)
    requires ds != [] && AllDigits(ds, base)
    ensures AllDigits(ds[1..], base)
  {
    forall i | 0 <= i < |ds| - 1 ensures ds[1..][i] == ds[i + 1] { }
  }

  lemma AllDigitsSnoc(ds: string, c: char, base: nat)
    requires AllDigits(ds, base) && DigitValue(c).Some? && DigitValue(c).value < base
    ensures AllDigits(ds + [c], base)
  {
    assert forall i :: 0 <= i < |ds| ==> ds[i] == (ds + [c])[i];
  }

  lemma MulGrows(n: nat, base: nat)
    requires base >= 1
    ensures n * base >= n
  {
  }

  lemma {:induction false} HornerSnoc(ds: string, c: char, base: nat, n: nat)
    requires AllDigits(ds, base) && DigitValue(c).Some? && DigitValue(c).value < base
    ensures AllDigits(ds + [c], base)
    ensures Horner(ds + [c], base, n) == Horner(ds, base, n) * base + DigitValue(c).value
  {
    AllDigitsSnoc(ds, c, base);
    if ds != [] {
      var m := n * base + DigitValue(ds[0]).value;
      assert (ds + [c])[1..] == ds[1..] + [c];
      AllDigitsTail(ds, base);
      HornerSnoc(ds[1..], c, base, m);
      assert Horner(ds + [c], base, n) == Horner(ds[1..] + [c], base, m);
      assert Horner(ds, base, n) == Horner(ds[1..], base, m);
    }
  }

  /** An accumulator at the cutoff overflows at the next digit. */
  lemma AtCutoff(n: nat, base: nat)
    requires 2 <= base && n >= Cutoff(base)
    ensures n * base > MaxUint64
  {
    var q := MaxUint64 / base;
    assert MaxUint64 == q * base + MaxUint64 % base;
    assert n * base >= (q + 1) * base;
  }

  /** On a plain digit string the loop yields the value, or a range error
      exactly when the value exceeds uint64. */
  lemma {:induction false} AccumulateDigits(ds: string, base: nat, n: nat)
    requires 2 <= base <= 36
    requires AllDigits(ds, base) && n <= MaxUint64
    ensures Accumulate(ds, base, n) ==
      if Horner(ds, base, n) <= MaxUint64 then Ok(Horner(ds, base, n)) else Err(ErrRange)
  {
    if ds != [] {
      var d := DigitValue(ds[0]).value;
      assert ds[0] != '_';
      var m := n * base + d;
      HornerGrows(ds[1..], base, m);
      assert Horner(ds, base, n) == Horner(ds[1..], base, m);
      if n >= Cutoff(base) {
        AtCutoff(n, base);
        assert Accumulate(ds, base, n) == Err(ErrRange);
      } else if m > MaxUint64 {
        assert Accumulate(ds, base, n) == Err(ErrRange);
      } else {
        assert Accumulate(ds, base, n) == Accumulate(ds[1..], base, m);
        AccumulateDigits(ds[1..], base, m);
      }
    }
  }

  lemma {:induction false} HornerDecimal(n: nat)
    ensures AllDigits(DecimalString(n), 10)
    ensures Horner(DecimalString(n), 10, 0) == n
    decreases n
  {
    if n >= 10 {
      HornerDecimal(n / 10);
      HornerSnoc(DecimalString(n / 10), DigitChar(n % 10), 10, 0);
    }
  }

  /** ParseUint reads a decimal string back, up to uint64. */
  lemma ParseUintDecimal(n: nat)
    ensures ParseUint(DecimalString(n)) == if n <= MaxUint64 then Ok(n) else Err(ErrRange)
  {
    var s := DecimalString(n);
    HornerDecimal(n);
    if n == 0 {
      assert s == "0";
      assert BasePrefix(s) == (8, []);
    } else {
      assert BasePrefix(s) == (10, s);
      AccumulateDigits(s, 10, 0);
      assert forall i :: 0 <= i < |s| ==> s[i] != '_';
      assert '_' !in s;
    }
  }

  /** The round trip between `%d` and ParseInt: every int64 is read back as
      itself, every other integer gives a range error. */
  lemma ParseFormatInt(v: int)
    ensures ParseInt(FormatInt(v)) == if -Int64Cutoff <= v < Int64Cutoff then Ok(v) else Err(ErrRange)
  {
    var s := FormatInt(v);
    if v < 0 {
      var t := DecimalString(-v);
      ParseUintDecimal(-v);
      assert s[0] == '-' && s[1..] == t;
      assert ParseInt(s) == match ParseUint(t)
        case Err(e) => Err(e)
        case Ok(un) => if un > Int64Cutoff then Err(ErrRange) else Ok(-(un as int));
    } else {
      var t := DecimalString(v);
      ParseUintDecimal(v);
      assert s == t && IsDecimalDigit(t[0]);
      assert ParseInt(s) == match ParseUint(t)
        case Err(e) => Err(e)
        case Ok(un) => if un >= Int64Cutoff then Err(ErrRange) else Ok(un as int);
    }
  }

  /** A two-digit string with a leading zero is octal: "00".."07" give their
      digit, "08" and "09" are syntax errors; other two-digit strings are
      decimal. */
  lemma ParseTwoDigits(hi: char, lo: char)
    requires IsDecimalDigit(hi) && IsDecimalDigit(lo)
    ensures ParseInt([hi, lo]) ==
      if hi != '0' then Ok(10 * (hi as int - '0' as int) + (lo as int - '0' as int))
      else if lo <= '7' then Ok(lo as int - '0' as int)
      else Err(ErrSyntax)
  {
    var s := [hi, lo];
    if hi == '0' {
      assert BasePrefix(s) == (8, [lo]);
      assert [lo][1..] == [];
      if lo <= '7' {
        AccumulateDigits([lo], 8, 0);
        assert ParseUint(s) == Ok(lo as int - '0' as int);
      } else {
        assert Accumulate([lo], 8, 0) == Err(ErrSyntax);
      }
    } else {
      assert BasePrefix(s) == (10, s);
      assert s[1..] == [lo];
      assert [lo][1..] == [];
      var dh, dl := hi as int - '0' as int, lo as int - '0' as int;
      assert Horner([lo], 10, dh) == dh * 10 + dl;
      assert Horner(s, 10, 0) == Horner([lo], 10, dh);
      AccumulateDigits(s, 10, 0);
      assert ParseUint(s) == Ok(10 * dh + dl);
    }
  }

  /** A one-digit string is that digit (a lone "0" takes the octal path and
      still yields 0). */
  lemma ParseOneDigit(c: char)
    requires IsDecimalDigit(c)
    ensures ParseInt([c]) == Ok(c as int - '0' as int)
  {
    var s := [c];
    assert '_' !in s;
    if c == '0' {
      assert BasePrefix(s) == (8, []);
      assert ParseUint(s) == Ok(0);
    } else {
      assert BasePrefix(s) == (10, s);
      assert s[1..] == [];
      AccumulateDigits(s, 10, 0);
      assert ParseUint(s) == Ok(c as int - '0' as int);
    }
  }

  // ---------------------------------------------------------------------
  // Base prefixes, signs and underscores

  /** A non-empty string of decimal digits. */
  predicate IsNumeral(s: string)
  {
    |s| >= 1 && forall i :: 0 <= i < |s| ==> IsDecimalDigit(s[i])
  }

  /** ParseInt's sign step on an unsigned value `u`: the int64 range check. */
  function Signed(neg: bool, u: nat): Result<int, NumErr>
  {
    if neg then (if u <= Int64Cutoff then Ok(-(u as int)) else Err(ErrRange))
    else if u < Int64Cutoff then Ok(u) else Err(ErrRange)
  }

  /** ParseUint of a text whose prefix selects `base` and whose remaining
      characters are all digits of that base. */
  lemma ParseUintDigits(s: string, base: nat, ds: string)
    requires s != [] && BasePrefix(s) == (base, ds) && AllDigits(ds, base)
    ensures ParseUint(s) == if Horner(ds, base, 0) <= MaxUint64 then Ok(Horner(ds, base, 0)) else Err(ErrRange)
  {
    assert forall i :: 0 <= i < |ds| ==> ds[i] != '_';
    assert '_' !in ds;
    AccumulateDigits(ds, base, 0);
  }

  /** A sign in front of an unsigned text. */
  lemma ParseIntSign(sign: string, body: string)
    requires sign == "" || sign == "+" || sign == "-"
    requires body != [] && body[0] != '+' && body[0] != '-'
    ensures ParseUint(body).Err? ==> ParseInt(sign + body) == Err(ParseUint(body).error)
    ensures ParseUint(body).Ok? ==> ParseInt(sign + body) == Signed(sign == "-", ParseUint(body).value)
  {
    var s := sign + body;
    if sign == "" {
      assert s == body;
    } else {
      assert s[0] == sign[0] && s[1..] == body;
    }
  }

  /** The prefix of a base-0 numeral selects its base, and the digits that
      follow it are what remains. */
  lemma PrefixBase(prefix: string, ds: string, base: nat)
    requires (prefix, base) in {("0x", 16), ("0X", 16), ("0o", 8), ("0O", 8), ("0b", 2), ("0B", 2), ("0", 8)}
          || (prefix == "" && base == 10 && |ds| >= 1 && ds[0] != '0')
    requires |ds| >= 1 && AllDigits(ds, base)
    ensures prefix + ds != [] && BasePrefix(prefix + ds) == (base, ds)
  {
    var body := prefix + ds;
    if prefix == "" {
      assert body == ds;
    } else if prefix == "0" {
      assert body[0] == '0' && body[1..] == ds;
      assert DigitValue(ds[0]).value < 8;
      assert IsDecimalDigit(ds[0]) && Lower(ds[0]) == ds[0];
    } else {
      assert |prefix| == 2;
      assert body[0] == '0' && body[1] == prefix[1] && body[2..] == ds;
    }
  }

  /** A signed numeral in any of the base-0 notations: "0x"/"0X" hex,
      "0o"/"0O" or a bare leading "0" octal, "0b"/"0B" binary, or decimal
      without a leading zero. ParseInt gives the digits' value in that base
      under the sign, or a range error outside int64. */
  lemma ParsePrefixed(sign: string, prefix: string, ds: string, base: nat)
    requires sign == "" || sign == "+" || sign == "-"
    requires (prefix, base) in {("0x", 16), ("0X", 16), ("0o", 8), ("0O", 8), ("0b", 2), ("0B", 2), ("0", 8)}
          || (prefix == "" && base == 10 && |ds| >= 1 && ds[0] != '0')
    requires |ds| >= 1 && AllDigits(ds, base)
    ensures ParseInt(sign + prefix + ds) == Signed(sign == "-", Horner(ds, base, 0))
  {
    var body := prefix + ds;
    PrefixBase(prefix, ds, base);
    assert body[0] == '0' || body[0] == ds[0];
    ParseUintDigits(body, base, ds);
    ParseIntSign(sign, body);
    assert sign + prefix + ds == sign + body;
  }

  /** The digit loop skips an underscore wherever it stands. */
  lemma {:induction false} AccumulateSkip(x: string, y: string, base: nat, n: nat)
    requires 2 <= base <= 36 && n <= MaxUint64
    ensures Accumulate(x + "_" + y, base, n) == Accumulate(x + y, base, n)
  {
    var a, b := x + "_" + y, x + y;
    if x == [] {
      assert a == "_" + y && a[1..] == y && b == y;
    } else {
      assert a[0] == x[0] && b[0] == x[0];
      assert a[1..] == x[1..] + "_" + y && b[1..] == x[1..] + y;
      if x[0] == '_' {
        AccumulateSkip(x[1..], y, base, n);
      } else if DigitValue(x[0]).Some? {
        var d := DigitValue(x[0]).value;
        if d < base && n < Cutoff(base) && n * base + d <= MaxUint64 {
          AccumulateSkip(x[1..], y, base, n * base + d);
        }
      }
    }
  }

  /** After a run of digits the underscore check is in its "digit" state. */
  lemma {:induction false} DigitsThenSeparators(d: string, rest: string, saw: Saw, hex: bool)
    requires IsNumeral(d)
    ensures SeparatorsOK(d + rest, saw, hex) == SeparatorsOK(rest, Digit, hex)
  {
    var s := d + rest;
    assert s[0] == d[0] && IsDecimalDigit(d[0]);
    if |d| == 1 {
      assert s[1..] == rest;
    } else {
      assert s[1..] == d[1..] + rest;
      DigitsThenSeparators(d[1..], rest, Digit, hex);
    }
  }

  lemma NumeralConcat(a: string, b: string)
    requires IsNumeral(a) && IsNumeral(b)
    ensures IsNumeral(a + b) && '_' !in a + b
  {
    var ab := a + b;
    forall i | 0 <= i < |ab| ensures IsDecimalDigit(ab[i]) {
      if i >= |a| { assert ab[i] == b[i - |a|]; }
    }
    assert forall i :: 0 <= i < |ab| ==> ab[i] != '_';
  }

  /** A text that starts with a digit and continues with a digit or an
      underscore carries no letter prefix: decimal, or octal after a "0". */
  lemma NumeralBase(s: string)
    requires s != [] && IsDecimalDigit(s[0])
    requires |s| >= 2 ==> s[1] == '_' || IsDecimalDigit(s[1])
    ensures BasePrefix(s) == if s[0] == '0' then (8, s[1..]) else (10, s)
  {
    if |s| >= 2 {
      assert Lower(s[1]) == s[1];
    }
  }

  /** underscoreOK accepts one underscore between two runs of digits. */
  lemma UnderscoreBetweenOK(a: string, b: string)
    requires IsNumeral(a) && IsNumeral(b)
    ensures UnderscoreOK(a + "_" + b)
  {
    var s := a + "_" + b;
    assert s == a + ("_" + b) && s[0] == a[0];
    assert |s| >= 2 && (s[1] == '_' || IsDecimalDigit(s[1]));
    assert Lower(s[1]) == s[1];
    DigitsThenSeparators(a, "_" + b, Start, false);
    assert ("_" + b)[1..] == b;
    DigitsThenSeparators(b, [], Underscore, false);
    assert b + [] == b;
  }

  /** An underscore between two runs of digits changes nothing. */
  lemma UnderscoreBetweenDigits(a: string, b: string)
    requires IsNumeral(a) && IsNumeral(b)
    ensures ParseInt(a + "_" + b) == ParseInt(a + b)
  {
    var s1, s2 := a + "_" + b, a + b;
    NumeralConcat(a, b);
    assert s1[0] == a[0] && s2[0] == a[0];
    assert s1[1] == '_' || IsDecimalDigit(s1[1]);
    NumeralBase(s1);
    NumeralBase(s2);
    var x := if a[0] == '0' then a[1..] else a;
    var base := if a[0] == '0' then 8 else 10;
    if a[0] == '0' {
      assert s1[1..] == x + "_" + b && s2[1..] == x + b;
    }
    assert BasePrefix(s1) == (base, x + "_" + b) && BasePrefix(s2) == (base, x + b);
    AccumulateSkip(x, b, base, 0);
    UnderscoreBetweenOK(a, b);
    assert ParseUint(s1) == ParseUint(s2);
    ParseIntSign("", s1);
    ParseIntSign("", s2);
    assert "" + s1 == s1 && "" + s2 == s2;
  }

  /** An underscore before the first digit makes a numeral a syntax error,
      unless its digits already overflow uint64, which is reported first. */
  lemma LeadingUnderscore(a: string)
    requires IsNumeral(a)
    ensures ParseInt("_" + a) == if Horner(a, 10, 0) <= MaxUint64 then Err(ErrSyntax) else Err(ErrRange)
  {
    var s := "_" + a;
    assert s[0] == '_' && s[1..] == a;
    assert BasePrefix(s) == (10, s);
    AccumulateDigits(a, 10, 0);
    assert !UnderscoreOK(s);
    ParseIntSign("", s);
    assert "" + s == s;
  }

  /** An underscore after the last digit of a decimal numeral: the same. */
  lemma TrailingUnderscore(a: string)
    requires IsNumeral(a) && a[0] != '0'
    ensures ParseInt(a + "_") == if Horner(a, 10, 0) <= MaxUint64 then Err(ErrSyntax) else Err(ErrRange)
  {
    var t := a + "_";
    assert t == a + "_" + [] && a + [] == a;
    AccumulateSkip(a, [], 10, 0);
    AccumulateDigits(a, 10, 0);
    assert t[0] == a[0];
    assert BasePrefix(t) == (10, t);
    assert t[|t| - 1] == '_';
    ParseIntSign("", t);
    assert "" + t == t;
  }

  lemma DoubledUnderscoreNotOK(a: string, b: string)
    requires IsNumeral(a) && a[0] != '0'
    ensures !UnderscoreOK(a + "__" + b)
  {
    var w := a + "__" + b;
    assert w == a + ("__" + b) && w[0] == a[0];
    DigitsThenSeparators(a, "__" + b, Start, false);
    assert ("__" + b)[0] == '_' && ("__" + b)[1..] == "_" + b;
  }

  lemma DoubledUnderscoreDigits(a: string, b: string)
    requires IsNumeral(a) && IsNumeral(b)
    ensures Accumulate(a + "__" + b, 10, 0) == Accumulate(a + b, 10, 0)
  {
    var u := "_" + b;
    assert "__" + b == "_" + u;
    assert a + "__" + b == a + "_" + u;
    AccumulateSkip(a, u, 10, 0);
    assert a + u == a + "_" + b;
    AccumulateSkip(a, b, 10, 0);
  }

  /** Two underscores in a row inside a decimal numeral: the same. */
  lemma DoubledUnderscore(a: string, b: string)
    requires IsNumeral(a) && IsNumeral(b) && a[0] != '0'
    ensures ParseInt(a + "__" + b) == if Horner(a + b, 10, 0) <= MaxUint64 then Err(ErrSyntax) else Err(ErrRange)
  {
    NumeralConcat(a, b);
    AccumulateDigits(a + b, 10, 0);
    DoubledUnderscoreDigits(a, b);
    DoubledUnderscoreNotOK(a, b);
    var w := a + "__" + b;
    assert w[0] == a[0];
    assert BasePrefix(w) == (10, w);
    assert '_' in w by { assert w[|a|] == '_'; }
    ParseIntSign("", w);
    assert "" + w == w;
  }

  /** Hex at work. */
  lemma HexExample()
    ensures ParseInt("0x1F") == Ok(31)
  {
    var ds := "1F";
    assert AllDigits(ds, 16);
    assert Horner(ds, 16, 0) == 31;
    assert "0x1F" == "" + "0x" + ds;
    ParsePrefixed("", "0x", ds, 16);
  }

  /** A signed binary numeral. */
  lemma SignedBinaryExample()
    ensures ParseInt("-0b101") == Ok(-5)
  {
    var ds := "101";
    assert AllDigits(ds, 2);
    assert Horner(ds, 2, 0) == 5;
    assert "-0b101" == "-" + "0b" + ds;
    ParsePrefixed("-", "0b", ds, 2);
  }

  /** An octal numeral with a plus sign. */
  lemma SignedOctalExample()
    ensures ParseInt("+0o17") == Ok(15)
  {
    var ds := "17";
    assert AllDigits(ds, 8);
    assert Horner(ds, 8, 0) == 15;
    assert "+0o17" == "+" + "0o" + ds;
    ParsePrefixed("+", "0o", ds, 8);
  }

  /** A digit-group separator. */
  lemma GroupedExample()
    ensures ParseInt("1_000") == Ok(1000)
  {
    var a, b := "1", "000";
    assert IsNumeral(a) && IsNumeral(b);
    assert "1_000" == a + "_" + b;
    UnderscoreBetweenDigits(a, b);
    var ds := a + b;
    assert AllDigits(ds, 10);
    assert Horner(ds, 10, 0) == 1000;
    assert ds == "" + "" + ds;
    ParsePrefixed("", "", ds, 10);
  }

  /** Misplaced separators. */
  lemma MisplacedExamples()
    ensures ParseInt("_1") == Err(ErrSyntax)
    ensures ParseInt("1_") == Err(ErrSyntax)
    ensures ParseInt("1__0") == Err(ErrSyntax)
  {
    var a, b := "1", "0";
    assert IsNumeral(a) && IsNumeral(b);
    assert Horner(a, 10, 0) == 1;
    assert Horner(a + b, 10, 0) == 10;
    assert "_1" == "_" + a && "1_" == a + "_" && "1__0" == a + "__" + b;
    LeadingUnderscore(a);
    TrailingUnderscore(a);
    DoubledUnderscore(a, b);
  }

  /** ParseInt of an unsigned text from its three steps: the base prefix,
      the digit loop and the underscore check. */
  lemma ParseIntSteps(s: string, base: nat, w: string, r: Result<nat, NumErr>)
    requires s != [] && s[0] != '+' && s[0] != '-'
    requires BasePrefix(s) == (base, w) && Accumulate(w, base, 0) == r
    requires r.Ok? ==> r.value < Int64Cutoff
    ensures r.Ok? ==> ParseInt(s) == (if '_' !in w || UnderscoreOK(s) then Ok(r.value) else Err(ErrSyntax))
    ensures r.Err? ==> ParseInt(s) == Err(r.error)
  {
    ParseIntSign("", s);
    assert "" + s == s;
  }

  /** A separator right after a base prefix. */
  lemma PrefixSeparatorExample()
    ensures ParseInt("0x_1F") == Ok(31)
  {
    var s, w := "0x_1F", "_1F";
    assert BasePrefix(s) == (16, w) by { assert s[2..] == w; }
    assert Accumulate(w, 16, 0) == Ok(31) by {
      assert w == "" + "_" + "1F" && "" + "1F" == "1F";
      AccumulateSkip("", "1F", 16, 0);
      assert AllDigits("1F", 16) && Horner("1F", 16, 0) == 31;
      AccumulateDigits("1F", 16, 0);
    }
    assert UnderscoreOK(s) by {
      UnderscoreRule(s);
      assert s[2..] == w && w[0] == '_' && w[1] == '1' && w[2] == 'F';
    }
    ParseIntSteps(s, 16, w, Ok(31));
  }

  /** A separator between binary digits. */
  lemma BinarySeparatorExample()
    ensures ParseInt("0b1_01") == Ok(5)
  {
    var s, w := "0b1_01", "1_01";
    assert BasePrefix(s) == (2, w) by { assert s[2..] == w; }
    assert Accumulate(w, 2, 0) == Ok(5) by {
      assert w == "1" + "_" + "01" && "1" + "01" == "101";
      AccumulateSkip("1", "01", 2, 0);
      assert AllDigits("101", 2) && Horner("101", 2, 0) == 5;
      AccumulateDigits("101", 2, 0);
    }
    assert UnderscoreOK(s) by {
      UnderscoreRule(s);
      assert s[2..] == w && w[0] == '1' && w[1] == '_' && w[2] == '0' && w[3] == '1';
    }
    ParseIntSteps(s, 2, w, Ok(5));
  }

  /** Two separators in a row after a hex prefix. */
  lemma HexDoubledSeparatorExample()
    ensures ParseInt("0x1__F") == Err(ErrSyntax)
  {
    var s, w := "0x1__F", "1__F";
    assert BasePrefix(s) == (16, w) by { assert s[2..] == w; }
    assert Accumulate(w, 16, 0) == Ok(31) by {
      assert w == "1" + "_" + "_F" && "1" + "_F" == "1_F";
      AccumulateSkip("1", "_F", 16, 0);
      assert "1_F" == "1" + "_" + "F" && "1" + "F" == "1F";
      AccumulateSkip("1", "F", 16, 0);
      assert AllDigits("1F", 16) && Horner("1F", 16, 0) == 31;
      AccumulateDigits("1F", 16, 0);
    }
    assert !UnderscoreOK(s) by {
      UnderscoreRule(s);
      assert s[2..] == w && w[1] == '_' && w[2] == '_';
    }
    assert '_' in w by { assert w[1] == '_'; }
    ParseIntSteps(s, 16, w, Ok(31));
  }
}
