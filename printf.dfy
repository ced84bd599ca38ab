/**
 * The two conversions of the C standard I/O library that `CheckError` relies
 * on: `%d` (the signed decimal rendering of an `int`, which `sprintf` writes
 * into a caller's buffer) and `%s` (which copies a NUL-terminated string up to,
 * and not including, its terminator).
 */
module Printf {
  import opened Wrappers

  const Nul: char := '\0'

  predicate IsDigit(c: char) {
    '0' <= c <= '9'
  }

  function DigitChar(d: nat): (c: char)
    requires d < 10
    ensures IsDigit(c) && c as int - '0' as int == d
  {
    ('0' as int + d) as char
  }

  function DigitValue(c: char): (d: nat)
    requires IsDigit(c)
    ensures d < 10 && DigitChar(d) == c
  {
    c as int - '0' as int
  }

  function Pow10(k: nat): (p: nat)
    ensures p >= 1
  {
    if k == 0 then 1 else 10 * Pow10(k - 1)
  }

  /** The decimal digits of `n`, most significant first, without leading zeros. */
  function NatDigits(n: nat): (s: seq<char>)
    ensures |s| >= 1
    ensures forall i :: 0 <= i < |s| ==> IsDigit(s[i])
    ensures n >= 10 ==> s[0] != '0'
  {
    if n < 10 then [DigitChar(n)] else NatDigits(n / 10) + [DigitChar(n % 10)]
  }

  /** What `%d` prints for `n`: a `-` in front of the digits of a negative value. */
  function DecimalString(n: int): (s: seq<char>)
    ensures |s| >= 1
    ensures s[0] == '-' <==> n < 0
    ensures s[0] == '-' || IsDigit(s[0])
    ensures Nul !in s
  {
    if n < 0 then ['-'] + NatDigits(-n) else NatDigits(n)
  }

  /** Reads a non-empty run of decimal digits; anything else is rejected. */
  function ParseDigits(s: seq<char>): (r: Option<nat>)
    ensures r.Some? ==> |s| >= 1 && forall i :: 0 <= i < |s| ==> IsDigit(s[i])
  {
    if |s| == 0 || !IsDigit(s[|s| - 1]) then None
    else if |s| == 1 then Some(DigitValue(s[0]))
    else match ParseDigits(s[..|s| - 1])
      case None => None
      case Some(v) => Some(v * 10 + DigitValue(s[|s| - 1]))
  }

  /** Reads back what `%d` prints: an optional `-` followed by digits. */
  function ParseDecimal(s: seq<char>): (r: Option<int>)
    ensures r.Some? && r.value < 0 ==> |s| >= 1 && s[0] == '-'
  {
    if |s| >= 1 && s[0] == '-' then
      match ParseDigits(s[1..])
      case None => None
      case Some(v) => Some(-(v as int))
    else
      match ParseDigits(s)
      case None => None
      case Some(v) => Some(v)
  }

  lemma {:induction false} ParseDigitsRoundTrip(n: nat)
    ensures ParseDigits(NatDigits(n)) == Some(n)
  {
    if n >= 10 {
      var s := NatDigits(n);
      assert s[..|s| - 1] == NatDigits(n / 10);
      ParseDigitsRoundTrip(n / 10);
    }
  }

  /** Parsing the `%d` rendering of any integer gives the integer back. */
  lemma {:induction false} ParseDecimalRoundTrip(n: int)
    ensures ParseDecimal(DecimalString(n)) == Some(n)
  {
    var s := DecimalString(n);
    if n < 0 {
      assert s[1..] == NatDigits(-n);
      ParseDigitsRoundTrip(-n);
      assert ParseDigits(s[1..]) == Some(-n);
    } else {
      assert s == NatDigits(n) && s[0] != '-';
      ParseDigitsRoundTrip(n);
    }
  }

  /** A value below 10^k has at most k digits. */
  lemma {:induction false} NatDigitsLength(n: nat, k: nat)
    requires 1 <= k && n < Pow10(k)
    ensures |NatDigits(n)| <= k
  {
    if n >= 10 {
      NatDigitsLength(n / 10, k - 1);
    }
  }

  /**
   * The `%d` rendering of a 32-bit value is at most 11 characters long
   * (`-2147483648` is the longest).
   */
  lemma DecimalStringLength32(n: int)
    requires -0x8000_0000 <= n < 0x8000_0000
    ensures |DecimalString(n)| <= 11
  {
    assert Pow10(10) == 10_000_000_000;
    if n < 0 {
      NatDigitsLength(-n, 10);
    } else {
      NatDigitsLength(n, 10);
    }
  }

  /** The characters that `%s` copies out of a C string: those before the first NUL. */
  function CString(s: seq<char>): (t: seq<char>)
    ensures |t| <= |s| && t == s[..|t|]
    ensures Nul !in t
    ensures |t| < |s| ==> s[|t|] == Nul
  {
    if |s| == 0 || s[0] == Nul then [] else [s[0]] + CString(s[1..])
  }

  /** A string followed by its terminator and anything else reads as that string. */
  lemma {:induction false} CStringOfTerminated(t: seq<char>, rest: seq<char>)
    requires Nul !in t
    ensures CString(t + [Nul] + rest) == t
  {
    if |t| > 0 {
      assert (t + [Nul] + rest)[1..] == t[1..] + [Nul] + rest;
      CStringOfTerminated(t[1..], rest);
    }
  }

  /**
   * The scan that `%s` performs on a buffer: read characters until the
   * terminator. The buffer must hold a terminator.
   */
  method ReadCString(buf: array<char>) returns (s: seq<char>)
    requires exists k :: 0 <= k < buf.Length && buf[k] == Nul
    ensures |s| < buf.Length && buf[|s|] == Nul
    ensures s == buf[..|s|] && Nul !in s
    ensures s == CString(buf[..])
  {
    var n := 0;
    while buf[n] != Nul
      invariant 0 <= n < buf.Length
      invariant forall j :: 0 <= j < n ==> buf[j] != Nul
      invariant exists k :: n <= k < buf.Length && buf[k] == Nul
      decreases buf.Length - n
    {
      n := n + 1;
    }
    s := buf[..n];
    assert buf[..] == s + [Nul] + buf[n + 1..];
    CStringOfTerminated(s, buf[n + 1..]);
  }

  /** Counts the decimal digits of `m` the way a formatter sizes its output. */
  method CountDigits(m: nat) returns (len: nat)
    ensures len == |NatDigits(m)|
  {
    len := 1;
    var q := m;
    while q >= 10
      invariant |NatDigits(m)| == len - 1 + |NatDigits(q)|
    {
      q := q / 10;
      len := len + 1;
    }
  }

  /**
   * Writes the digits of `m` and a terminator into `buf` from index `start`
   * on, touching nothing else.
   */
  method WriteDigits(buf: array<char>, start: nat, m: nat)
    requires start + |NatDigits(m)| < buf.Length
    modifies buf
    ensures buf[start..start + |NatDigits(m)|] == NatDigits(m)
    ensures buf[start + |NatDigits(m)|] == Nul
    ensures forall k :: 0 <= k < buf.Length && (k < start || start + |NatDigits(m)| < k) ==> buf[k] == old(buf[k])
  {
    var len := CountDigits(m);
    var end := start + len;
    buf[end] := Nul;
    var i := end - 1;
    var q := m;
    while q >= 10
      invariant start <= i < end
      invariant |NatDigits(q)| == i - start + 1
      invariant NatDigits(m) == NatDigits(q) + buf[i + 1..end]
      invariant buf[end] == Nul
      invariant forall k :: 0 <= k < buf.Length && (k < start || end < k) ==> buf[k] == old(buf[k])
    {
      ghost var done := buf[i + 1..end];
      buf[i] := DigitChar(q % 10);
      assert buf[i..end] == [DigitChar(q % 10)] + done;
      q := q / 10;
      i := i - 1;
    }
    ghost var done := buf[i + 1..end];
    buf[i] := DigitChar(q);
    assert buf[i..end] == [DigitChar(q)] + done;
  }

  /**
   * `sprintf(buf, "%d", n)`: writes the decimal rendering of `n` and its
   * terminator at the start of `buf` and leaves the rest of `buf` alone.
   * The caller must supply room for both.
   */
  method SprintDecimal(buf: array<char>, n: int)
    requires |DecimalString(n)| < buf.Length
    modifies buf
    ensures buf[..|DecimalString(n)|] == DecimalString(n)
    ensures buf[|DecimalString(n)|] == Nul
    ensures forall k :: |DecimalString(n)| < k < buf.Length ==> buf[k] == old(buf[k])
  {
    if n < 0 {
      buf[0] := '-';
      WriteDigits(buf, 1, -n);
      assert buf[..|DecimalString(n)|] == [buf[0]] + buf[1..|DecimalString(n)|];
    } else {
      WriteDigits(buf, 0, n);
    }
  }
}
