/** The C conventions the unlock workflow relies on: fixed-capacity char
    buffers that start zero-filled, NUL-terminated strings read out of them,
    the truncation snprintf applies when it writes into a buffer, and the
    decimal text "%d" prints for a non-negative count. */
module CText {

  const NUL: char := '\0'

  /** A buffer of n zero bytes: what `char buf[n] = {0}` starts as and what
      util_zero leaves behind. */
  function Zeros(n: nat): seq<char>
  {
    seq(n, _ => NUL)
  }

  /** The C string a buffer holds: the characters before its first NUL. */
  function CStr(buf: seq<char>): (s: string)
    ensures |s| <= |buf| && s == buf[..|s|]
    ensures NUL !in s
    ensures |s| < |buf| ==> buf[|s|] == NUL
  {
    if buf == [] || buf[0] == NUL then []
    else
      var tail := CStr(buf[1..]);
      assert buf[..1 + |tail|] == [buf[0]] + buf[1..][..|tail|];
      [buf[0]] + tail
  }

  /** The characters snprintf(out, size, "%s", s) stores before the NUL it
      always appends: at most size - 1 of them, a prefix of s. */
  function Truncated(s: string, size: nat): (t: string)
    requires 0 < size
    ensures |t| < size && |t| <= |s| && t == s[..|t|]
    ensures |s| < size ==> t == s
    ensures size <= |s| ==> |t| == size - 1
  {
    if |s| < size then s else s[..size - 1]
  }

  /** The whole buffer after snprintf(buf, |buf|, "%s", s): the truncated
      string, its terminating NUL, and the bytes after it left as they were. */
  function Written(buf: seq<char>, s: string): (r: seq<char>)
    requires 0 < |buf|
    ensures |r| == |buf|
  {
    var t := Truncated(s, |buf|);
    t + [NUL] + buf[|t| + 1..]
  }

  /** Whatever follows a NUL does not belong to the C string. */
  lemma {:induction false} CStrBeforeNul(t: string, rest: seq<char>)
    ensures CStr(t + [NUL] + rest) == CStr(t)
  {
    if t != [] && t[0] != NUL {
      assert (t + [NUL] + rest)[1..] == t[1..] + [NUL] + rest;
      CStrBeforeNul(t[1..], rest);
    }
  }

  /** A string without NUL reads back unchanged. */
  lemma CStrOfPlain(t: string)
    requires NUL !in t
    ensures CStr(t) == t
  {
  }

  /** After snprintf the buffer's C string is the truncated input, up to its
      first NUL, whatever the buffer held before. */
  lemma CStrOfWritten(buf: seq<char>, s: string)
    requires 0 < |buf|
    ensures CStr(Written(buf, s)) == CStr(Truncated(s, |buf|))
  {
    var t := Truncated(s, |buf|);
    CStrBeforeNul(t, buf[|t| + 1..]);
  }

  /** Copying a string without NUL: the buffer then holds it, truncated. */
  lemma CStrOfCopy(buf: seq<char>, s: string)
    requires 0 < |buf| && NUL !in s
    ensures CStr(Written(buf, s)) == Truncated(s, |buf|)
  {
    CStrOfWritten(buf, s);
    CStrOfPlain(Truncated(s, |buf|));
  }

  /** snprintf(out, out.Length, "%s", s). */
  method WriteString(out: array<char>, s: string)
    requires 0 < out.Length
    modifies out
    ensures out[..] == Written(old(out[..]), s)
  {
    var t := Truncated(s, out.Length);
    var i := 0;
    while i < |t|
      invariant 0 <= i <= |t|
      invariant forall j :: 0 <= j < i ==> out[j] == t[j]
      invariant forall j :: i <= j < out.Length ==> out[j] == old(out[j])
    {
      out[i] := t[i];
      i := i + 1;
    }
    out[|t|] := NUL;
    assert out[..] == Written(old(out[..]), s);
  }

  function DigitChar(d: nat): (c: char)
    requires d < 10
    ensures '0' <= c <= '9' && c as int - '0' as int == d
  {
    ('0' as int + d) as char
  }

  /** The text "%d" prints for n: its decimal digits, most significant first. */
  function Decimal(n: nat): (s: string)
    ensures 0 < |s|
    ensures forall i :: 0 <= i < |s| ==> '0' <= s[i] <= '9'
    ensures s[0] == '0' ==> n == 0
    decreases n
  {
    if n < 10 then [DigitChar(n)] else Decimal(n / 10) + [DigitChar(n % 10)]
  }

  /** The number a string of decimal digits denotes. */
  function DigitsValue(s: string): int
  {
    if s == [] then 0 else DigitsValue(s[..|s| - 1]) * 10 + (s[|s| - 1] as int - '0' as int)
  }

  /** Reading the digits back gives the count that was printed. */
  lemma {:induction false} DecimalRoundTrip(n: nat)
    ensures DigitsValue(Decimal(n)) == n
    decreases n
  {
    if n >= 10 {
      var s := Decimal(n);
      assert s[..|s| - 1] == Decimal(n / 10);
      DecimalRoundTrip(n / 10);
    }
  }

  /** A count below 1000 prints as at most three digits. */
  lemma {:induction false} DecimalLength(n: nat)
    requires n < 1000
    ensures |Decimal(n)| <= 3
    ensures n < 100 ==> |Decimal(n)| <= 2
    ensures n < 10 ==> |Decimal(n)| == 1
  {
    if n >= 10 {
      DecimalLength(n / 10);
    }
  }
}
