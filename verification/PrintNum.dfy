/** print_num of lib/print.c: a number in a buffer that is filled and turned round in place, and
    the proof that reading the output gives the number back. */
module PrintNum {
  import opened Prelude

  const WORD := 0x1_0000_0000

  predicate Base(b: nat) { b == 2 || b == 8 || b == 10 || b == 16 }

  function DigitChar(d: nat, upcase: bool): char
    requires d < 16
  {
    if d <= 9 then ('0' as int + d) as char
    else if upcase then ('A' as int + d - 10) as char
    else ('a' as int + d - 10) as char
  }

  function DigitValue(c: char): nat {
    if '0' <= c <= '9' then c as int - '0' as int
    else if 'A' <= c <= 'F' then c as int - 'A' as int + 10
    else if 'a' <= c <= 'f' then c as int - 'a' as int + 10
    else 0
  }

  /** The digits of u, lowest first, as the first loop produces them. */
  function LowFirst(u: nat, base: nat, upcase: bool): (s: string)
    requires 2 <= base <= 16
    ensures s != ""
  {
    [DigitChar(u % base, upcase)] + (if u / base == 0 then "" else LowFirst(u / base, base, upcase))
  }

  function Repeat(c: char, n: nat): (s: string)
    ensures |s| == n && forall i :: 0 <= i < n ==> s[i] == c
  {
    seq(n, _ => c)
  }

  function Sign(neg: bool): string { if neg then "-" else "" }

  /** What print_num puts out. */
  function Output(u: nat, base: nat, neg: bool, length: nat, ladjust: bool, padc: char, upcase: bool): string
    requires 2 <= base <= 16
  {
    var n := |LowFirst(u, base, upcase)| + |Sign(neg)|;
    Layout(Reverse(LowFirst(u, base, upcase)), neg, if length > n then length - n else 0, ladjust, padc)
  }

  /** Digits, sign and padding: spaces to the right of a left-adjusted number; zeros between the
      sign and the digits; anything else to the left of the sign. */
  function Layout(digits: string, neg: bool, pad: nat, ladjust: bool, padc: char): string {
    if ladjust then Sign(neg) + digits + Repeat(' ', pad)
    else if neg && padc == '0' then "-" + Repeat('0', pad) + digits
    else Repeat(padc, pad) + Sign(neg) + digits
  }

  // ----------------------------------------------------------------------- bounds

  function Power(k: nat): nat { if k == 0 then 1 else 2 * Power(k - 1) }

  lemma {:induction false} DigitCount(u: nat, base: nat, upcase: bool, k: nat)
    requires 2 <= base <= 16 && u < Power(k) && k >= 1
    ensures |LowFirst(u, base, upcase)| <= k
    decreases k
  {
    if u / base != 0 {
      assert u / base <= u / 2;
      assert k >= 2;
      DigitCount(u / base, base, upcase, k - 1);
    }
  }

  lemma WordDigits(u: nat, base: nat, upcase: bool)
    requires 2 <= base <= 16 && u < WORD
    ensures |LowFirst(u, base, upcase)| <= 32
  {
    assert Power(8) == 256 && Power(16) == 0x1_0000 && Power(24) == 0x100_0000;
    assert Power(32) == WORD;
    DigitCount(u, base, upcase, 32);
  }

  // --------------------------------------------------------------------- the code

  lemma {:induction false} ReversedAt(s: string, k: nat)
    requires k < |s|
    ensures |Reverse(s)| == |s| && Reverse(s)[k] == s[|s| - 1 - k]
  {
    ReverseKeeps(s);
    if |s| > 1 {
      ReverseKeeps(s[1..]);
      if k < |s| - 1 { ReversedAt(s[1..], k); }
    }
  }

  /** The loop at the end of print_num: the first n characters are turned round. */
  method TurnRound(buf: array<char>, n: nat)
    requires n <= buf.Length
    modifies buf
    ensures buf[..n] == Reverse(old(buf[..n])) && buf[n..] == old(buf[n..])
  {
    ghost var was := buf[..n];
    var begin, end := 0, n - 1;
    while end > begin
      invariant 0 <= begin && end == n - 1 - begin && begin <= end + 2
      invariant forall k :: n <= k < buf.Length ==> buf[k] == old(buf[k])
      invariant forall k :: 0 <= k < begin ==> buf[k] == was[n - 1 - k]
      invariant forall k :: end < k < n ==> buf[k] == was[n - 1 - k]
      invariant forall k :: begin <= k <= end ==> buf[k] == was[k]
    {
      buf[begin], buf[end] := buf[end], buf[begin];
      begin, end := begin + 1, end - 1;
    }
    forall k | 0 <= k < n ensures |Reverse(was)| == n && buf[..n][k] == Reverse(was)[k] { ReversedAt(was, k); }
    ReverseKeeps(was);
  }

  lemma Shrinks(v: nat, base: nat)
    requires base >= 2
    ensures 0 <= v / base && (v > 0 ==> v / base < v)
  {}

  lemma MoreDigits(all: string, done: string, v: nat, base: nat, upcase: bool)
    requires 2 <= base <= 16 && all == done + LowFirst(v, base, upcase)
    ensures all == (done + [DigitChar(v % base, upcase)]) + (if v / base != 0 then LowFirst(v / base, base, upcase) else "")
    ensures |done| < |all|
  {}

  /** The loop that makes the digits; they fit in 32 characters. */
  method MakeDigits(buf: array<char>, u: nat, base: nat, upcase: bool) returns (p: nat)
    requires u < WORD && Base(base) && buf.Length >= 70
    modifies buf
    ensures p <= 32 && p == |LowFirst(u, base, upcase)| && buf[..p] == LowFirst(u, base, upcase)
  {
    WordDigits(u, base, upcase);
    ghost var all := LowFirst(u, base, upcase);
    var v: nat := u;
    p := 0;
    var more := true;
    while more
      invariant p <= |all| && all == buf[..p] + (if more then LowFirst(v, base, upcase) else "")
      decreases |all| - p
    {
      MoreDigits(all, buf[..p], v, base, upcase);
      Shrinks(v, base);
      ghost var done := buf[..p];
      buf[p] := DigitChar(v % base, upcase);
      assert buf[..p + 1] == done + [DigitChar(v % base, upcase)];
      p, v := p + 1, v / base;
      more := v != 0;
    }
  }

  /** A padding loop. */
  method Pad(buf: array<char>, lo: nat, hi: nat, c: char)
    requires lo <= hi <= buf.Length
    modifies buf
    ensures buf[..lo] == old(buf[..lo]) && buf[lo..hi] == Repeat(c, hi - lo)
  {
    var i := lo;
    while i < hi
      invariant lo <= i <= hi && buf[..lo] == old(buf[..lo]) && forall k :: lo <= k < i ==> buf[k] == c
    {
      buf[i] := c;
      i := i + 1;
    }
  }

  /** The padding loop for a negative number padded with zeros: the sign moves to the end. */
  method PadBetween(buf: array<char>, actual: nat, length: nat, ghost low: string)
    requires 1 <= actual <= length <= buf.Length && buf[..actual] == low + "-"
    modifies buf
    ensures buf[..length] == low + Repeat('0', length - actual) + "-"
  {
    Pad(buf, actual - 1, length - 1, '0');
    assert buf[..actual - 1] == low;
    buf[length - 1] := '-';
    assert buf[..length] == buf[..actual - 1] + buf[actual - 1..length - 1] + ['-'];
  }

  lemma {:induction false} ReverseConcat(a: string, b: string)
    ensures Reverse(a + b) == Reverse(b) + Reverse(a)
  {
    if a == "" {
      assert a + b == b && Reverse(b) + "" == Reverse(b);
    } else {
      assert (a + b)[1..] == a[1..] + b;
      ReverseConcat(a[1..], b);
      assert Reverse(b) + Reverse(a[1..]) + [a[0]] == Reverse(b) + (Reverse(a[1..]) + [a[0]]);
    }
  }

  lemma {:induction false} ReverseRepeat(c: char, n: nat)
    ensures Reverse(Repeat(c, n)) == Repeat(c, n)
  {
    ReverseKeeps(Repeat(c, n));
    forall k | 0 <= k < n ensures Reverse(Repeat(c, n))[k] == c { ReversedAt(Repeat(c, n), k); }
  }

  lemma ReverseSign(neg: bool)
    ensures Reverse(Sign(neg)) == Sign(neg)
  {
    if neg {
      assert "-"[1..] == "" && Reverse("-") == Reverse("") + ['-'];
    }
  }

  /** What the buffer holds before it is turned round. */
  function Filled(low: string, neg: bool, ladjust: bool, padc: char, pad: nat): string {
    if neg && !ladjust && padc == '0' then low + Repeat('0', pad) + "-" else low + Sign(neg) + Repeat(padc, pad)
  }

  lemma TurnedRight(low: string, neg: bool, padc: char, pad: nat)
    ensures Reverse(Filled(low, neg, false, padc, pad)) ==
      if neg && padc == '0' then "-" + Repeat('0', pad) + Reverse(low) else Repeat(padc, pad) + Sign(neg) + Reverse(low)
  {
    ReverseRepeat(padc, pad);
    ReverseSign(neg);
    ReverseSign(true);
    if neg && padc == '0' {
      ReverseConcat(low + Repeat('0', pad), "-");
      ReverseConcat(low, Repeat('0', pad));
      assert "-" + (Repeat('0', pad) + Reverse(low)) == "-" + Repeat('0', pad) + Reverse(low);
    } else {
      ReverseConcat(low + Sign(neg), Repeat(padc, pad));
      ReverseConcat(low, Sign(neg));
      assert Repeat(padc, pad) + (Sign(neg) + Reverse(low)) == Repeat(padc, pad) + Sign(neg) + Reverse(low);
    }
  }

  lemma TurnedLeft(low: string, neg: bool)
    ensures Reverse(low + Sign(neg)) == Sign(neg) + Reverse(low)
  {
    ReverseConcat(low, Sign(neg));
    ReverseSign(neg);
  }

  /** print_num up to the point where the buffer is turned round. */
  method FillBuffer(buf: array<char>, u: nat, base: nat, neg: bool, width: nat, ladjust: bool, padc: char, upcase: bool)
    returns (actual: nat, length: nat)
    requires u < WORD && Base(base) && buf.Length == width + 70
    modifies buf
    ensures actual == |LowFirst(u, base, upcase) + Sign(neg)| && length == (if width < actual then actual else width) <= buf.Length
    ensures buf[..length] == Filled(LowFirst(u, base, upcase), neg, ladjust, padc, length - actual)
  {
    var p := MakeDigits(buf, u, base, upcase);
    ghost var low := LowFirst(u, base, upcase);
    if neg {
      buf[p] := '-';
      p := p + 1;
    }
    actual, length := p, width;
    assert buf[..actual] == low + Sign(neg);
    if length < actual {
      length := actual;
    }
    if neg && !ladjust && padc == '0' {
      PadBetween(buf, actual, length, low);
    } else {
      Pad(buf, actual, length, padc);
      assert buf[..length] == buf[..actual] + buf[actual..length];
    }
  }

  lemma LeftFilled(full: string, out: string, low: string, neg: bool, pad: nat, actual: nat)
    requires full == Filled(low, neg, true, ' ', pad) && actual == |low + Sign(neg)| && |out| == |full|
    requires out[..actual] == Reverse(full[..actual]) && out[actual..] == full[actual..]
    ensures out == Sign(neg) + Reverse(low) + Repeat(' ', pad)
  {
    TurnedLeft(low, neg);
    assert full[..actual] == low + Sign(neg) && full[actual..] == Repeat(' ', pad);
    assert out == out[..actual] + out[actual..];
  }

  /** The end of print_num for a left-adjusted number. */
  method TurnLeft(buf: array<char>, actual: nat, length: nat, ghost low: string, ghost neg: bool)
    requires actual == |low + Sign(neg)| && actual <= length <= buf.Length
    requires buf[..length] == Filled(low, neg, true, ' ', length - actual)
    modifies buf
    ensures buf[..length] == Sign(neg) + Reverse(low) + Repeat(' ', length - actual)
  {
    ghost var full, head, tail := buf[..length], buf[..actual], buf[actual..];
    assert full[..actual] == head && full[actual..] == tail[..length - actual];
    TurnRound(buf, actual);
    ghost var out := buf[..length];
    assert out[..actual] == buf[..actual] && out[actual..] == buf[actual..][..length - actual];
    LeftFilled(full, out, low, neg, length - actual, actual);
  }

  // ------------------------------------------------- the form of the output

  /** Digits above nine are letters of the case asked for. */
  ghost predicate CaseRight(s: string, upcase: bool) {
    forall i :: 0 <= i < |s| ==> if upcase then !('a' <= s[i] <= 'f') else !('A' <= s[i] <= 'F')
  }

  /** Where the padding stands in an output with n characters of sign and digits: spaces after a
      left-adjusted number; zeros after the sign; any other padding, and zeros without a sign, in
      front. */
  ghost predicate PaddingRight(s: string, n: nat, neg: bool, ladjust: bool, padc: char) {
    var pad := |s| - n;
    && 0 <= pad && 0 < n
    && (if ladjust then
          (forall i :: n <= i < |s| ==> s[i] == ' ') && (neg ==> s[0] == '-') && s[n - 1] != ' '
        else if neg && padc == '0' then
          s[0] == '-' && (forall i :: 1 <= i <= pad ==> s[i] == '0')
        else
          (forall i :: 0 <= i < pad ==> s[i] == padc) && (neg ==> s[pad] == '-'))
  }

  lemma {:induction false} LowCase(u: nat, base: nat, upcase: bool)
    requires 2 <= base <= 16
    ensures CaseRight(LowFirst(u, base, upcase), upcase)
    decreases u
  {
    Shrinks(u, base);
    if u / base != 0 { LowCase(u / base, base, upcase); }
  }

  lemma OutputCase(u: nat, base: nat, neg: bool, length: nat, ladjust: bool, padc: char, upcase: bool)
    requires 2 <= base <= 16 && (padc == ' ' || padc == '0')
    ensures CaseRight(Output(u, base, neg, length, ladjust, padc, upcase), upcase)
  {
    var low := LowFirst(u, base, upcase);
    LowCase(u, base, upcase);
    ReverseKeeps(low);
    forall i | 0 <= i < |low| ensures if upcase then !('a' <= Reverse(low)[i] <= 'f') else !('A' <= Reverse(low)[i] <= 'F') {
      ReversedAt(low, i);
    }
  }

  lemma OutputPadding(u: nat, base: nat, neg: bool, length: nat, ladjust: bool, padc: char, upcase: bool)
    requires 2 <= base <= 16
    ensures PaddingRight(Output(u, base, neg, length, ladjust, padc, upcase), |LowFirst(u, base, upcase)| + |Sign(neg)|, neg, ladjust, padc)
  {
    var low := LowFirst(u, base, upcase);
    ReverseKeeps(low);
    DigitsPlain(u, base, upcase);
    var digits := Reverse(low);
    assert digits[|digits| - 1] in digits;
    var n := |low| + |Sign(neg)|;
    assert (Sign(neg) + digits)[n - 1] == digits[|digits| - 1];
  }

  /** print_num for a width that is not negative: all accesses lie in the buffer of length + 70
      characters. */
  method Print(u: nat, base: nat, neg: bool, width: nat, ladjust: bool, fill: char, upcase: bool) returns (out: string)
    requires u < WORD && Base(base)
    ensures out == Output(u, base, neg, width, ladjust, fill, upcase)
    ensures PaddingRight(out, |LowFirst(u, base, upcase)| + |Sign(neg)|, neg, ladjust, fill)
    ensures fill == ' ' || fill == '0' ==> CaseRight(out, upcase)
  {
    OutputPadding(u, base, neg, width, ladjust, fill, upcase);
    if fill == ' ' || fill == '0' { OutputCase(u, base, neg, width, ladjust, fill, upcase); }
    var buf := new char[width + 70];
    var padc := if ladjust then ' ' else fill;
    var actual, length := FillBuffer(buf, u, base, neg, width, ladjust, padc, upcase);
    ghost var low := LowFirst(u, base, upcase);
    if ladjust {
      TurnLeft(buf, actual, length, low, neg);
    } else {
      TurnRound(buf, length);
      TurnedRight(low, neg, padc, length - actual);
    }
    out := buf[..length];
  }

  // ------------------------------------------------------------------- reading back

  /** The number that digits stand for. */
  function Value(s: string, base: nat): nat {
    if s == "" then 0 else Value(s[..|s| - 1], base) * base + DigitValue(s[|s| - 1])
  }

  lemma DigitPlain(d: nat, upcase: bool)
    requires d < 16
    ensures DigitValue(DigitChar(d, upcase)) == d && DigitChar(d, upcase) != ' ' && DigitChar(d, upcase) != '-'
  {}

  lemma {:induction false} DigitsValue(u: nat, base: nat, upcase: bool)
    requires 2 <= base <= 16
    ensures Value(Reverse(LowFirst(u, base, upcase)), base) == u
    decreases u
  {
    var low := LowFirst(u, base, upcase);
    var digits := Reverse(low);
    Shrinks(u, base);
    DigitPlain(u % base, upcase);
    var more := if u / base == 0 then "" else LowFirst(u / base, base, upcase);
    assert low[1..] == more;
    assert digits == Reverse(more) + [DigitChar(u % base, upcase)];
    assert digits[..|digits| - 1] == Reverse(more) && digits[|digits| - 1] == DigitChar(u % base, upcase);
    if u / base != 0 { DigitsValue(u / base, base, upcase); }
    assert Value(Reverse(more), base) == u / base;
    Rejoins(u, base);
  }

  lemma Rejoins(u: nat, base: nat)
    requires base >= 2
    ensures u / base * base + u % base == u
  {}

  lemma {:induction false} DigitsPlain(u: nat, base: nat, upcase: bool)
    requires 2 <= base <= 16
    ensures ' ' !in Reverse(LowFirst(u, base, upcase)) && '-' !in Reverse(LowFirst(u, base, upcase))
    ensures Reverse(LowFirst(u, base, upcase)) != ""
    decreases u
  {
    var low := LowFirst(u, base, upcase);
    Shrinks(u, base);
    DigitPlain(u % base, upcase);
    ReverseKeeps(low);
    if u / base != 0 {
      assert low == [DigitChar(u % base, upcase)] + LowFirst(u / base, base, upcase);
      DigitsPlain(u / base, base, upcase);
      ReverseKeeps(LowFirst(u / base, base, upcase));
    }
  }

  lemma {:induction false} LeadingZeros(n: nat, s: string, base: nat)
    ensures Value(Repeat('0', n) + s, base) == Value(s, base)
    decreases |s| + n
  {
    var t := Repeat('0', n) + s;
    if s != "" {
      assert t[..|t| - 1] == Repeat('0', n) + s[..|s| - 1];
      LeadingZeros(n, s[..|s| - 1], base);
    } else if n > 0 {
      assert t[..n - 1] == Repeat('0', n - 1) + "";
      LeadingZeros(n - 1, "", base);
      assert t == Repeat('0', n);
    }
  }

  function StripLeft(s: string): string {
    if s != "" && s[0] == ' ' then StripLeft(s[1..]) else s
  }

  function StripRight(s: string): string {
    if s != "" && s[|s| - 1] == ' ' then StripRight(s[..|s| - 1]) else s
  }

  /** Sign and number, spaces on both sides aside. */
  function ReadBack(s: string, base: nat): (bool, nat) {
    var t := StripRight(StripLeft(s));
    if t != "" && t[0] == '-' then (true, Value(t[1..], base)) else (false, Value(t, base))
  }

  lemma {:induction false} Stripped(a: nat, s: string, b: nat)
    requires s != "" && s[0] != ' ' && s[|s| - 1] != ' '
    ensures StripRight(StripLeft(Repeat(' ', a) + s + Repeat(' ', b))) == s
    decreases a + b
  {
    var t := Repeat(' ', a) + s + Repeat(' ', b);
    if a > 0 {
      assert t[1..] == Repeat(' ', a - 1) + s + Repeat(' ', b);
      Stripped(a - 1, s, b);
    } else {
      assert t == s + Repeat(' ', b) && StripLeft(t) == t;
      if b > 0 {
        assert t[..|t| - 1] == Repeat(' ', 0) + s + Repeat(' ', b - 1);
        Stripped(0, s, b - 1);
        assert StripLeft(t[..|t| - 1]) == t[..|t| - 1];
      } else {
        assert t == s;
      }
    }
  }

  /** The output has max(width, digits + sign) characters. */
  lemma OutputLength(u: nat, base: nat, neg: bool, width: nat, ladjust: bool, padc: char, upcase: bool)
    requires 2 <= base <= 16
    ensures var n := |LowFirst(u, base, upcase)| + |Sign(neg)|;
      |Output(u, base, neg, width, ladjust, padc, upcase)| == if width > n then width else n
  {
    ReverseKeeps(LowFirst(u, base, upcase));
  }

  lemma ReadSigned(neg: bool, zeros: nat, digits: string, base: nat)
    requires digits != "" && ' ' !in digits && '-' !in digits
    ensures var s := Sign(neg) + (Repeat('0', zeros) + digits);
      && s != "" && s[0] != ' ' && s[|s| - 1] != ' '
      && (if s[0] == '-' then (true, Value(s[1..], base)) else (false, Value(s, base))) == (neg, Value(digits, base))
  {
    var s := Sign(neg) + (Repeat('0', zeros) + digits);
    LeadingZeros(zeros, digits, base);
    assert s[|s| - 1] == digits[|digits| - 1];
    if neg {
      assert s[1..] == Repeat('0', zeros) + digits;
    } else {
      assert s == Repeat('0', zeros) + digits;
      assert zeros == 0 ==> s == digits;
    }
  }

  lemma Around(core: string, a: nat, b: nat, base: nat, r: (bool, nat))
    requires core != "" && core[0] != ' ' && core[|core| - 1] != ' '
    requires r == if core[0] == '-' then (true, Value(core[1..], base)) else (false, Value(core, base))
    ensures ReadBack(Repeat(' ', a) + core + Repeat(' ', b), base) == r
  {
    Stripped(a, core, b);
  }

  lemma Empty(c: char)
    ensures Repeat(c, 0) == ""
  {}

  lemma Join(a: string, b: string, c: string)
    ensures a + b + c == a + (b + c) && "" + a == a && a + "" == a
  {}

  /** The layout as a core, with zeros after its sign, between spaces. */
  lemma LayoutCore(digits: string, neg: bool, pad: nat, ladjust: bool, padc: char)
    requires padc == ' ' || padc == '0'
    ensures var zeros := if !ladjust && padc == '0' then pad else 0;
      Layout(digits, neg, pad, ladjust, padc) == Repeat(' ', if !ladjust && padc == ' ' then pad else 0)
        + (Sign(neg) + (Repeat('0', zeros) + digits)) + Repeat(' ', if ladjust then pad else 0)
  {
    Empty(' ');
    Empty('0');
    if ladjust {
      Join(digits, "", "");
      Join(Sign(neg) + digits, "", "");
    } else if padc == '0' {
      Join(Sign(neg), Repeat('0', pad), digits);
      Join(Sign(neg) + (Repeat('0', pad) + digits), "", "");
      Join(Repeat('0', pad), "", "");
      Join(Repeat('0', pad) + digits, "", "");
    } else {
      Join(digits, "", "");
      Join(Repeat(' ', pad), Sign(neg), digits);
      Join(Repeat(' ', pad) + (Sign(neg) + digits), "", "");
    }
  }

  lemma LayoutReads(digits: string, neg: bool, pad: nat, ladjust: bool, padc: char, base: nat)
    requires digits != "" && ' ' !in digits && '-' !in digits && (padc == ' ' || padc == '0')
    ensures ReadBack(Layout(digits, neg, pad, ladjust, padc), base) == (neg, Value(digits, base))
  {
    var zeros := if !ladjust && padc == '0' then pad else 0;
    LayoutCore(digits, neg, pad, ladjust, padc);
    ReadSigned(neg, zeros, digits, base);
    Around(Sign(neg) + (Repeat('0', zeros) + digits), if !ladjust && padc == ' ' then pad else 0, if ladjust then pad else 0,
           base, (neg, Value(digits, base)));
  }

  /** Reading the output back gives the sign and the number, for every 32-bit number, base,
      width, adjustment and either padding character. */
  lemma RoundTrip(u: nat, base: nat, neg: bool, width: nat, ladjust: bool, padc: char, upcase: bool)
    requires u < WORD && Base(base) && (padc == ' ' || padc == '0')
    ensures ReadBack(Output(u, base, neg, width, ladjust, padc, upcase), base) == (neg, u)
  {
    var n := |LowFirst(u, base, upcase)| + |Sign(neg)|;
    DigitsValue(u, base, upcase);
    DigitsPlain(u, base, upcase);
    LayoutReads(Reverse(LowFirst(u, base, upcase)), neg, if width > n then width - n else 0, ladjust, padc, base);
  }
}
