/** Number printing and parsing (stdlib.c): parsing what was printed gives the number back. */
module Stdlib {
  import opened Bits
  import opened Ctype

  const WORD: nat := 0x1_0000_0000_0000_0000

  /** The digits of `v`, most significant first. */
  function Digits(v: nat, base: nat): (s: seq<byte>)
    requires 2 <= base <= 36
    ensures s != [] && NUL !in s
    decreases v
  {
    if v < base then [DigitChar(v)] else Smaller(v, base); Digits(v / base, base) + [DigitChar(v % base)]
  }

  lemma Smaller(v: nat, base: nat)
    requires 2 <= base <= v
    ensures v / base < v
  {
    var q, r := v / base, v % base;
    assert v == base * q + r;
    assert (base - 2) * q == base * q - 2 * q;
    MulNonNeg(base - 2, q);
  }

  /** A leading zero means zero. */
  lemma {:induction false} LeadingDigit(v: nat, base: nat)
    requires 2 <= base <= 36
    ensures Digits(v, base)[0] == ZERO <==> v == 0
    ensures v == 0 ==> Digits(v, base) == [ZERO]
    ensures Digits(v, base)[0] != MINUS && Digits(v, base)[0] != PLUS && !IsSpace(Digits(v, base)[0])
    decreases v
  {
    if v >= base {
      Smaller(v, base);
      LeadingDigit(v / base, base);
      DivPositive(v, base);
    }
  }

  lemma DivPositive(v: nat, base: nat)
    requires 2 <= base <= v
    ensures v / base > 0
  {
    assert v == base * (v / base) + v % base;
  }

  /** What the text is read as, digit by digit in the given base. */
  function ValueOf(s: seq<byte>, base: nat): int {
    if s == [] then 0 else ValueOf(s[..|s| - 1], base) * base + DigitValue(s[|s| - 1])
  }

  /** The text is made of digits and lower-case letters below the base, without a leading zero,
      and has the value in positional notation. */
  lemma {:induction false} DigitsText(v: nat, base: nat)
    requires 2 <= base <= 36
    ensures forall i :: 0 <= i < |Digits(v, base)| ==>
                          (IsDigit(Digits(v, base)[i]) || IsLower(Digits(v, base)[i]))
                          && 0 <= DigitValue(Digits(v, base)[i]) < base
    ensures ValueOf(Digits(v, base), base) == v
    ensures |Digits(v, base)| > 1 ==> Digits(v, base)[0] != ZERO
    decreases v
  {
    hide DigitValue;
    LastDigit(v, base);
    DigitValueOfChar(v % base);
    LeadingDigit(v, base);
    DivSum(v, base);
    var c := DigitChar(v % base);
    if v < base {
      hide Digits;
      DivUnique(v, base, 0, v);
      assert [c][..0] == [];
    } else {
      Smaller(v, base);
      DigitsText(v / base, base);
      hide Digits;
      DivPositive(v, base);
      var w := Digits(v / base, base);
      assert (w + [c])[..|w|] == w;
    }
  }

  lemma DivSum(v: nat, base: nat)
    requires base > 0
    ensures v / base * base + v % base == v && v % base < base
  {
    assert v == base * (v / base) + v % base;
  }

  // ---- ulltoa ----

  function Reversed(s: seq<byte>): (r: seq<byte>)
    ensures |r| == |s|
  {
    if s == [] then [] else Reversed(s[1..]) + [s[0]]
  }

  lemma {:induction false} ReversedAppend(s: seq<byte>, c: byte)
    ensures Reversed(s + [c]) == [c] + Reversed(s)
  {
    if s == [] {
      assert [c][1..] == [];
    } else {
      assert (s + [c])[1..] == s[1..] + [c];
      ReversedAppend(s[1..], c);
    }
  }

  lemma {:induction false} ReversedAt(s: seq<byte>, k: nat)
    requires k < |s|
    ensures Reversed(s)[k] == s[|s| - 1 - k]
  {
    if k < |s| - 1 { ReversedAt(s[1..], k); }
  }

  /** The digit loop: the digits of `value0`, least significant first, from `at` on. */
  method DigitLoop(value0: nat, str: array<byte>, at: nat, base: nat) returns (ptr: nat)
    requires 2 <= base <= 36 && at + |Digits(value0, base)| < str.Length
    modifies str
    ensures ptr == at + |Digits(value0, base)|
    ensures str[..at] == old(str[..at]) && str[ptr..] == old(str[at + |Digits(value0, base)|..])
    ensures Reversed(str[at..ptr]) == Digits(value0, base)
  {
    var value: nat := value0;
    ptr := at;
    ghost var n := |Digits(value0, base)|;
    assert str[at..ptr] == [];
    assert Reversed(str[at..ptr]) == [];
    assert Digits(value0, base) == Digits(value, base) + Reversed(str[at..ptr]);
    var more := true;
    while more
      invariant at <= ptr && ptr - at + (if more then |Digits(value, base)| else 0) == n
      invariant str[..at] == old(str[..at]) && str[at + n..] == old(str[at + n..])
      invariant more ==> Digits(value0, base) == Digits(value, base) + Reversed(str[at..ptr])
      invariant !more ==> Digits(value0, base) == Reversed(str[at..ptr])
      decreases more, value
    {
      var r := value % base;
      ghost var s := str[at..ptr];
      ghost var rest := Digits(value, base);
      LastDigit(value, base);
      str[ptr] := DigitChar(r);
      ptr := ptr + 1;
      assert str[at..ptr] == s + [DigitChar(r)];
      ReversedAppend(s, DigitChar(r));
      if value >= base { Smaller(value, base); DivPositive(value, base); }
      value := value / base;
      more := value != 0;
    }
  }

  /** The last digit, and what the others are. */
  lemma LastDigit(v: nat, base: nat)
    requires 2 <= base <= 36
    ensures v % base < 36
    ensures v / base == 0 ==> Digits(v, base) == [DigitChar(v % base)]
    ensures v / base != 0 ==> Digits(v, base) == Digits(v / base, base) + [DigitChar(v % base)] && v >= base
  {
    if v < base { DivUnique(v, base, 0, v); } else { DivPositive(v, base); }
  }

  /** The in-place reversal of str[at..end]. */
  method ReverseLoop(str: array<byte>, at: nat, end: nat)
    requires at < end <= str.Length
    modifies str
    ensures str[..at] == old(str[..at]) && str[end..] == old(str[end..])
    ensures str[at..end] == Reversed(old(str[at..end]))
  {
    hide Reversed;
    ghost var s := str[..];
    var start, ptr := at, end - 1;
    while start < ptr
      invariant at <= start && start + ptr == at + end - 1 && start <= ptr + 1
      invariant forall k :: 0 <= k < at || end <= k < str.Length ==> str[k] == s[k]
      invariant forall k :: at <= k < start || ptr < k < end ==> str[k] == s[at + end - 1 - k]
      invariant forall k :: start <= k <= ptr ==> str[k] == s[k]
    {
      var c := str[ptr];
      str[ptr] := str[start];
      ptr := ptr - 1;
      str[start] := c;
      start := start + 1;
    }
    TurnedRound(s, str[..], at, end);
  }

  lemma TurnedRound(s: seq<byte>, t: seq<byte>, at: nat, end: nat)
    requires at <= end <= |s| == |t|
    requires forall k :: 0 <= k < at || end <= k < |s| ==> t[k] == s[k]
    requires forall k :: at <= k < end ==> t[k] == s[at + end - 1 - k]
    ensures t[..at] == s[..at] && t[end..] == s[end..] && t[at..end] == Reversed(s[at..end])
  {
    var w, u := s[at..end], t[at..end];
    forall k | 0 <= k < |u| ensures u[k] == w[|w| - 1 - k] {
      assert t[at + k] == s[end - 1 - k];
    }
    IsReversed(w, u);
  }

  lemma IsReversed(w: seq<byte>, t: seq<byte>)
    requires |t| == |w| && forall k :: 0 <= k < |t| ==> t[k] == w[|w| - 1 - k]
    ensures t == Reversed(w)
  {
    forall k | 0 <= k < |t| ensures t[k] == Reversed(w)[k] { ReversedAt(w, k); }
  }

  /** ulltoa at position `at` of a buffer that has room. */
  method Ulltoa(value: nat, str: array<byte>, at: nat, base: nat)
    requires 2 <= base <= 36 && at + |Digits(value, base)| < str.Length
    modifies str
    ensures str[..at] == old(str[..at])
    ensures str[at..at + |Digits(value, base)| + 1] == Digits(value, base) + [NUL]
    ensures str[at + |Digits(value, base)| + 1..] == old(str[at + |Digits(value, base)| + 1..])
  {
    hide Digits, Reversed;
    var ptr := DigitLoop(value, str, at, base);
    ghost var s := str[..];
    str[ptr] := NUL;
    assert str[at..ptr] == s[at..ptr];
    ghost var tail := str[ptr..];
    ReverseLoop(str, at, ptr);
    assert str[ptr..] == tail;
    assert str[at..ptr + 1] == str[at..ptr] + [tail[0]];
    assert str[ptr + 1..] == tail[1..];
  }

  /** What lltoa writes. */
  function Signed(v: int, base: nat): seq<byte>
    requires 2 <= base <= 36
  {
    if v < 0 then [MINUS] + Digits(-v, base) else Digits(v, base)
  }

  /** lltoa, except for LLONG_MIN, whose negation C does not define. */
  method Lltoa(value: int, str: array<byte>, base: nat)
    requires -0x8000_0000_0000_0000 < value < 0x8000_0000_0000_0000 && 2 <= base <= 36
    requires |Signed(value, base)| < str.Length
    modifies str
    ensures str[..|Signed(value, base)| + 1] == Signed(value, base) + [NUL]
    ensures str[|Signed(value, base)| + 1..] == old(str[|Signed(value, base)| + 1..])
  {
    hide Digits;
    var v, ptr := value, 0;
    ghost var was := str[..];
    if v < 0 {
      str[0] := MINUS;
      ptr := 1;
      v := -v;
    }
    ghost var n := ptr + |Digits(v, base)| + 1;
    ghost var mid := str[..];
    Ulltoa(v, str, ptr, base);
    Glue(was, mid, str[..], ptr, n);
  }

  /** The text behind the sign, and what stays behind it. */
  lemma Glue(was: seq<byte>, mid: seq<byte>, now: seq<byte>, at: nat, n: nat)
    requires at <= n <= |was| == |mid| == |now| && now[..at] == mid[..at] && now[n..] == mid[n..]
    requires mid[n..] == was[n..]
    ensures now[..n] == mid[..at] + now[at..n] && now[n..] == was[n..]
  {}

  // ---- strtoul ----

  /** `*ptr` as a signed char, taken for a digit: nothing checks that it is one. */
  function DigitValue(c: byte): int {
    var u := ToUpper(c);
    var n := if u >= 128 then u as int - 256 else u as int;
    if IsDigit(u) then n - 48 else n - 55
  }

  /** The digit loop on the rest of the string: the value and how many characters it took.
      Arithmetic is that of 64-bit words; overflow yields the largest value and stops. */
  function Eat(rest: seq<byte>, base: nat, ret: nat, n: nat): (nat, nat)
    requires base > 0
    decreases |rest|
  {
    if rest == [] || rest[0] == NUL then (ret, n)
    else
      var digit := DigitValue(rest[0]);
      if ret > (WORD - 1 - digit) % WORD / base then (WORD - 1, n)
      else Eat(rest[1..], base, (ret * base + digit) % WORD, n + 1)
  }

  /** A buffer that ends with the terminator of a C string. */
  predicate CString(s: seq<byte>) {
    s != [] && s[|s| - 1] == NUL
  }

  function SkipSpaces(s: seq<byte>, i: nat): (k: nat)
    requires CString(s) && i < |s|
    ensures i <= k < |s| && !IsSpace(s[k])
    decreases |s| - i
  {
    if IsSpace(s[i]) then SkipSpaces(s, i + 1) else i
  }

  /** The base that is used and where the digits start. */
  function Prefix(s: seq<byte>, i: nat, base: nat): (nat, nat)
    requires CString(s) && i < |s|
  {
    if base == 0 then
      if s[i] != ZERO then (10, i)
      else if ToLower(s[i + 1]) == LETTER_X then (16, i + 2)
      else (8, i + 1)
    else if base == 8 && s[i] == ZERO then (base, i + 1)
    else if base == 16 && s[i] == ZERO && s[i + 1] == LETTER_X then (base, i + 2)
    else (base, i)
  }

  /** strtoul: the value and the end position, which is 0 where no digit was consumed. */
  function Parse(s: seq<byte>, base: nat): (nat, nat)
    requires CString(s) && (base == 0 || 2 <= base <= 36)
  {
    var i := SkipSpaces(s, 0);
    var (b, k) := Prefix(s, if s[i] == MINUS || s[i] == PLUS then i + 1 else i, base);
    var (ret, n) := Eat(s[k..], b, 0, 0);
    (if s[i] == MINUS then (WORD - ret) % WORD else ret, if n > 0 then k + n else 0)
  }

  /** The choice of the base and the skip of its prefix. */
  method ChooseBase(s: seq<byte>, from: nat, base0: nat) returns (base: nat, ptr: nat)
    requires CString(s) && from < |s| && (base0 == 0 || 2 <= base0 <= 36)
    ensures (base, ptr) == Prefix(s, from, base0) && from <= ptr < |s| && 2 <= base <= 36
  {
    base, ptr := base0, from;
    if base == 0 {
      base := 10;
      if s[ptr] == ZERO {
        base := 8;
        ptr := ptr + 1;
        if ToLower(s[ptr]) == LETTER_X {
          base := 16;
          ptr := ptr + 1;
        }
      }
    } else {
      if base == 8 && s[ptr] == ZERO { ptr := ptr + 1; }
      if base == 16 && s[ptr] == ZERO && s[ptr + 1] == LETTER_X { ptr := ptr + 2; }
    }
  }

  /** The digit loop. */
  method EatLoop(s: seq<byte>, k: nat, base: nat) returns (ret: nat, ptr: nat)
    requires CString(s) && k < |s| && 2 <= base <= 36
    ensures ptr >= k && (ret, ptr - k) == Eat(s[k..], base, 0, 0) && ret < WORD
  {
    ret, ptr := 0, k;
    ghost var total := Eat(s[k..], base, 0, 0);
    while s[ptr] != NUL
      invariant k <= ptr < |s| && ret < WORD && total == Eat(s[ptr..], base, ret, ptr - k)
      decreases |s| - ptr
    {
      assert s[ptr..][0] == s[ptr] && s[ptr..][1..] == s[ptr + 1..];
      var digit := DigitValue(s[ptr]);
      if ret > (WORD - 1 - digit) % WORD / base {
        ret := WORD - 1;
        return;
      }
      ret := (ret * base + digit) % WORD;
      ptr := ptr + 1;
    }
    assert s[ptr..][0] == NUL;
  }

  method Strtoul(s: seq<byte>, base0: nat) returns (ret: nat, end: nat)
    requires CString(s) && (base0 == 0 || 2 <= base0 <= 36)
    ensures (ret, end) == Parse(s, base0)
  {
    hide Eat, Prefix;
    var ptr := 0;
    while IsSpace(s[ptr])
      invariant 0 <= ptr < |s| && SkipSpaces(s, 0) == SkipSpaces(s, ptr)
      decreases |s| - ptr
    {
      ptr := ptr + 1;
    }
    var negate := false;
    if s[ptr] == MINUS || s[ptr] == PLUS {
      negate := s[ptr] == MINUS;
      ptr := ptr + 1;
    }
    var base;
    base, ptr := ChooseBase(s, ptr, base0);
    var from := ptr;
    ret, ptr := EatLoop(s, from, base);
    var consumed := ptr > from;
    end := if consumed then ptr else 0;
    if negate { ret := (WORD - ret) % WORD; }
  }

  // ---- printing then parsing ----

  lemma DigitValueOfChar(d: nat)
    requires d < 36
    ensures DigitValue(DigitChar(d)) == d
  {}

  /** One more digit of a number below 2^64 never trips the overflow guard. */
  lemma NoOverflow(v: nat, base: nat)
    requires 2 <= base <= v < WORD && base <= 36
    ensures v / base <= (WORD - 1 - v % base) / base && v / base * base + v % base == v
  {
    var q, r := v / base, v % base;
    assert v == base * q + r && q * base == base * q;
    QuotientAtLeast(WORD - 1 - r, base, q);
  }

  lemma QuotientAtLeast(a: nat, base: nat, q: nat)
    requires base > 0 && base * q <= a
    ensures q <= a / base
  {
    var p := a / base;
    assert a == base * p + a % base;
    assert base * (q - p - 1) == base * q - base * p - base;
    if q > p { MulNonNeg(base, q - p - 1); }
  }

  lemma {:induction false} EatDigits(v: nat, base: nat, tail: seq<byte>)
    requires v < WORD && 2 <= base <= 36
    ensures Eat(Digits(v, base) + tail, base, 0, 0) == Eat(tail, base, v, |Digits(v, base)|)
    decreases v
  {
    hide Digits;
    LastDigit(v, base);
    DigitValueOfChar(v % base);
    var d := [DigitChar(v % base)];
    if v < base {
      DivUnique(v, base, 0, v);
      assert d + tail == Digits(v, base) + tail && (d + tail)[1..] == tail;
      SmallDigit(v, base);
    } else {
      DivPositive(v, base);
      Smaller(v, base);
      assert Digits(v, base) + tail == Digits(v / base, base) + (d + tail);
      assert (d + tail)[1..] == tail;
      EatDigits(v / base, base, d + tail);
      NoOverflow(v, base);
      EatOne(d + tail, base, v / base, v % base, v, |Digits(v / base, base)|);
    }
  }

  lemma SmallDigit(v: nat, base: nat)
    requires v < base <= 36
    ensures 0 <= (WORD - 1 - v) % WORD / base && (0 * base + v) % WORD == v
  {}

  lemma EatOne(rest: seq<byte>, base: nat, ret: nat, digit: nat, v: nat, n: nat)
    requires base > 0 && rest != [] && rest[0] != NUL && DigitValue(rest[0]) == digit < WORD && v < WORD
    requires ret <= (WORD - 1 - digit) / base && ret * base + digit == v
    ensures Eat(rest, base, ret, n) == Eat(rest[1..], base, v, n + 1)
  {
    ModSmall(WORD - 1 - digit);
    ModSmall(ret * base + digit);
  }

  lemma ModSmall(a: nat)
    requires a < WORD
    ensures a % WORD == a
  {}

  /** The text of a number that is no 64-bit word is read as the largest word. */
  lemma {:induction false} EatOverflow(v: nat, base: nat, tail: seq<byte>)
    requires v >= WORD && 2 <= base <= 36
    ensures Eat(Digits(v, base) + tail, base, 0, 0).0 == WORD - 1
    decreases v
  {
    hide Digits, Eat;
    LastDigit(v, base);
    DivPositive(v, base);
    Smaller(v, base);
    DigitValueOfChar(v % base);
    var d := [DigitChar(v % base)];
    assert Digits(v, base) + tail == Digits(v / base, base) + (d + tail);
    if v / base >= WORD {
      EatOverflow(v / base, base, d + tail);
    } else {
      EatDigits(v / base, base, d + tail);
      Trips(d + tail, base, v / base, v % base, |Digits(v / base, base)|);
      assert v == base * (v / base) + v % base;
    }
  }

  lemma Trips(rest: seq<byte>, base: nat, ret: nat, digit: nat, n: nat)
    requires base > 0 && rest != [] && rest[0] != NUL && DigitValue(rest[0]) == digit < WORD
    requires base * ret + digit >= WORD
    ensures Eat(rest, base, ret, n) == (WORD - 1, n)
  {
    ModSmall(WORD - 1 - digit);
    if ret <= (WORD - 1 - digit) / base { ProductFits(WORD - 1 - digit, base, ret); }
  }

  lemma ProductFits(a: nat, base: nat, q: nat)
    requires base > 0 && q <= a / base
    ensures base * q <= a
  {
    var p := a / base;
    assert a == base * p + a % base;
    assert base * (p - q) == base * p - base * q;
    MulNonNeg(base, p - q);
  }

  /** strtoul of ulltoa's text is the value, for every value below 2^64 and every base; the end
      pointer is the end of the text in all cases but one, "0" in base 8. */
  lemma PrintParse(v: nat, base: nat)
    requires v < WORD && 2 <= base <= 36
    ensures Parse(Digits(v, base) + [NUL], base).0 == v
    ensures Parse(Digits(v, base) + [NUL], base).1 == |Digits(v, base)| <==> !(v == 0 && base == 8)
    ensures v == 0 && base == 8 ==> Parse(Digits(v, base) + [NUL], base).1 == 0
  {
    var w := Digits(v, base);
    var s := w + [NUL];
    LeadingDigit(v, base);
    EatDigits(v, base, [NUL]);
    hide Digits;
    assert s[0] == w[0] && s[0..] == s;
    assert SkipSpaces(s, 0) == 0;
    if v == 0 {
      assert w == [ZERO] && s == [ZERO, NUL];
      assert s[1..] == [NUL];
    }
  }

  /** Text of a larger number, in whatever base, is read as the largest word. */
  lemma OverflowParse(v: nat, base: nat)
    requires v >= WORD && 2 <= base <= 36
    ensures Parse(Digits(v, base) + [NUL], base).0 == WORD - 1
  {
    var w := Digits(v, base);
    var s := w + [NUL];
    LeadingDigit(v, base);
    EatOverflow(v, base, [NUL]);
    hide Digits, Eat;
    assert s[0] == w[0] && s[0..] == s;
    assert SkipSpaces(s, 0) == 0;
  }

  /** Base 0 reads decimal text the same way. */
  lemma PrintParseAuto(v: nat)
    requires v < WORD
    ensures Parse(Digits(v, 10) + [NUL], 0).0 == v
  {
    var w := Digits(v, 10);
    var s := w + [NUL];
    LeadingDigit(v, 10);
    EatDigits(v, 10, [NUL]);
    hide Digits;
    assert s[0] == w[0] && s[0..] == s;
    assert SkipSpaces(s, 0) == 0;
    if v == 0 {
      assert s == [ZERO, NUL];
      assert s[1..] == [NUL];
    }
  }

  /** Printed text behind "0x" or "0" that the prefix rule of base 16, 8 or 0 takes off. */
  lemma PrefixParse(v: nat, base: nat, auto: bool)
    requires v < WORD && (base == 16 || base == 8)
    ensures var s := Marked(Digits(v, base), base); Parse(s, if auto then 0 else base) == (v, |s| - 1)
  {
    var w := Digits(v, base);
    FirstDigit(v, base);
    EatDigits(v, base, [NUL]);
    EatEnd(base, v, |w|);
    hide *;
    MarkedParse(w, base, if auto then 0 else base, v);
  }

  function Marked(w: seq<byte>, base: nat): (s: seq<byte>)
    ensures CString(s)
  {
    (if base == 16 then [ZERO, LETTER_X] else [ZERO]) + w + [NUL]
  }

  lemma MarkedParse(w: seq<byte>, base: nat, base0: nat, v: nat)
    requires w != [] && ToLower(w[0]) != LETTER_X && (base == 16 || base == 8) && (base0 == 0 || base0 == base)
    requires Eat(w + [NUL], base, 0, 0) == (v, |w|)
    ensures Parse(Marked(w, base), base0) == (v, |Marked(w, base)| - 1)
  {
    var s, k := Marked(w, base), if base == 16 then 2 else 1;
    MarkedParts(w, base, k);
    hide Eat, Marked;
    assert SkipSpaces(s, 0) == 0;
    assert Prefix(s, 0, base0) == (base, k);
  }

  lemma MarkedParts(w: seq<byte>, base: nat, k: nat)
    requires w != [] && (base == 16 || base == 8) && k == if base == 16 then 2 else 1
    ensures var s := Marked(w, base);
            && s[0] == ZERO && (base == 16 ==> s[1] == LETTER_X)
            && s[k..] == w + [NUL] && s[k] == w[0] && |s| == k + |w| + 1
  {}

  /** A digit of base 8 is no letter. */
  lemma FirstDigit(v: nat, base: nat)
    requires base == 8 || base == 16
    ensures ToLower(Digits(v, base)[0]) != LETTER_X
  {
    DigitsText(v, base);
  }

  /** Spaces in front are skipped, and a plus sign before what is no space or sign. */
  lemma SkippedParse(c: byte, s: seq<byte>, base: nat)
    requires CString(s) && (base == 0 || 2 <= base <= 36)
    requires IsSpace(c) || (c == PLUS && s[0] != MINUS && s[0] != PLUS && !IsSpace(s[0]))
    ensures Parse([c] + s, base).0 == Parse(s, base).0
    ensures Parse([c] + s, base).1 == if Parse(s, base).1 == 0 then 0 else Parse(s, base).1 + 1
  {
    var i := SkipSpaces(s, 0);
    var from := if s[i] == MINUS || s[i] == PLUS then i + 1 else i;
    SkippedStart(c, s, i, from);
    hide *;
    ShiftedParse(c, s, [c] + s, base, i, SkipSpaces([c] + s, 0), from);
  }

  lemma ShiftedParse(c: byte, s: seq<byte>, t: seq<byte>, base: nat, i: nat, j: nat, from: nat)
    requires CString(s) && CString(t) && t == [c] + s && (base == 0 || 2 <= base <= 36) && from < |s|
    requires i == SkipSpaces(s, 0) && j == SkipSpaces(t, 0) && (t[j] == MINUS <==> s[i] == MINUS)
    requires from == if s[i] == MINUS || s[i] == PLUS then i + 1 else i
    requires from + 1 == if t[j] == MINUS || t[j] == PLUS then j + 1 else j
    ensures Parse(t, base).0 == Parse(s, base).0
    ensures Parse(t, base).1 == if Parse(s, base).1 == 0 then 0 else Parse(s, base).1 + 1
  {
    hide *;
    PrefixShift(c, s, from, base);
    var (b, k) := Prefix(s, from, base);
    TailShift(c, s, k);
    ParseFrom(s, base, i, from, b, k);
    ParseFrom(t, base, j, from + 1, b, k + 1);
  }

  lemma TailShift(c: byte, s: seq<byte>, k: nat)
    requires k <= |s|
    ensures ([c] + s)[k + 1..] == s[k..]
  {}

  /** Parsing from the place `i` behind the spaces, with the digits from `k` on. */
  lemma ParseFrom(s: seq<byte>, base: nat, i: nat, from: nat, b: nat, k: nat)
    requires CString(s) && (base == 0 || 2 <= base <= 36) && i == SkipSpaces(s, 0)
    requires from == if s[i] == MINUS || s[i] == PLUS then i + 1 else i
    requires Prefix(s, from, base) == (b, k) && k <= |s| && b > 0
    ensures var (ret, n) := Eat(s[k..], b, 0, 0);
            Parse(s, base) == (if s[i] == MINUS then (WORD - ret) % WORD else ret, if n > 0 then k + n else 0)
  {
    hide Eat, Prefix, SkipSpaces;
  }

  lemma SkippedStart(c: byte, s: seq<byte>, i: nat, from: nat)
    requires CString(s) && i == SkipSpaces(s, 0)
    requires IsSpace(c) || (c == PLUS && s[0] != MINUS && s[0] != PLUS && !IsSpace(s[0]))
    requires from == if s[i] == MINUS || s[i] == PLUS then i + 1 else i
    ensures var t := [c] + s;
            && CString(t) && from + 1 == (if t[SkipSpaces(t, 0)] == MINUS || t[SkipSpaces(t, 0)] == PLUS
                                          then SkipSpaces(t, 0) + 1 else SkipSpaces(t, 0))
            && (t[SkipSpaces(t, 0)] == MINUS <==> s[i] == MINUS)
    ensures from < |s|
  {
    hide SkipSpaces;
    FirstKept(c, s);
    SpacesShift(c, s, 0);
    var t := [c] + s;
    SkipOne(t);
    StartAfter(c, s, t, i, SkipSpaces(t, 0));
  }

  lemma StartAfter(c: byte, s: seq<byte>, t: seq<byte>, i: nat, j: nat)
    requires CString(s) && CString(t) && |t| == |s| + 1 && t[0] == c && i < |s| && t[i + 1] == s[i]
    requires i == SkipSpaces(s, 0) && j == if IsSpace(c) then i + 1 else 0
    requires IsSpace(c) || (c == PLUS && s[0] != MINUS && s[0] != PLUS && !IsSpace(s[0]))
    ensures t[j] == MINUS <==> s[i] == MINUS
    ensures var from := if s[i] == MINUS || s[i] == PLUS then i + 1 else i;
            from < |s| && from + 1 == if t[j] == MINUS || t[j] == PLUS then j + 1 else j
  {
    hide SkipSpaces;
    if |s| > 1 { SkipOne(s); }
  }

  lemma SkipOne(t: seq<byte>)
    requires CString(t) && |t| > 1
    ensures SkipSpaces(t, 0) == if IsSpace(t[0]) then SkipSpaces(t, 1) else 0
  {}

  lemma FirstKept(c: byte, s: seq<byte>)
    requires CString(s)
    ensures ([c] + s)[0] == c && forall i :: 0 <= i < |s| ==> ([c] + s)[i + 1] == s[i]
  {}

  lemma {:induction false} SpacesShift(c: byte, s: seq<byte>, i: nat)
    requires CString(s) && i < |s|
    ensures SkipSpaces([c] + s, i + 1) == SkipSpaces(s, i) + 1
    decreases |s| - i
  {
    assert ([c] + s)[i + 1] == s[i];
    if IsSpace(s[i]) { SpacesShift(c, s, i + 1); }
  }

  lemma PrefixShift(c: byte, s: seq<byte>, i: nat, base: nat)
    requires CString(s) && i < |s|
    ensures Prefix([c] + s, i + 1, base) == (Prefix(s, i, base).0, Prefix(s, i, base).1 + 1)
    ensures Prefix(s, i, base).1 <= |s| && ((base == 0 || 2 <= base) ==> Prefix(s, i, base).0 > 0)
  {}

  /** A minus sign before text that does not look like a prefix negates the value. */
  lemma MinusParse(w: seq<byte>, base: nat)
    requires w != [] && w[0] != ZERO && NUL !in w && 2 <= base <= 36
    ensures Parse([MINUS] + w + [NUL], base).0 == (WORD - Eat(w + [NUL], base, 0, 0).0) % WORD
  {
    hide Eat;
    var s := [MINUS] + w + [NUL];
    assert s[0] == MINUS && s[1] == w[0] && s[1..] == w + [NUL];
    assert SkipSpaces(s, 0) == 0;
    assert Prefix(s, 1, base) == (base, 1);
  }

  lemma EatEnd(base: nat, ret: nat, n: nat)
    requires base > 0
    ensures Eat([NUL], base, ret, n) == (ret, n)
  {}

  lemma NegativeWord(v: int)
    requires v < 0 < v + WORD
    ensures (WORD - (-v)) % WORD == v % WORD
  {
    DivUnique(v, WORD, -1, v + WORD);
  }

  lemma NegativeParse(n: nat, base: nat)
    requires 0 < n < WORD && 2 <= base <= 36
    ensures Parse([MINUS] + Digits(n, base) + [NUL], base).0 == (WORD - n) % WORD
  {
    hide Digits, Eat, Parse;
    LeadingDigit(n, base);
    EatDigits(n, base, [NUL]);
    EatEnd(base, n, |Digits(n, base)|);
    MinusParse(Digits(n, base), base);
  }

  /** Signed text parses to the value modulo 2^64. */
  lemma SignedParse(v: int, base: nat)
    requires -0x8000_0000_0000_0000 < v < 0x8000_0000_0000_0000 && 2 <= base <= 36
    ensures Parse(Signed(v, base) + [NUL], base).0 == v % WORD
  {
    hide Digits, Parse;
    if v >= 0 {
      PrintParse(v, base);
      ModSmall(v);
    } else {
      NegativeParse(-v, base);
      NegativeWord(v);
    }
  }
}
