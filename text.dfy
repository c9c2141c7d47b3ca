/** Bytes, 64-bit wrap-around, decimal digits and delimiter splitting: the small
    text and number facts that the
    configuration, the memory store, the shard router and the Redis INFO
    helpers all rely on. */
module Text {

  /** A Go `byte`. Cached values are byte slices. */
  newtype byte = x: int | 0 <= x < 256

  type Bytes = seq<byte>

  // Go's 64-bit integers.

  const MinInt64: int := -0x8000_0000_0000_0000
  const MaxInt64: int := 0x7fff_ffff_ffff_ffff

  predicate IsInt64(x: int) {
    MinInt64 <= x <= MaxInt64
  }

  /** Two's-complement wrap-around of Go's 64-bit `int` and `int64` arithmetic:
      the exact result reduced modulo 2^64 into the signed range. */
  function Wrap64(x: int): (r: int)
    ensures IsInt64(r)
    ensures IsInt64(x) ==> r == x
  {
    if IsInt64(x) then x
    else ((x - MinInt64) % 0x1_0000_0000_0000_0000) + MinInt64
  }

  /** The decimal digits of `n`, most significant first, as Go's `%d` prints them. */
  function Digits(n: nat): (ds: seq<int>)
    ensures |ds| >= 1
    ensures forall i :: 0 <= i < |ds| ==> 0 <= ds[i] <= 9
    ensures ds[0] == 0 <==> n == 0
    ensures n == 0 ==> ds == [0]
    decreases n
  {
    if n < 10 then [n] else Digits(n / 10) + [n % 10]
  }

  ghost predicate AllDigits(ds: seq<int>) {
    forall i :: 0 <= i < |ds| ==> 0 <= ds[i] <= 9
  }

  /** The number a digit sequence denotes, read left to right. */
  function DigitsValue(ds: seq<int>): int
  {
    if ds == [] then 0 else DigitsValue(ds[..|ds| - 1]) * 10 + ds[|ds| - 1]
  }

  lemma {:induction false} DigitsRoundTrip(n: nat)
    ensures DigitsValue(Digits(n)) == n
    decreases n
  {
    if n >= 10 {
      DigitsRoundTrip(n / 10);
      var ds := Digits(n);
      assert ds[..|ds| - 1] == Digits(n / 10);
    }
  }

  lemma {:induction false} DigitsValueNonNegative(ds: seq<int>)
    requires AllDigits(ds)
    ensures DigitsValue(ds) >= 0
  {
    if ds != [] {
      DigitsValueNonNegative(ds[..|ds| - 1]);
    }
  }

  function DigitChar(d: int): char
    requires 0 <= d <= 9
  {
    ('0' as int + d) as char
  }

  predicate IsDigitChar(c: char) {
    '0' <= c <= '9'
  }

  function CharDigit(c: char): int
    requires IsDigitChar(c)
  {
    c as int - '0' as int
  }

  /** `fmt.Sprintf("%d", n)` as characters. */
  function DecimalString(n: int): (s: string)
    ensures |s| >= 1
    ensures forall i :: 0 <= i < |s| ==> IsDigitChar(s[i]) || (i == 0 && s[i] == '-')
  {
    var ds := Digits(if n < 0 then -n else n);
    var body := seq(|ds|, i requires 0 <= i < |ds| => DigitChar(ds[i]));
    if n < 0 then "-" + body else body
  }

  function DigitByte(d: int): byte
    requires 0 <= d <= 9
  {
    (48 + d) as byte
  }

  /** `[]byte(fmt.Sprintf("%d", n))`: the ASCII decimal form of `n`. */
  function DecimalBytes(n: int): (b: Bytes)
    ensures |b| >= 1
  {
    var ds := Digits(if n < 0 then -n else n);
    var body := seq(|ds|, i requires 0 <= i < |ds| => DigitByte(ds[i]));
    if n < 0 then [45 as byte] + body else body
  }

  /** The segments of `s` between occurrences of `d`, exactly as the Go loops in
      redis.go (`splitString`) and sharding.go (`ExtractOriginalKey`) build them:
      `cur` is the segment being accumulated; a delimiter always closes it, even
      when empty, while the end of input closes it only when it is non-empty. */
  function SplitFrom(s: string, d: char, cur: string): seq<string>
    decreases |s|
  {
    if s == [] then (if cur == [] then [] else [cur])
    else if s[0] == d then [cur] + SplitFrom(s[1..], d, [])
    else SplitFrom(s[1..], d, cur + [s[0]])
  }

  function Split(s: string, d: char): seq<string> {
    SplitFrom(s, d, [])
  }

  /** The segments joined back with `d` between them (Go's `strings.Join`). */
  function Join(parts: seq<string>, d: char): string
  {
    if parts == [] then []
    else if |parts| == 1 then parts[0]
    else parts[0] + [d] + Join(parts[1..], d)
  }

  lemma {:induction false} SplitFromHasNoDelimiter(s: string, d: char, cur: string)
    requires d !in cur
    ensures forall p :: p in SplitFrom(s, d, cur) ==> d !in p
    decreases |s|
  {
    if s != [] {
      if s[0] == d {
        SplitFromHasNoDelimiter(s[1..], d, []);
      } else {
        SplitFromHasNoDelimiter(s[1..], d, cur + [s[0]]);
      }
    }
  }

  lemma {:induction false} SplitFromNonEmpty(s: string, d: char, cur: string)
    requires cur + s != []
    ensures SplitFrom(s, d, cur) != []
    decreases |s|
  {
    if s != [] && s[0] != d {
      SplitFromNonEmpty(s[1..], d, cur + [s[0]]);
    }
  }

  /** Joining the segments restores the input, as long as the input is not empty
      and does not end with the delimiter (a trailing empty segment is dropped). */
  lemma {:induction false} SplitFromJoin(s: string, d: char, cur: string)
    requires cur + s != [] && (cur + s)[|cur + s| - 1] != d
    ensures Join(SplitFrom(s, d, cur), d) == cur + s
    decreases |s|
  {
    if s == [] {
      assert cur + s == cur;
    } else if s[0] == d {
      assert |s| > 1;
      assert s[1..][|s[1..]| - 1] == (cur + s)[|cur + s| - 1];
      assert [] + s[1..] == s[1..];
      SplitFromJoin(s[1..], d, []);
      SplitFromNonEmpty(s[1..], d, []);
      var rest := SplitFrom(s[1..], d, []);
      assert ([cur] + rest)[1..] == rest;
      assert cur + [d] + s[1..] == cur + s;
    } else {
      assert (cur + [s[0]]) + s[1..] == cur + s;
      SplitFromJoin(s[1..], d, cur + [s[0]]);
    }
  }

  lemma SplitJoin(s: string, d: char)
    requires s != [] && s[|s| - 1] != d
    ensures Join(Split(s, d), d) == s
  {
    assert [] + s == s;
    SplitFromJoin(s, d, []);
  }

  /** A delimiter-free prefix followed by a delimiter becomes one segment of its own. */
  lemma {:induction false} SplitFromPrefix(a: string, b: string, d: char, cur: string)
    requires d !in a
    ensures SplitFrom(a + [d] + b, d, cur) == [cur + a] + SplitFrom(b, d, [])
    decreases |a|
  {
    if a == [] {
      assert a + [d] + b == [d] + b;
      assert ([d] + b)[0] == d;
      assert ([d] + b)[1..] == b;
      assert cur + a == cur;
      assert SplitFrom([d] + b, d, cur) == [cur] + SplitFrom(b, d, []);
    } else {
      assert (a + [d] + b)[0] == a[0];
      assert (a + [d] + b)[1..] == a[1..] + [d] + b;
      SplitFromPrefix(a[1..], b, d, cur + [a[0]]);
      assert cur + [a[0]] + a[1..] == cur + a;
    }
  }

  /** Go's `strings.Split`: every delimiter ends a segment, so empty segments,
      a trailing one included, are kept. */
  function SplitAllFrom(s: string, d: char, cur: string): (parts: seq<string>)
    ensures |parts| >= 1
    decreases |s|
  {
    if s == [] then [cur]
    else if s[0] == d then [cur] + SplitAllFrom(s[1..], d, [])
    else SplitAllFrom(s[1..], d, cur + [s[0]])
  }

  function SplitAll(s: string, d: char): seq<string> {
    SplitAllFrom(s, d, [])
  }

  /** Joining the segments of `SplitAll` always restores the input. */
  lemma {:induction false} SplitAllFromJoin(s: string, d: char, cur: string)
    ensures Join(SplitAllFrom(s, d, cur), d) == cur + s
    decreases |s|
  {
    if s == [] {
      assert cur + s == cur;
    } else if s[0] == d {
      SplitAllFromJoin(s[1..], d, []);
      var rest := SplitAllFrom(s[1..], d, []);
      assert ([cur] + rest)[1..] == rest;
      assert [] + s[1..] == s[1..];
      assert cur + [d] + s[1..] == cur + s;
    } else {
      assert (cur + [s[0]]) + s[1..] == cur + s;
      SplitAllFromJoin(s[1..], d, cur + [s[0]]);
    }
  }

  /** A delimiter-free prefix followed by a delimiter is one segment of `SplitAll`. */
  lemma {:induction false} SplitAllFromPrefix(a: string, b: string, d: char, cur: string)
    requires d !in a
    ensures SplitAllFrom(a + [d] + b, d, cur) == [cur + a] + SplitAllFrom(b, d, [])
    decreases |a|
  {
    if a == [] {
      assert a + [d] + b == [d] + b;
      assert ([d] + b)[1..] == b;
      assert cur + a == cur;
    } else {
      assert (a + [d] + b)[0] == a[0];
      assert (a + [d] + b)[1..] == a[1..] + [d] + b;
      SplitAllFromPrefix(a[1..], b, d, cur + [a[0]]);
      assert cur + [a[0]] + a[1..] == cur + a;
    }
  }
}
