/** The text helpers the Redis backend uses to read `INFO` replies
    (pkg/backends/redis.go:236-317). Each Go loop is a method proved equal to a
    recursive definition, and the properties the callers rely on are proved
    about those definitions. Strings are sequences of characters; the Go loops
    range over runes and `findChar` returns a byte offset, which coincide for
    ASCII text such as INFO output. */
module RedisInfo {
  import opened Wrappers
  import opened Text
  import Config
  import Memory

  // ---------------------------------------------------------------------------
  // splitLines

  predicate IsLineBreak(c: char) {
    c == '\n' || c == '\r'
  }

  predicate NoBreaks(s: string) {
    forall i :: 0 <= i < |s| ==> !IsLineBreak(s[i])
  }

  /** The lines `splitLines` produces from `s` when `cur` has been accumulated
      so far: a break closes a non-empty line, and empty lines are dropped. */
  function LinesFrom(s: string, cur: string): seq<string>
    decreases |s|
  {
    if s == [] then (if cur == [] then [] else [cur])
    else if IsLineBreak(s[0]) then (if cur == [] then [] else [cur]) + LinesFrom(s[1..], [])
    else LinesFrom(s[1..], cur + [s[0]])
  }

  function Lines(s: string): seq<string> {
    LinesFrom(s, [])
  }

  /** `s` with every `\n` and `\r` removed. */
  function WithoutBreaks(s: string): (r: string)
    ensures NoBreaks(r)
  {
    if s == [] then []
    else (if IsLineBreak(s[0]) then [] else [s[0]]) + WithoutBreaks(s[1..])
  }

  /** The pieces laid end to end. */
  function Concat(parts: seq<string>): string {
    if parts == [] then [] else parts[0] + Concat(parts[1..])
  }

  /** Every line is non-empty and free of breaks, and the lines laid end to end
      are the input without its breaks. */
  lemma {:induction false} LinesFromPieces(s: string, cur: string)
    requires NoBreaks(cur)
    ensures forall p :: p in LinesFrom(s, cur) ==> p != [] && NoBreaks(p)
    ensures Concat(LinesFrom(s, cur)) == cur + WithoutBreaks(s)
    decreases |s|
  {
    if s == [] {
      assert cur + [] == cur;
      if cur != [] {
        assert Concat([cur]) == cur + Concat([]);
      }
    } else if IsLineBreak(s[0]) {
      LinesFromPieces(s[1..], []);
      var rest := LinesFrom(s[1..], []);
      assert WithoutBreaks(s) == WithoutBreaks(s[1..]);
      if cur != [] {
        assert ([cur] + rest)[1..] == rest;
      } else {
        assert [] + rest == rest;
      }
    } else {
      var cur' := cur + [s[0]];
      assert NoBreaks(cur');
      LinesFromPieces(s[1..], cur');
      assert WithoutBreaks(s) == [s[0]] + WithoutBreaks(s[1..]);
      assert cur' + WithoutBreaks(s[1..]) == cur + WithoutBreaks(s);
    }
  }

  lemma LinesArePieces(s: string)
    ensures forall p :: p in Lines(s) ==> p != [] && NoBreaks(p)
    ensures Concat(Lines(s)) == WithoutBreaks(s)
  {
    LinesFromPieces(s, []);
    assert [] + WithoutBreaks(s) == WithoutBreaks(s);
  }

  /** `splitLines`: one pass over the characters with a current line. */
  method SplitLines(s: string) returns (result: seq<string>)
    ensures result == Lines(s)
  {
    result := [];
    var current := "";
    var i := 0;
    while i < |s|
      invariant 0 <= i <= |s|
      invariant result + LinesFrom(s[i..], current) == Lines(s)
    {
      assert s[i..][1..] == s[i + 1..];
      if IsLineBreak(s[i]) {
        if |current| > 0 {
          assert result + ([current] + LinesFrom(s[i + 1..], [])) == (result + [current]) + LinesFrom(s[i + 1..], []);
          result := result + [current];
          current := "";
        } else {
          assert [] + LinesFrom(s[i + 1..], []) == LinesFrom(s[i + 1..], []);
        }
      } else {
        current := current + [s[i]];
      }
      i := i + 1;
    }
    if |current| > 0 {
      result := result + [current];
    } else {
      assert result + [] == result;
    }
  }

  // ---------------------------------------------------------------------------
  // splitString

  /** `splitString`: one pass with a current segment; a delimiter always closes
      it, the end of input only when it is non-empty. */
  method SplitString(s: string, delimiter: char) returns (result: seq<string>)
    ensures result == Split(s, delimiter)
  {
    result := [];
    var current := "";
    var i := 0;
    while i < |s|
      invariant 0 <= i <= |s|
      invariant result + SplitFrom(s[i..], delimiter, current) == Split(s, delimiter)
    {
      assert s[i..][1..] == s[i + 1..];
      if s[i] == delimiter {
        assert result + ([current] + SplitFrom(s[i + 1..], delimiter, [])) == (result + [current]) + SplitFrom(s[i + 1..], delimiter, []);
        result := result + [current];
        current := "";
      } else {
        current := current + [s[i]];
      }
      i := i + 1;
    }
    if |current| > 0 {
      result := result + [current];
    } else {
      assert result + [] == result;
    }
  }

  /** No segment of `splitString` contains the delimiter. */
  lemma SplitHasNoDelimiter(s: string, d: char)
    ensures forall p :: p in Split(s, d) ==> d !in p
  {
    SplitFromHasNoDelimiter(s, d, []);
  }

  /** Interior empty segments are kept: two delimiters in a row give an empty
      segment between them. */
  lemma SplitKeepsEmptySegments(a: string, b: string, d: char)
    requires d !in a
    ensures Split(a + [d, d] + b, d) == [a, []] + Split(b, d)
  {
    assert a + [d, d] + b == a + [d] + ([d] + b);
    SplitFromPrefix(a, [d] + b, d, []);
    assert [] + a == a;
    SplitFromPrefix([], b, d, []);
    assert [] + [d] + b == [d] + b;
  }

  // ---------------------------------------------------------------------------
  // findChar

  /** The position of the first `c` in `s`, or -1. */
  function IndexOf(s: string, c: char): (i: int)
    ensures -1 <= i < |s|
    ensures i == -1 <==> c !in s
    ensures i >= 0 ==> s[i] == c && c !in s[..i]
  {
    if s == [] then -1
    else if s[0] == c then 0
    else
      var j := IndexOf(s[1..], c);
      assert s[1..][..if j < 0 then 0 else j] == s[1..if j < 0 then 1 else j + 1];
      if j == -1 then -1 else j + 1
  }

  /** `findChar`: a scan with early return. */
  method FindChar(s: string, target: char) returns (index: int)
    ensures index == IndexOf(s, target)
  {
    var i := 0;
    while i < |s|
      invariant 0 <= i <= |s|
      invariant target !in s[..i]
    {
      if s[i] == target {
        return i;
      }
      assert s[..i + 1] == s[..i] + [s[i]];
      i := i + 1;
    }
    assert s[..i] == s;
    return -1;
  }

  // ---------------------------------------------------------------------------
  // parseRedisInfo

  /** A line `parseRedisInfo` records: not empty, not a `#` section header, and
      containing a colon. */
  predicate IsField(line: string) {
    |line| > 0 && line[0] != '#' && ':' in line
  }

  /** The text before the first colon. */
  function FieldKey(line: string): (k: string)
    requires IsField(line)
    ensures ':' !in k
    ensures line == k + [':'] + FieldValue(line)
  {
    line[..IndexOf(line, ':')]
  }

  /** The text after the first colon. */
  function FieldValue(line: string): string
    requires IsField(line)
  {
    line[IndexOf(line, ':') + 1..]
  }

  /** The map the loop of `parseRedisInfo` has built after `lines`. */
  function Fields(lines: seq<string>): map<string, string>
  {
    if lines == [] then map[]
    else
      var m := Fields(lines[..|lines| - 1]);
      var line := lines[|lines| - 1];
      if IsField(line) then m[FieldKey(line) := FieldValue(line)] else m
  }

  /** `parseRedisInfo`: split into lines, then record every field line. */
  method ParseRedisInfo(info: string) returns (result: map<string, string>)
    ensures result == Fields(Lines(info))
  {
    result := map[];
    var lines := SplitLines(info);
    var i := 0;
    while i < |lines|
      invariant 0 <= i <= |lines|
      invariant result == Fields(lines[..i])
    {
      assert lines[..i + 1][..i] == lines[..i];
      var line := lines[i];
      if |line| > 0 && line[0] != '#' {
        var colon := FindChar(line, ':');
        if colon != -1 {
          result := result[line[..colon] := line[colon + 1..]];
        }
      }
      i := i + 1;
    }
    assert lines[..i] == lines;
  }

  /** A key is in the map exactly when some field line has it as its key. */
  lemma {:induction false} FieldsKeys(lines: seq<string>)
    ensures forall k :: k in Fields(lines) <==>
              exists i :: 0 <= i < |lines| && IsField(lines[i]) && FieldKey(lines[i]) == k
  {
    if lines != [] {
      var prefix := lines[..|lines| - 1];
      FieldsKeys(prefix);
      assert forall i :: 0 <= i < |prefix| ==> prefix[i] == lines[i];
    }
  }

  /** A key maps to the value of the last field line that has it: a later
      duplicate overwrites an earlier one. */
  lemma {:induction false} LastFieldWins(lines: seq<string>, i: nat)
    requires i < |lines| && IsField(lines[i])
    requires forall j :: i < j < |lines| && IsField(lines[j]) ==> FieldKey(lines[j]) != FieldKey(lines[i])
    ensures FieldKey(lines[i]) in Fields(lines) && Fields(lines)[FieldKey(lines[i])] == FieldValue(lines[i])
  {
    if i < |lines| - 1 {
      var prefix := lines[..|lines| - 1];
      assert prefix[i] == lines[i];
      LastFieldWins(prefix, i);
    }
  }

  // ---------------------------------------------------------------------------
  // parseKeyCount

  /** `strconv.ParseInt(s, 10, 64)`: an optional sign, then one or more decimal
      digits, and a value within 64 bits. */
  function ParseInt64(s: string): (r: Option<int>)
    ensures r.Some? ==> IsInt64(r.value)
    ensures s == [] ==> r.None?
  {
    var signed := |s| > 0 && (s[0] == '-' || s[0] == '+');
    var body := if signed then s[1..] else s;
    if body == [] || !Config.AllDigitChars(body) then None
    else
      var v := if signed && s[0] == '-' then -Config.DecimalValue(body) else Config.DecimalValue(body);
      if IsInt64(v) then Some(v) else None
  }

  /** `ParseInt` reads back what `%d` prints, for every 64-bit value. */
  lemma ParseInt64RoundTrip(n: int)
    requires IsInt64(n)
    ensures ParseInt64(DecimalString(n)) == Some(n)
  {
    var m := if n < 0 then -n else n;
    Config.DecimalStringRoundTrip(m);
    var body := DecimalString(m);
    if n < 0 {
      assert DecimalString(n) == "-" + body;
      assert DecimalString(n)[1..] == body;
    } else {
      assert DecimalString(n) == body;
      assert body[0] != '-' && body[0] != '+';
    }
  }

  /** A segment `parseKeyCount` accepts: `keys=` followed by a number. */
  predicate IsKeysSegment(p: string) {
    |p| > 5 && p[..5] == "keys=" && ParseInt64(p[5..]).Some?
  }

  /** The count the first accepted segment carries, or 0 when none is accepted. */
  function FirstKeyCount(parts: seq<string>): (n: int)
    ensures forall i ::
              (0 <= i < |parts| && IsKeysSegment(parts[i]) && forall j :: 0 <= j < i ==> !IsKeysSegment(parts[j]))
              ==> n == ParseInt64(parts[i][5..]).value
    ensures (forall i :: 0 <= i < |parts| ==> !IsKeysSegment(parts[i])) ==> n == 0
  {
    if parts == [] then 0
    else if IsKeysSegment(parts[0]) then ParseInt64(parts[0][5..]).value
    else
      var n := FirstKeyCount(parts[1..]);
      assert forall i :: 1 <= i < |parts| ==> parts[1..][i - 1] == parts[i];
      n
  }

  /** `parseKeyCount`: split on commas and return the first accepted count. */
  method ParseKeyCount(dbInfo: string) returns (count: int)
    ensures count == FirstKeyCount(Split(dbInfo, ','))
  {
    var parts := SplitString(dbInfo, ',');
    var i := 0;
    while i < |parts|
      invariant 0 <= i <= |parts|
      invariant FirstKeyCount(parts[i..]) == FirstKeyCount(parts)
    {
      var part := parts[i];
      if |part| > 5 && part[..5] == "keys=" {
        var parsed := ParseInt64(part[5..]);
        if parsed.Some? {
          return parsed.value;
        }
      }
      assert parts[i..][1..] == parts[i + 1..];
      i := i + 1;
    }
    return 0;
  }
}
