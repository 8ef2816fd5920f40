/** String helpers shared by the three core files: concatenation of streamed pieces,
    Python's str.join, decimal rendering of numbers, ASCII lower-casing, suffix tests
    and whitespace stripping. Strings are sequences of characters. */
module Text {

  /** The left-to-right concatenation of `parts`, as built by `acc += part`. */
  function Concat(parts: seq<string>): (r: string)
    decreases |parts|
  {
    if parts == [] then "" else Concat(parts[..|parts| - 1]) + parts[|parts| - 1]
  }

  /** Concatenation distributes over sequence append. */
  lemma {:induction false} ConcatAppend(a: seq<string>, b: seq<string>)
    ensures Concat(a + b) == Concat(a) + Concat(b)
    decreases |b|
  {
    if b == [] {
      assert a + b == a;
    } else {
      var b', ab := b[..|b| - 1], a + b;
      assert ab[..|ab| - 1] == a + b' && ab[|ab| - 1] == b[|b| - 1];
      ConcatAppend(a, b');
      assert Concat(ab) == Concat(a + b') + b[|b| - 1];
    }
  }

  /** Each longer prefix of the stream extends the text of the shorter one. */
  lemma {:induction false} ConcatPrefix(parts: seq<string>, i: nat, j: nat)
    requires i <= j <= |parts|
    ensures Concat(parts[..i]) <= Concat(parts[..j])
    ensures |Concat(parts[..j])| == |Concat(parts[..i])| + |Concat(parts[i..j])|
  {
    assert parts[..j] == parts[..i] + parts[i..j];
    ConcatAppend(parts[..i], parts[i..j]);
  }

  /** Python's `sep.join(parts)`. */
  function Join(sep: string, parts: seq<string>): (r: string)
    decreases |parts|
  {
    if parts == [] then ""
    else if |parts| == 1 then parts[0]
    else Join(sep, parts[..|parts| - 1]) + sep + parts[|parts| - 1]
  }

  /** The joined text holds every part and one separator between each two neighbours. */
  lemma {:induction false} JoinLength(sep: string, parts: seq<string>)
    requires parts != []
    ensures |Join(sep, parts)| == |Concat(parts)| + (|parts| - 1) * |sep|
    decreases |parts|
  {
    if |parts| == 1 {
      assert parts[..0] == [];
    } else {
      var front, n := parts[..|parts| - 1], |parts|;
      JoinLength(sep, front);
      assert Concat(parts) == Concat(front) + parts[n - 1];
      assert (n - 1) * |sep| == (n - 2) * |sep| + |sep|;
    }
  }

  /** The character for a decimal digit. */
  function DigitChar(d: nat): (c: char)
    requires d < 10
    ensures '0' <= c <= '9' && c as int - '0' as int == d
  {
    (d + '0' as int) as char
  }

  /** Decimal rendering of a natural number, as `${n}` and `str(n)` produce it. */
  function NatToString(n: nat): (r: string)
    decreases n
  {
    if n < 10 then [DigitChar(n)] else NatToString(n / 10) + [DigitChar(n % 10)]
  }

  /** The value of a string of decimal digits, most significant first. */
  function DecimalValue(s: string): int
    decreases |s|
  {
    if s == [] then 0 else DecimalValue(s[..|s| - 1]) * 10 + (s[|s| - 1] as int - '0' as int)
  }

  /** Rendering is a non-empty string of digits that reads back as the number. */
  lemma {:induction false} NatToStringRoundTrip(n: nat)
    ensures NatToString(n) != []
    ensures forall i :: 0 <= i < |NatToString(n)| ==> '0' <= NatToString(n)[i] <= '9'
    ensures DecimalValue(NatToString(n)) == n
    decreases n
  {
    if n >= 10 {
      NatToStringRoundTrip(n / 10);
      var s := NatToString(n);
      assert s[..|s| - 1] == NatToString(n / 10);
    }
  }

  /** ASCII lower-casing of one character; other characters are left as they are. */
  function LowerChar(c: char): char
  {
    if 'A' <= c <= 'Z' then (c as int - 'A' as int + 'a' as int) as char else c
  }

  /** ASCII lower-casing of a string. */
  function Lower(s: string): (r: string)
    ensures |r| == |s|
    ensures forall i :: 0 <= i < |s| ==> r[i] == LowerChar(s[i])
  {
    seq(|s|, i requires 0 <= i < |s| => LowerChar(s[i]))
  }

  /** Python's `s.endswith(suffix)`. */
  predicate EndsWith(s: string, suffix: string)
  {
    |suffix| <= |s| && s[|s| - |suffix|..] == suffix
  }

  /** Drops leading characters for which `ws` holds. */
  function StripStart(s: string, ws: char -> bool): (r: string)
    ensures |r| <= |s| && r == s[|s| - |r|..]
    ensures r != [] ==> !ws(r[0])
    ensures forall i :: 0 <= i < |s| - |r| ==> ws(s[i])
    decreases |s|
  {
    if s != [] && ws(s[0]) then StripStart(s[1..], ws) else s
  }

  /** Drops trailing characters for which `ws` holds. */
  function StripEnd(s: string, ws: char -> bool): (r: string)
    ensures |r| <= |s| && r == s[..|r|]
    ensures r != [] ==> !ws(r[|r| - 1])
    ensures forall i :: |r| <= i < |s| ==> ws(s[i])
    decreases |s|
  {
    if s != [] && ws(s[|s| - 1]) then StripEnd(s[..|s| - 1], ws) else s
  }

  /** Python's `s.strip()` / JavaScript's `s.trim()` for the whitespace class `ws`. */
  function Strip(s: string, ws: char -> bool): string
  {
    StripEnd(StripStart(s, ws), ws)
  }

  /** Every character of `s` is whitespace. */
  predicate Blank(s: string, ws: char -> bool)
  {
    forall i :: 0 <= i < |s| ==> ws(s[i])
  }

  /** A string of whitespace alone loses every character to StripStart. */
  lemma {:induction false} StripStartBlank(s: string, ws: char -> bool)
    requires Blank(s, ws)
    ensures StripStart(s, ws) == ""
    decreases |s|
  {
    if s != [] {
      StripStartBlank(s[1..], ws);
    }
  }

  /** Stripping leaves nothing exactly when the string is all whitespace. */
  lemma StripEmptyIffBlank(s: string, ws: char -> bool)
    ensures Strip(s, ws) == "" <==> Blank(s, ws)
  {
    var t := StripStart(s, ws);
    if Blank(s, ws) {
      StripStartBlank(s, ws);
    }
    if Strip(s, ws) == "" {
      assert t == "";
    }
  }
}
