/** The handful of Python string operations the pipeline relies on:
    `str.strip()`, `str.split()`, `str.rstrip(",")`, `" ".join(...)`,
    `str.isdigit()`, `int(s)`, `int(s, 16)` and the `{:04X}` format.
    Characters are ASCII; Python's Unicode classes are not modelled. */
module Text {
  import opened Wrappers

  // ---------------------------------------------------------------------
  // Whitespace, strip and split
  // ---------------------------------------------------------------------

  /** The ASCII characters Python's `str.isspace()` accepts. */
  predicate IsSpace(c: char) {
    c == ' ' || c == '\t' || c == '\n' || c == '\r' || c == '\U{000B}' || c == '\U{000C}'
    || ('\U{001C}' <= c <= '\U{001F}')
  }

  predicate NoSpace(s: string) {
    forall k :: 0 <= k < |s| ==> !IsSpace(s[k])
  }

  /** `s` with its leading whitespace removed. */
  function TrimLeft(s: string): string {
    if s == [] || !IsSpace(s[0]) then s else TrimLeft(s[1..])
  }

  /** `TrimLeft` drops exactly the leading run of whitespace. */
  lemma {:induction false} TrimLeftDropsSpace(s: string)
    ensures var r := TrimLeft(s);
            && |r| <= |s| && r == s[|s| - |r|..]
            && (r == [] || !IsSpace(r[0]))
            && (forall k :: 0 <= k < |s| - |r| ==> IsSpace(s[k]))
    decreases |s|
  {
    if s != [] && IsSpace(s[0]) {
      var t := s[1..];
      TrimLeftDropsSpace(t);
      var r := TrimLeft(t);
      assert TrimLeft(s) == r;
      TailSuffix(s, |r|);
      LeadingSpace(s, |t| - |r|);
    }
  }

  /** A suffix of the tail of `s` is a suffix of `s`. */
  lemma TailSuffix(s: string, m: nat)
    requires s != [] && m <= |s| - 1
    ensures s[1..][|s| - 1 - m..] == s[|s| - m..]
  {
  }

  /** A space followed by `n` more spaces starts with `n + 1` spaces. */
  lemma LeadingSpace(s: string, n: nat)
    requires s != [] && IsSpace(s[0]) && n <= |s| - 1
    requires forall k :: 0 <= k < n ==> IsSpace(s[1..][k])
    ensures forall k :: 0 <= k < n + 1 ==> IsSpace(s[k])
  {
    forall k | 0 <= k < n + 1
      ensures IsSpace(s[k])
    {
      if k > 0 {
        assert s[k] == s[1..][k - 1];
      }
    }
  }

  /** `s` with its trailing whitespace removed. */
  function TrimRight(s: string): string {
    if s == [] || !IsSpace(s[|s| - 1]) then s else TrimRight(s[..|s| - 1])
  }

  /** `TrimRight` drops exactly the trailing run of whitespace. */
  lemma {:induction false} TrimRightDropsSpace(s: string)
    ensures var r := TrimRight(s);
            && |r| <= |s| && r == s[..|r|]
            && (r == [] || !IsSpace(r[|r| - 1]))
            && (forall k :: |r| <= k < |s| ==> IsSpace(s[k]))
    decreases |s|
  {
    if s != [] && IsSpace(s[|s| - 1]) {
      var t := s[..|s| - 1];
      TrimRightDropsSpace(t);
      var r := TrimRight(t);
      assert t[..|r|] == s[..|r|];
      forall k | |r| <= k < |s|
        ensures IsSpace(s[k])
      {
        if k < |t| {
          assert s[k] == t[k];
        }
      }
    }
  }

  /** Python's `s.strip()`. */
  function Strip(s: string): string {
    TrimRight(TrimLeft(s))
  }

  /** What `strip()` leaves is a piece of `s` with no whitespace at either end. */
  lemma StripEnds(s: string)
    ensures var r := Strip(s);
            && |r| <= |s|
            && (r == [] || (!IsSpace(r[0]) && !IsSpace(r[|r| - 1])))
  {
    var l := TrimLeft(s);
    TrimLeftDropsSpace(s);
    TrimRightDropsSpace(l);
    var r := TrimRight(l);
    assert r != [] ==> r[0] == l[0];
  }

  /** Length of the run of non-whitespace characters that starts `s`. */
  function WordLength(s: string): (n: nat)
    ensures n <= |s|
  {
    if s == [] || IsSpace(s[0]) then 0 else 1 + WordLength(s[1..])
  }

  /** The run WordLength measures has no whitespace and ends at whitespace
      or at the end of `s`. */
  lemma {:induction false} WordLengthStops(s: string)
    ensures var n := WordLength(s);
            && (forall k :: 0 <= k < n ==> !IsSpace(s[k]))
            && (n == |s| || IsSpace(s[n]))
  {
    if s != [] && !IsSpace(s[0]) {
      WordLengthStops(s[1..]);
      var n := WordLength(s);
      forall k | 0 <= k < n
        ensures !IsSpace(s[k])
      {
        if k > 0 {
          assert s[k] == s[1..][k - 1];
        }
      }
    }
  }

  /** Python's `s.split()`: the maximal runs of non-whitespace, in order. */
  function Split(s: string): seq<string>
    decreases |s|
  {
    if s == [] then []
    else if IsSpace(s[0]) then Split(s[1..])
    else
      var n := WordLength(s);
      [s[..n]] + Split(s[n..])
  }

  /** Non-empty words without whitespace. */
  predicate Words(ws: seq<string>) {
    forall k :: 0 <= k < |ws| ==> ws[k] != [] && NoSpace(ws[k])
  }

  /** What `split()` returns are words. */
  lemma {:induction false} SplitWords(s: string)
    ensures Words(Split(s))
    decreases |s|
  {
    if s != [] && IsSpace(s[0]) {
      SplitWords(s[1..]);
    } else if s != [] {
      var n := WordLength(s);
      WordLengthStops(s);
      var w := s[..n];
      assert NoSpace(w) by {
        forall k | 0 <= k < |w|
          ensures !IsSpace(w[k])
        {
          assert w[k] == s[k];
        }
      }
      assert w != [];
      SplitWords(s[n..]);
      var rest := Split(s[n..]);
      assert Split(s) == [w] + rest;
      forall k | 0 <= k < |[w] + rest|
        ensures ([w] + rest)[k] != [] && NoSpace(([w] + rest)[k])
      {
        if k > 0 {
          assert ([w] + rest)[k] == rest[k - 1];
        }
      }
    }
  }

  /** Python's `" ".join(parts)`. */
  function JoinSpace(parts: seq<string>): string
  {
    if parts == [] then ""
    else if |parts| == 1 then parts[0]
    else parts[0] + " " + JoinSpace(parts[1..])
  }

  /** Python's `s.rstrip(",")`: every trailing comma removed. */
  function RStripComma(s: string): (r: string)
    ensures |r| <= |s|
  {
    if s != [] && s[|s| - 1] == ',' then RStripComma(s[..|s| - 1]) else s
  }

  /** RStripComma keeps a prefix that does not end in a comma and drops
      only commas. */
  lemma {:induction false} RStripCommaDrops(s: string)
    ensures var r := RStripComma(s);
            && r == s[..|r|]
            && (r == [] || r[|r| - 1] != ',')
            && (forall k :: |r| <= k < |s| ==> s[k] == ',')
    decreases |s|
  {
    if s != [] && s[|s| - 1] == ',' {
      var t := s[..|s| - 1];
      RStripCommaDrops(t);
      var r := RStripComma(s);
      assert r == RStripComma(t);
      assert t[..|r|] == s[..|r|];
    }
  }

  lemma {:induction false} WordLengthOfWord(w: string, rest: string)
    requires NoSpace(w)
    requires rest == [] || IsSpace(rest[0])
    ensures WordLength(w + rest) == |w|
  {
    if w == [] {
      assert w + rest == rest;
    } else {
      var t := w + rest;
      assert t[0] == w[0] && t[1..] == w[1..] + rest;
      assert NoSpace(w[1..]) by {
        forall k | 0 <= k < |w[1..]| ensures !IsSpace(w[1..][k]) {
          assert w[1..][k] == w[k + 1];
        }
      }
      WordLengthOfWord(w[1..], rest);
    }
  }

  /** A leading word followed by whitespace (or nothing) is split off whole. */
  lemma SplitWord(w: string, rest: string)
    requires w != [] && NoSpace(w)
    requires rest == [] || IsSpace(rest[0])
    ensures Split(w + rest) == [w] + Split(rest)
  {
    var t := w + rest;
    assert t[0] == w[0];
    WordLengthOfWord(w, rest);
    assert t[..|w|] == w;
    assert t[|w|..] == rest;
  }

  /** Leading whitespace does not change the split. */
  lemma SplitSpace(c: char, s: string)
    requires IsSpace(c)
    ensures Split([c] + s) == Split(s)
  {
    assert ([c] + s)[1..] == s;
  }

  /** A stripped string whose ends are not blank is left alone. */
  lemma StripUnpadded(s: string)
    requires s == [] || (!IsSpace(s[0]) && !IsSpace(s[|s| - 1]))
    ensures Strip(s) == s
  {
    if s != [] {
      assert TrimLeft(s) == s;
    }
  }

  /** A trailing run of whitespace is removed by `strip()`. */
  lemma {:induction false} TrimRightTrailing(s: string, tail: string)
    requires s == [] || !IsSpace(s[|s| - 1])
    requires forall k :: 0 <= k < |tail| ==> IsSpace(tail[k])
    ensures TrimRight(s + tail) == s
    decreases |tail|
  {
    if tail != [] {
      var t := s + tail;
      assert t[..|t| - 1] == s + tail[..|tail| - 1];
      TrimRightTrailing(s, tail[..|tail| - 1]);
    } else {
      assert s + tail == s;
    }
  }

  // ---------------------------------------------------------------------
  // Decimal numerals
  // ---------------------------------------------------------------------

  predicate IsDigit(c: char) { '0' <= c <= '9' }

  /** Python's `s.isdigit()`: non-empty and every character a digit. */
  predicate IsDigits(s: string) {
    |s| > 0 && forall k :: 0 <= k < |s| ==> IsDigit(s[k])
  }

  /** Python's `int(s)` on a string of digits. */
  function DecimalValue(s: string): nat
    requires forall k :: 0 <= k < |s| ==> IsDigit(s[k])
  {
    if s == [] then 0
    else
      var c := s[|s| - 1];
      assert IsDigit(c);
      DecimalValue(s[..|s| - 1]) * 10 + (c as int - '0' as int)
  }

  function DigitChar(d: nat): (c: char)
    requires d < 16
    ensures d < 10 ==> IsDigit(c) && c as int - '0' as int == d
  {
    "0123456789ABCDEF"[d]
  }

  /** Python's `str(n)` for a natural number. */
  function DecimalString(n: nat): (s: string)
    ensures IsDigits(s)
  {
    if n < 10 then [DigitChar(n)] else DecimalString(n / 10) + [DigitChar(n % 10)]
  }

  lemma {:induction false} DecimalRoundTrip(n: nat)
    ensures DecimalValue(DecimalString(n)) == n
  {
    if n >= 10 {
      var s := DecimalString(n);
      assert s[..|s| - 1] == DecimalString(n / 10);
      DecimalRoundTrip(n / 10);
    }
  }

  /** Distinct numbers print differently. */
  lemma DecimalStringInjective(m: nat, n: nat)
    requires DecimalString(m) == DecimalString(n)
    ensures m == n
  {
    DecimalRoundTrip(m);
    DecimalRoundTrip(n);
  }

  // ---------------------------------------------------------------------
  // Hexadecimal numerals
  // ---------------------------------------------------------------------

  predicate IsHexDigit(c: char) {
    ('0' <= c <= '9') || ('a' <= c <= 'f') || ('A' <= c <= 'F')
  }

  predicate AllHex(s: string) {
    forall k :: 0 <= k < |s| ==> IsHexDigit(s[k])
  }

  function HexDigitValue(c: char): (d: nat)
    requires IsHexDigit(c)
    ensures d < 16
  {
    if '0' <= c <= '9' then c as int - '0' as int
    else if 'a' <= c <= 'f' then c as int - 'a' as int + 10
    else c as int - 'A' as int + 10
  }

  function HexValue(s: string): nat
    requires AllHex(s)
  {
    if s == [] then 0 else HexValue(s[..|s| - 1]) * 16 + HexDigitValue(s[|s| - 1])
  }

  /** Python's `int(s, 16)`, restricted to a non-empty run of hex digits. */
  function ParseHex(s: string): (r: Option<nat>)
    ensures r.Some? <==> s != [] && AllHex(s)
  {
    if s != [] && AllHex(s) then Some(HexValue(s)) else None
  }

  /** The upper-case hexadecimal digits of `n`, without leading zeros. */
  function UpperHex(n: nat): (s: string)
    ensures s != [] && AllHex(s)
  {
    if n < 16 then [DigitChar(n)] else UpperHex(n / 16) + [DigitChar(n % 16)]
  }

  function Zeros(k: nat): (s: string)
    ensures |s| == k && AllHex(s)
    ensures forall i :: 0 <= i < k ==> s[i] == '0'
  {
    if k == 0 then "" else "0" + Zeros(k - 1)
  }

  /** Python's `f"{n:04X}"`: upper-case hex, zero-padded to at least four digits. */
  function Hex4(n: nat): (s: string)
    ensures s != [] && AllHex(s)
  {
    var h := UpperHex(n);
    if |h| < 4 then Zeros(4 - |h|) + h else h
  }

  /** A digit or one of the upper-case letters `A` to `F`. */
  predicate IsUpperHexDigit(c: char) {
    ('0' <= c <= '9') || ('A' <= c <= 'F')
  }

  /** Digits and upper-case letters only: never `a` to `f`. */
  predicate UpperHexOnly(s: string) {
    forall k :: 0 <= k < |s| ==> IsUpperHexDigit(s[k])
  }

  lemma {:induction false} UpperHexIsUpper(n: nat)
    ensures UpperHexOnly(UpperHex(n))
  {
    var s := UpperHex(n);
    if n < 16 {
      assert s[0] == DigitChar(n);
    } else {
      var p := UpperHex(n / 16);
      UpperHexIsUpper(n / 16);
      assert s == p + [DigitChar(n % 16)];
      forall k | 0 <= k < |s|
        ensures IsUpperHexDigit(s[k])
      {
        if k < |p| {
          assert s[k] == p[k];
        }
      }
    }
  }

  /** The `04X` numeral has upper-case digits only, padding included. */
  lemma Hex4IsUpper(n: nat)
    ensures UpperHexOnly(Hex4(n))
  {
    var h := UpperHex(n);
    UpperHexIsUpper(n);
    if |h| < 4 {
      var z := Zeros(4 - |h|);
      var s := z + h;
      forall k | 0 <= k < |s|
        ensures IsUpperHexDigit(s[k])
      {
        if k < |z| {
          assert s[k] == '0';
        } else {
          assert s[k] == h[k - |z|];
        }
      }
    }
  }

  lemma {:induction false} UpperHexRoundTrip(n: nat)
    ensures HexValue(UpperHex(n)) == n
  {
    if n >= 16 {
      var s := UpperHex(n);
      assert s[..|s| - 1] == UpperHex(n / 16);
      UpperHexRoundTrip(n / 16);
    }
  }

  lemma {:induction false} LeadingZeroIgnored(s: string)
    requires AllHex(s)
    ensures HexValue("0" + s) == HexValue(s)
    decreases |s|
  {
    var t := "0" + s;
    if s != [] {
      assert t[..|t| - 1] == "0" + s[..|s| - 1];
      LeadingZeroIgnored(s[..|s| - 1]);
    } else {
      assert t[..|t| - 1] == [];
    }
  }

  lemma {:induction false} LeadingZerosIgnored(k: nat, s: string)
    requires AllHex(s)
    ensures HexValue(Zeros(k) + s) == HexValue(s)
  {
    if k > 0 {
      var rest := Zeros(k - 1) + s;
      assert AllHex(rest);
      assert Zeros(k) + s == "0" + rest;
      LeadingZeroIgnored(rest);
      LeadingZerosIgnored(k - 1, s);
    } else {
      assert Zeros(k) + s == s;
    }
  }

  /** Parsing the padded numeral gives the number back, whatever its size. */
  lemma Hex4RoundTrip(n: nat)
    ensures ParseHex(Hex4(n)) == Some(n)
  {
    UpperHexRoundTrip(n);
    var h := UpperHex(n);
    if |h| < 4 {
      LeadingZerosIgnored(4 - |h|, h);
    }
  }

  function Pow16(k: nat): (p: nat)
    ensures p >= 1
  {
    if k == 0 then 1 else 16 * Pow16(k - 1)
  }

  /** `n` needs at most `k` hex digits exactly when it is below 16^k. */
  lemma {:induction false} UpperHexLength(n: nat, k: nat)
    requires k >= 1
    ensures |UpperHex(n)| <= k <==> n < Pow16(k)
    decreases n
  {
    if n >= 16 {
      if k == 1 {
        assert |UpperHex(n / 16)| >= 1;
        assert Pow16(1) == 16;
      } else {
        UpperHexLength(n / 16, k - 1);
        assert Pow16(k) == 16 * Pow16(k - 1);
      }
    } else {
      assert Pow16(k) >= 16 by { Pow16AtLeast16(k); }
    }
  }

  lemma {:induction false} Pow16AtLeast16(k: nat)
    requires k >= 1
    ensures Pow16(k) >= 16
  {
    if k > 1 {
      Pow16AtLeast16(k - 1);
    }
  }

  /** `{:04X}` gives exactly four digits for every address below 65536, and more above. */
  lemma Hex4Length(n: nat)
    ensures |Hex4(n)| == 4 <==> n < 65536
  {
    UpperHexLength(n, 4);
    assert Pow16(4) == 65536;
  }
}
