/**
  Bytes, characters and the string routines the signing engine and its
  helpers lean on: substring search (forward and backward, as
  `std::string::find`/`rfind` and `String.contains` do), trimming, splitting
  on a separator, ASCII case mapping, hexadecimal and decimal rendering, and
  the names a flag array selects from a table.
 */
module Text {
  import opened Wrappers

  /** One octet, as a C++ `BYTE` or a Java `byte` read unsigned. */
  type Byte = b: int | 0 <= b < 256

  /** A C++ `char` stored into a `BYTE`: only the low eight bits survive. */
  function ToByte(c: char): Byte {
    (c as int) % 256
  }

  /** The bytes of a narrow (8-bit) string, one per character. */
  function Latin1(s: string): (r: seq<Byte>)
    ensures |r| == |s|
    ensures forall i :: 0 <= i < |s| ==> r[i] == ToByte(s[i])
  {
    if s == [] then [] else [ToByte(s[0])] + Latin1(s[1..])
  }

  lemma {:induction false} Latin1Append(a: string, b: string)
    ensures Latin1(a + b) == Latin1(a) + Latin1(b)
  {
    var l, r := Latin1(a + b), Latin1(a) + Latin1(b);
    assert |l| == |r|;
    forall i | 0 <= i < |l| ensures l[i] == r[i] {
      if i < |a| {
        assert (a + b)[i] == a[i];
      } else {
        assert (a + b)[i] == b[i - |a|];
      }
    }
  }

  // ---------------------------------------------------------------------
  // Substring search

  /** `p` occurs in `s` starting at index `i`. */
  predicate OccursAt<T(==)>(s: seq<T>, p: seq<T>, i: int) {
    0 <= i && i + |p| <= |s| && s[i..i + |p|] == p
  }

  /** The first occurrence of `p` in `s` at or after `from` (`std::string::find(p, from)`). */
  function FindFrom<T(==)>(s: seq<T>, p: seq<T>, from: nat): (r: Option<nat>)
    ensures r.Some? ==> from <= r.value && OccursAt(s, p, r.value)
    ensures r.Some? ==> forall j :: from <= j < r.value ==> !OccursAt(s, p, j)
    ensures r.None? ==> forall j :: from <= j ==> !OccursAt(s, p, j)
    decreases |s| - from
  {
    if from + |p| > |s| then None
    else if s[from..from + |p|] == p then Some(from)
    else FindFrom(s, p, from + 1)
  }

  /** The last occurrence of `p` in `s` that starts at or before `k`. */
  function FindLastAtOrBelow<T(==)>(s: seq<T>, p: seq<T>, k: int): (r: Option<nat>)
    ensures r.Some? ==> r.value <= k && OccursAt(s, p, r.value)
    ensures r.Some? ==> forall j :: r.value < j <= k ==> !OccursAt(s, p, j)
    ensures r.None? ==> forall j :: j <= k ==> !OccursAt(s, p, j)
    decreases k + 1
  {
    if k < 0 then None
    else if OccursAt(s, p, k) then Some(k)
    else FindLastAtOrBelow(s, p, k - 1)
  }

  /** The last occurrence of `p` in `s` (`std::string::rfind(p)`). */
  function FindLast<T(==)>(s: seq<T>, p: seq<T>): (r: Option<nat>)
    ensures r.Some? ==> OccursAt(s, p, r.value) && forall j :: r.value < j ==> !OccursAt(s, p, j)
    ensures r.None? ==> forall j :: !OccursAt(s, p, j)
  {
    FindLastAtOrBelow(s, p, |s| - |p|)
  }

  /** The index of the last `c` in `s` (`lastIndexOf(c)`). */
  function LastIndexOf(s: string, c: char): (r: Option<nat>)
    ensures r.Some? ==> r.value < |s| && s[r.value] == c && forall j :: r.value < j < |s| ==> s[j] != c
    ensures r.None? ==> c !in s
  {
    if s == [] then None
    else if s[|s| - 1] == c then Some(|s| - 1)
    else LastIndexOf(s[..|s| - 1], c)
  }

  /** An exception message as Java string concatenation and Kotlin string templates
      render it: a null message (`None`) becomes "null". */
  function MessageText(message: Option<string>): string {
    message.GetOr("null")
  }

  /** `String.contains` / `Regex`-free substring test. */
  predicate Contains<T(==)>(s: seq<T>, p: seq<T>) {
    FindFrom(s, p, 0).Some?
  }

  lemma ContainsIff<T>(s: seq<T>, p: seq<T>)
    ensures Contains(s, p) <==> exists i :: OccursAt(s, p, i)
  {
    var r := FindFrom(s, p, 0);
    if r.Some? {
      assert OccursAt(s, p, r.value);
    }
  }

  predicate StartsWith<T(==)>(s: seq<T>, p: seq<T>) {
    |p| <= |s| && s[..|p|] == p
  }

  predicate EndsWith<T(==)>(s: seq<T>, p: seq<T>) {
    |p| <= |s| && s[|s| - |p|..] == p
  }

  // ---------------------------------------------------------------------
  // Trimming

  /** Java's `String.trim`: every code point up to and including the space. */
  predicate JavaTrimmable(c: char) {
    c <= ' '
  }

  /** Kotlin's `Char.isWhitespace`: Java whitespace plus the Unicode space separators. */
  predicate KotlinWhitespace(c: char) {
    || c == ' ' || c == '\t' || c == '\n' || c == '\U{B}' || c == '\U{C}' || c == '\r'
    || ('\U{1C}' <= c <= '\U{1F}')
    || c == '\U{A0}' || c == '\U{1680}' || ('\U{2000}' <= c <= '\U{200A}')
    || c == '\U{2028}' || c == '\U{2029}' || c == '\U{202F}' || c == '\U{205F}' || c == '\U{3000}'
  }

  function TrimRight(s: string, ws: char -> bool): (r: string)
    ensures |r| <= |s| && r == s[..|r|]
    ensures r != [] ==> !ws(r[|r| - 1])
    ensures forall i :: |r| <= i < |s| ==> ws(s[i])
  {
    if s != [] && ws(s[|s| - 1]) then TrimRight(s[..|s| - 1], ws) else s
  }

  /** `r` is the slice of `s` that starts at `i`. */
  predicate IsSliceAt(r: string, s: string, i: int) {
    0 <= i <= |s| - |r| && r == s[i..i + |r|]
  }

  /** Strips leading and trailing characters satisfying `ws`. */
  function Trim(s: string, ws: char -> bool): (r: string)
    ensures |r| <= |s|
    ensures r != [] ==> !ws(r[0]) && !ws(r[|r| - 1])
  {
    if s != [] && ws(s[0]) then Trim(s[1..], ws) else TrimRight(s, ws)
  }

  /** What `Trim` keeps is one stretch of the input. */
  lemma {:induction false} TrimIsSlice(s: string, ws: char -> bool)
    ensures exists i :: IsSliceAt(Trim(s, ws), s, i)
  {
    if s != [] && ws(s[0]) {
      TrimIsSlice(s[1..], ws);
      var i :| IsSliceAt(Trim(s[1..], ws), s[1..], i);
      assert IsSliceAt(Trim(s, ws), s, i + 1);
    } else {
      assert IsSliceAt(Trim(s, ws), s, 0);
    }
  }

  /** Kotlin's `isNotBlank`: some character is not whitespace. */
  predicate IsNotBlank(s: string) {
    exists i :: 0 <= i < |s| && !KotlinWhitespace(s[i])
  }

  // ---------------------------------------------------------------------
  // Splitting

  /** The pieces between occurrences of `sep`, keeping empty pieces. */
  function SplitAll(s: string, sep: char): (parts: seq<string>)
    ensures |parts| >= 1
    ensures forall k :: 0 <= k < |parts| ==> sep !in parts[k]
  {
    if s == [] then [[]]
    else
      var rest := SplitAll(s[1..], sep);
      if s[0] == sep then [[]] + rest else [[s[0]] + rest[0]] + rest[1..]
  }

  /** Puts the pieces back together with `sep` between them. */
  function Join(parts: seq<string>, sep: char): string
    requires |parts| >= 1
  {
    if |parts| == 1 then parts[0] else parts[0] + [sep] + Join(parts[1..], sep)
  }

  lemma {:induction false} SplitJoin(s: string, sep: char)
    ensures Join(SplitAll(s, sep), sep) == s
  {
    if s != [] {
      SplitJoin(s[1..], sep);
      var rest := SplitAll(s[1..], sep);
      if s[0] != sep {
        var parts := [[s[0]] + rest[0]] + rest[1..];
        if |rest| == 1 {
          assert Join(parts, sep) == [s[0]] + rest[0];
        } else {
          assert parts[1..] == rest[1..];
          assert Join(parts, sep) == [s[0]] + (rest[0] + [sep] + Join(rest[1..], sep));
        }
      }
    }
  }

  function DropTrailingEmpty(parts: seq<string>): (r: seq<string>)
    ensures |r| <= |parts| && r == parts[..|r|]
    ensures r != [] ==> r[|r| - 1] != []
    ensures forall k :: |r| <= k < |parts| ==> parts[k] == []
  {
    if parts != [] && parts[|parts| - 1] == [] then DropTrailingEmpty(parts[..|parts| - 1]) else parts
  }

  /** Java's `String.split` on a one-character literal: trailing empty pieces are dropped,
      except that the empty string splits into one empty piece. */
  function JavaSplit(s: string, sep: char): seq<string> {
    if s == [] then [s] else DropTrailingEmpty(SplitAll(s, sep))
  }

  // ---------------------------------------------------------------------
  // Case mapping (ASCII letters only)

  function LowerChar(c: char): char {
    if 'A' <= c <= 'Z' then (c as int + 32) as char else c
  }

  function UpperChar(c: char): char {
    if 'a' <= c <= 'z' then (c as int - 32) as char else c
  }

  function ToLower(s: string): (r: string)
    ensures |r| == |s|
    ensures forall i :: 0 <= i < |s| ==> r[i] == LowerChar(s[i])
  {
    if s == [] then [] else [LowerChar(s[0])] + ToLower(s[1..])
  }

  function ToUpper(s: string): (r: string)
    ensures |r| == |s|
    ensures forall i :: 0 <= i < |s| ==> r[i] == UpperChar(s[i])
  {
    if s == [] then [] else [UpperChar(s[0])] + ToUpper(s[1..])
  }

  // ---------------------------------------------------------------------
  // Hexadecimal

  predicate IsLowerHexDigit(c: char) {
    '0' <= c <= '9' || 'a' <= c <= 'f'
  }

  predicate IsUpperHexDigit(c: char) {
    '0' <= c <= '9' || 'A' <= c <= 'F'
  }

  /** The lowercase digit for a value below 16 (`std::hex`, `toString(16)`). */
  function LowerHexDigit(d: nat): (c: char)
    requires d < 16
    ensures IsLowerHexDigit(c)
  {
    if d < 10 then ('0' as int + d) as char else ('a' as int + d - 10) as char
  }

  /** The value of one hexadecimal digit of either case. */
  function HexValue(c: char): (r: Option<nat>)
    ensures r.Some? <==> IsLowerHexDigit(c) || IsUpperHexDigit(c)
    ensures r.Some? ==> r.value < 16
  {
    if '0' <= c <= '9' then Some(c as int - '0' as int)
    else if 'a' <= c <= 'f' then Some(c as int - 'a' as int + 10)
    else if 'A' <= c <= 'F' then Some(c as int - 'A' as int + 10)
    else None
  }

  /** A byte as two lowercase hex digits (`std::hex << setw(2) << setfill('0')`). */
  function ByteHex(b: Byte): string {
    [LowerHexDigit(b / 16), LowerHexDigit(b % 16)]
  }

  /** Bytes as lowercase hex, two digits each, first byte first. */
  function HexLower(bs: seq<Byte>): (s: string)
    ensures |s| == 2 * |bs|
  {
    if bs == [] then [] else ByteHex(bs[0]) + HexLower(bs[1..])
  }

  /** Byte `k` is rendered at positions `2k` (high nibble) and `2k+1` (low nibble). */
  lemma {:induction false} HexLowerAt(bs: seq<Byte>, k: nat)
    requires k < |bs|
    ensures HexLower(bs)[2 * k] == LowerHexDigit(bs[k] / 16)
    ensures HexLower(bs)[2 * k + 1] == LowerHexDigit(bs[k] % 16)
  {
    if k > 0 {
      HexLowerAt(bs[1..], k - 1);
    }
  }

  lemma {:induction false} HexLowerAppend(a: seq<Byte>, b: seq<Byte>)
    ensures HexLower(a + b) == HexLower(a) + HexLower(b)
  {
    if a != [] {
      assert (a + b)[0] == a[0];
      assert (a + b)[1..] == a[1..] + b;
      HexLowerAppend(a[1..], b);
      assert HexLower(a + b) == ByteHex(a[0]) + HexLower(a[1..] + b);
    } else {
      assert a + b == b;
    }
  }

  /** Every character of `HexLower` is a lowercase hex digit. */
  lemma HexLowerIsLowerHex(bs: seq<Byte>, i: nat)
    requires i < 2 * |bs|
    ensures IsLowerHexDigit(HexLower(bs)[i])
  {
    var k := i / 2;
    assert i == 2 * k || i == 2 * k + 1;
    HexLowerAt(bs, k);
  }

  /** Decoding two hexadecimal digits (either case) back to a byte. */
  function PairValue(hi: char, lo: char): Option<Byte> {
    match (HexValue(hi), HexValue(lo))
    case (Some(h), Some(l)) => Some(16 * h + l)
    case _ => None
  }

  /** Decodes an even-length hex string, two digits per byte. */
  function DecodeHex(s: string): Option<seq<Byte>>
    decreases |s|
  {
    if |s| == 0 then Some([])
    else if |s| == 1 then None
    else match (PairValue(s[0], s[1]), DecodeHex(s[2..]))
      case (Some(b), Some(rest)) => Some([b] + rest)
      case _ => None
  }

  lemma {:induction false} DecodeHexLower(bs: seq<Byte>)
    ensures DecodeHex(HexLower(bs)) == Some(bs)
  {
    if bs != [] {
      var b := bs[0];
      assert HexLower(bs)[2..] == HexLower(bs[1..]);
      DecodeHexLower(bs[1..]);
      assert [b] + bs[1..] == bs;
    }
  }

  // ---------------------------------------------------------------------
  // Decimal and hexadecimal numerals

  function DecimalDigit(d: nat): (c: char)
    requires d < 10
    ensures '0' <= c <= '9'
  {
    ('0' as int + d) as char
  }

  /** A natural number in decimal with no leading zeros (`operator<<`, `std::to_string`). */
  function NatToDecimal(n: nat): (s: string)
    ensures |s| >= 1
    ensures forall i :: 0 <= i < |s| ==> '0' <= s[i] <= '9'
  {
    if n < 10 then [DecimalDigit(n)] else NatToDecimal(n / 10) + [DecimalDigit(n % 10)]
  }

  /** The value of a string of decimal digits. */
  function DecimalValue(s: string): int {
    if s == [] then 0 else 10 * DecimalValue(s[..|s| - 1]) + (s[|s| - 1] as int - '0' as int)
  }

  lemma {:induction false} DecimalRoundTrip(n: nat)
    ensures DecimalValue(NatToDecimal(n)) == n
  {
    var s := NatToDecimal(n);
    if n >= 10 {
      DecimalRoundTrip(n / 10);
      assert s[..|s| - 1] == NatToDecimal(n / 10);
    }
  }

  /** `std::to_string` of a signed integer. */
  function IntToDecimal(i: int): string {
    if i < 0 then "-" + NatToDecimal(-i) else NatToDecimal(i)
  }

  /** `BigInteger.toString(16)` of a non-negative value: lowercase digits, no leading zeros. */
  function NatToHex(n: nat): (s: string)
    ensures |s| >= 1
    ensures forall i :: 0 <= i < |s| ==> IsLowerHexDigit(s[i])
  {
    if n < 16 then [LowerHexDigit(n)] else NatToHex(n / 16) + [LowerHexDigit(n % 16)]
  }

  /** The value of a string of hex digits. */
  function HexNumeralValue(s: string): nat {
    if s == [] then 0
    else 16 * HexNumeralValue(s[..|s| - 1]) + HexValue(s[|s| - 1]).GetOr(0)
  }

  lemma {:induction false} NatToHexRoundTrip(n: nat)
    ensures HexNumeralValue(NatToHex(n)) == n
  {
    var s := NatToHex(n);
    if n >= 16 {
      NatToHexRoundTrip(n / 16);
      assert s[..|s| - 1] == NatToHex(n / 16);
    }
  }

  /** `BigInteger.toString(16)`: a minus sign for negative values. */
  function BigIntegerToHex(n: int): string {
    if n < 0 then "-" + NatToHex(-n) else NatToHex(n)
  }

  /** The serial-number rendering shared by the Java and Kotlin helpers:
      `toString(16)` then upper case. */
  function SerialUpperHex(n: int): (s: string)
    ensures |s| >= 1
    ensures n >= 0 ==> forall i :: 0 <= i < |s| ==> IsUpperHexDigit(s[i])
    ensures n < 0 ==> s[0] == '-'
  {
    ToUpper(BigIntegerToHex(n))
  }

  lemma {:induction false} UpperHexValue(s: string)
    requires forall i :: 0 <= i < |s| ==> IsLowerHexDigit(s[i])
    ensures HexNumeralValue(ToUpper(s)) == HexNumeralValue(s)
  {
    if s != [] {
      var u := ToUpper(s);
      assert u[..|u| - 1] == ToUpper(s[..|s| - 1]);
      UpperHexValue(s[..|s| - 1]);
    }
  }

  /** Reading the upper-case serial back as hex gives the serial number. */
  lemma SerialUpperHexRoundTrip(n: nat)
    ensures HexNumeralValue(SerialUpperHex(n)) == n
  {
    NatToHexRoundTrip(n);
    UpperHexValue(NatToHex(n));
  }

  // ---------------------------------------------------------------------
  // Selection by flags

  /** The indices below `n` whose flag is set, in increasing order. */
  function FlaggedIndices(flags: seq<bool>, n: nat): (idx: seq<nat>)
    requires n <= |flags|
    ensures forall k :: 0 <= k < |idx| ==> idx[k] < n && flags[idx[k]]
    ensures forall i :: 0 <= i < n && flags[i] ==> i in idx
    ensures forall a, b :: 0 <= a < b < |idx| ==> idx[a] < idx[b]
  {
    if n == 0 then [] else FlaggedIndices(flags, n - 1) + (if flags[n - 1] then [n - 1] else [])
  }

  /** The entries of `items` whose flag is set among the first `n`, in index order, as a
      loop appending `items[i]` for every set `flags[i]` builds them. */
  function Selected<T>(flags: seq<bool>, items: seq<T>, n: nat): (r: seq<T>)
    requires n <= |flags| && n <= |items|
    ensures |r| <= n
  {
    if n == 0 then []
    else if flags[n - 1] then Selected(flags, items, n - 1) + [items[n - 1]]
    else Selected(flags, items, n - 1)
  }

  /** The selection is the table read at the flagged indices, in increasing order. */
  lemma {:induction false} SelectedAtFlaggedIndices<T>(flags: seq<bool>, items: seq<T>, n: nat)
    requires n <= |flags| && n <= |items|
    ensures var idx := FlaggedIndices(flags, n);
      |Selected(flags, items, n)| == |idx| &&
      forall k :: 0 <= k < |idx| ==> Selected(flags, items, n)[k] == items[idx[k]]
  {
    if n > 0 {
      SelectedAtFlaggedIndices(flags, items, n - 1);
    }
  }

  /** Flags at or beyond `n` play no part. */
  lemma {:induction false} SelectedIgnoresLater<T>(flags: seq<bool>, items: seq<T>, n: nat, flags': seq<bool>)
    requires n <= |flags| && n <= |items| && n <= |flags'| && flags[..n] == flags'[..n]
    ensures Selected(flags, items, n) == Selected(flags', items, n)
  {
    if n > 0 {
      assert flags[..n - 1] == flags[..n][..n - 1];
      assert flags'[..n - 1] == flags'[..n][..n - 1];
      assert flags[n - 1] == flags[..n][n - 1];
      assert flags'[n - 1] == flags'[..n][n - 1];
      SelectedIgnoresLater(flags, items, n - 1, flags');
    }
  }

  /** With a table of distinct entries, an entry is selected exactly when its index is
      below `n` and flagged. */
  lemma {:induction false} SelectedHas<T>(flags: seq<bool>, items: seq<T>, n: nat, i: nat)
    requires n <= |flags| && n <= |items| && i < |items|
    requires forall a, b :: 0 <= a < b < |items| ==> items[a] != items[b]
    ensures items[i] in Selected(flags, items, n) <==> i < n && flags[i]
  {
    if n > 0 {
      SelectedHas(flags, items, n - 1, i);
      if i != n - 1 {
        assert items[i] != items[n - 1];
      }
    }
  }
}
