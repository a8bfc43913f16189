/** Text handling and small values shared by the ASR engine and the catalog. */
module Domain {

  datatype AudioSource = Microphone | SystemAudio | Imported

  /** Unicode White_Space, which `str::trim` removes. */
  predicate IsWhitespace(c: char) {
    var n := c as int;
    || 0x9 <= n <= 0xD
    || n in {0x20, 0x85, 0xA0, 0x1680, 0x2028, 0x2029, 0x202F, 0x205F, 0x3000}
    || 0x2000 <= n <= 0x200A
  }

  function TrimStart(text: string): string {
    if text != [] && IsWhitespace(text[0]) then TrimStart(text[1..]) else text
  }

  function TrimEnd(text: string): string {
    if text != [] && IsWhitespace(text[|text| - 1]) then TrimEnd(text[..|text| - 1]) else text
  }

  function Trim(text: string): string {
    TrimEnd(TrimStart(text))
  }

  predicate Blank(text: string) {
    Trim(text) == []
  }

  /** Trimming cuts a middle part out of the text, drops only whitespace, and leaves none at the ends. */
  lemma TrimCutsWhitespace(text: string)
    ensures exists i, j ::
              && 0 <= i <= j <= |text| && Trim(text) == text[i..j]
              && (forall k :: 0 <= k < i || j <= k < |text| ==> IsWhitespace(text[k]))
    ensures Trim(text) != [] ==> !IsWhitespace(Trim(text)[0]) && !IsWhitespace(Trim(text)[|Trim(text)| - 1])
  {
    var i := TrimStartDrops(text);
    var rest := text[i..];
    var n := TrimEndKeeps(rest);
    assert rest[..n] == text[i..i + n];
    assert forall k :: i + n <= k < |text| ==> text[k] == rest[k - i];
  }

  /** A text is blank exactly when it is made of the 25 characters that Unicode calls white space. */
  lemma BlankExactly(text: string)
    ensures Blank(text)
        <==> forall i :: 0 <= i < |text| ==>
               text[i] as int in {9, 10, 11, 12, 13, 0x20, 0x85, 0xA0, 0x1680, 0x2000, 0x2001, 0x2002, 0x2003, 0x2004,
                                  0x2005, 0x2006, 0x2007, 0x2008, 0x2009, 0x200A, 0x2028, 0x2029, 0x202F, 0x205F,
                                  0x3000}
  {
    TrimCutsWhitespace(text);
    var from, to :| && 0 <= from <= to <= |text| && Trim(text) == text[from..to]
                    && (forall k :: 0 <= k < from || to <= k < |text| ==> IsWhitespace(text[k]));
    assert Trim(text) != [] ==> !IsWhitespace(text[from]);
  }

  lemma {:induction false} TrimStartDrops(text: string) returns (i: nat)
    ensures i <= |text| && TrimStart(text) == text[i..]
    ensures forall k :: 0 <= k < i ==> IsWhitespace(text[k])
    ensures i < |text| ==> !IsWhitespace(text[i])
  {
    if text != [] && IsWhitespace(text[0]) {
      var rest := text[1..];
      var j := TrimStartDrops(rest);
      i := j + 1;
      assert rest[j..] == text[i..];
      assert forall k :: 1 <= k < |text| ==> text[k] == rest[k - 1];
    } else {
      i := 0;
    }
  }

  lemma {:induction false} TrimEndKeeps(text: string) returns (n: nat)
    ensures n <= |text| && TrimEnd(text) == text[..n]
    ensures forall k :: n <= k < |text| ==> IsWhitespace(text[k])
    ensures n > 0 ==> !IsWhitespace(text[n - 1])
  {
    if text != [] && IsWhitespace(text[|text| - 1]) {
      var init := text[..|text| - 1];
      n := TrimEndKeeps(init);
      assert init[..n] == text[..n];
      assert forall k :: 0 <= k < |init| ==> text[k] == init[k];
    } else {
      n := |text|;
    }
  }

  lemma TrimIdempotent(text: string)
    ensures Trim(Trim(text)) == Trim(text)
  {
    TrimCutsWhitespace(text);
  }

  // Decimal rendering, as format! prints unsigned integers

  function Digit(d: nat): (c: char)
    requires d < 10
    ensures '0' <= c <= '9'
  {
    '0' + d as char
  }

  function Decimal(n: nat): (s: string)
    ensures s != []
    ensures forall k :: 0 <= k < |s| ==> '0' <= s[k] <= '9'
  {
    if n < 10 then [Digit(n)] else Decimal(n / 10) + [Digit(n % 10)]
  }

  lemma {:induction false} DecimalInjective(a: nat, b: nat)
    requires Decimal(a) == Decimal(b)
    ensures a == b
  {
    var s, t := Decimal(a), Decimal(b);
    assert s[|s| - 1] == t[|t| - 1] && s[..|s| - 1] == t[..|t| - 1];
    if a >= 10 && b >= 10 {
      assert s[..|s| - 1] == Decimal(a / 10) && t[..|t| - 1] == Decimal(b / 10);
      DecimalInjective(a / 10, b / 10);
    }
  }

  function ValueOf(digits: string): int {
    if digits == "" then 0 else 10 * ValueOf(digits[..|digits| - 1]) + (digits[|digits| - 1] as int - '0' as int)
  }

  /** The digits say the number, and no more of them than it takes. */
  lemma {:induction false} DecimalReadsBack(n: nat)
    ensures ValueOf(Decimal(n)) == n
    ensures |Decimal(n)| > 1 ==> Decimal(n)[0] != '0'
  {
    if n >= 10 {
      DecimalReadsBack(n / 10);
      assert Decimal(n)[..|Decimal(n)| - 1] == Decimal(n / 10);
      if |Decimal(n / 10)| == 1 {
        assert n / 10 < 10;
      }
    } else {
      assert Decimal(n)[..0] == "";
    }
  }

  function FirstUnderscore(s: string): nat {
    if s == [] || s[0] == '_' then 0 else 1 + FirstUnderscore(s[1..])
  }

  lemma {:induction false} UnderscoreAfterDigits(a: string, b: string)
    requires forall k :: 0 <= k < |a| ==> a[k] != '_'
    ensures FirstUnderscore(a + "_" + b) == |a|
  {
    if a != [] {
      UnderscoreAfterDigits(a[1..], b);
      assert (a + "_" + b)[1..] == a[1..] + "_" + b;
    }
  }

  /** Two digit strings joined by an underscore can be told apart again. */
  lemma UnderscoreSplits(a: string, b: string, c: string, d: string)
    requires forall k :: 0 <= k < |a| ==> a[k] != '_'
    requires forall k :: 0 <= k < |c| ==> c[k] != '_'
    requires a + "_" + b == c + "_" + d
    ensures a == c && b == d
  {
    UnderscoreAfterDigits(a, b);
    UnderscoreAfterDigits(c, d);
    var left, right := a + "_" + b, c + "_" + d;
    assert left[..|a|] == a && right[..|c|] == c;
    assert left[|a| + 1..] == b && right[|c| + 1..] == d;
  }

  // Hexadecimal rendering, as hex::encode prints a digest

  type Byte = b: nat | b < 256

  function HexDigit(d: nat): char
    requires d < 16
  {
    "0123456789abcdef"[d]
  }

  function Hex(bytes: seq<Byte>): (text: string)
    ensures |text| == 2 * |bytes|
  {
    if bytes == [] then "" else [HexDigit(bytes[0] / 16), HexDigit(bytes[0] % 16)] + Hex(bytes[1..])
  }

  predicate LowercaseHex(c: char) {
    'a' <= c <= 'f' || '0' <= c <= '9'
  }

  predicate AllHex(text: string) {
    forall i :: 0 <= i < |text| ==> LowercaseHex(text[i])
  }

  lemma HexDigitOf(c: char) returns (d: nat)
    requires LowercaseHex(c)
    ensures d < 16 && HexDigit(d) == c
  {
    d := if '0' <= c <= '9' then (c - '0') as nat else 10 + (c - 'a') as nat;
  }

  lemma {:induction false} HexAt(bytes: seq<Byte>, i: nat)
    requires i < |bytes|
    ensures Hex(bytes)[2 * i] == HexDigit(bytes[i] / 16) && Hex(bytes)[2 * i + 1] == HexDigit(bytes[i] % 16)
  {
    if i > 0 {
      HexAt(bytes[1..], i - 1);
    }
  }

  lemma HexDigitsAreHex(d: nat)
    requires d < 16
    ensures LowercaseHex(HexDigit(d)) && (HexDigit(d) == '0' <==> d == 0)
  {
  }

  lemma HexPrintsHex(bytes: seq<Byte>)
    ensures AllHex(Hex(bytes))
  {
    var text := Hex(bytes);
    forall k | 0 <= k < |text|
      ensures LowercaseHex(text[k])
    {
      HexAt(bytes, k / 2);
      HexDigitsAreHex(bytes[k / 2] / 16);
      HexDigitsAreHex(bytes[k / 2] % 16);
      assert k == 2 * (k / 2) || k == 2 * (k / 2) + 1;
    }
  }

  lemma {:induction false} HexReadsBack(text: string) returns (bytes: seq<Byte>)
    requires AllHex(text) && |text| % 2 == 0
    ensures Hex(bytes) == text
  {
    if text == "" {
      bytes := [];
    } else {
      var high := HexDigitOf(text[0]);
      var low := HexDigitOf(text[1]);
      var rest := HexReadsBack(text[2..]);
      var first: Byte := 16 * high + low;
      bytes := [first] + rest;
      assert bytes[1..] == rest;
      assert first / 16 == high && first % 16 == low;
      assert text == [HexDigit(high), HexDigit(low)] + text[2..];
    }
  }

  /** A text is the print of so many bytes exactly when it has two lowercase hexadecimal digits for each. */
  lemma HexTexts(text: string, n: nat)
    ensures |text| == 2 * n && AllHex(text) <==> exists bytes: seq<Byte> :: |bytes| == n && Hex(bytes) == text
  {
    if |text| == 2 * n && AllHex(text) {
      var bytes := HexReadsBack(text);
      assert |bytes| == n && Hex(bytes) == text;
    }
    if exists bytes: seq<Byte> :: |bytes| == n && Hex(bytes) == text {
      var bytes: seq<Byte> :| |bytes| == n && Hex(bytes) == text;
      HexPrintsHex(bytes);
    }
  }
}
