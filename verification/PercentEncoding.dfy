/** encodeURIComponent on well-formed strings, and keys made of encoded parts joined by
    a vertical bar. A character is a Unicode scalar value, encoded in UTF-8. */
module PercentEncoding {
  import opened Numbers

  predicate IsUnreserved(c: char) {
    'A' <= c <= 'Z' || 'a' <= c <= 'z' || '0' <= c <= '9' || c in "-_.!~*'()"
  }

  function Hex(n: int): char
    requires 0 <= n < 16
  {
    if n < 10 then '0' + n as char else 'A' + (n - 10) as char
  }

  function Utf8(c: char): (bytes: seq<byte>)
    ensures 1 <= |bytes| <= 4
  {
    var n := c as int;
    if n < 0x80 then [n]
    else if n < 0x800 then [0xC0 + n / 64, 0x80 + n % 64]
    else if n < 0x1_0000 then [0xE0 + n / 4096, 0x80 + n / 64 % 64, 0x80 + n % 64]
    else [0xF0 + n / 262144, 0x80 + n / 4096 % 64, 0x80 + n / 64 % 64, 0x80 + n % 64]
  }

  function Escaped(bytes: seq<byte>): (s: string)
    ensures |s| == 3 * |bytes|
  {
    if bytes == [] then "" else ['%', Hex(bytes[0] / 16), Hex(bytes[0] % 16)] + Escaped(bytes[1..])
  }

  function EncodeChar(c: char): (s: string)
    ensures |s| >= 1
  {
    if IsUnreserved(c) then [c] else Escaped(Utf8(c))
  }

  function Encode(s: string): string {
    if s == "" then "" else EncodeChar(s[0]) + Encode(s[1..])
  }

  const HEX_DIGITS := "0123456789ABCDEF"

  lemma HexDigit(n: int)
    requires 0 <= n < 16
    ensures Hex(n) == HEX_DIGITS[n]
  {
  }

  /** Every byte of an escaped character is a percent sign and two hexadecimal digits in
      upper case. */
  lemma {:induction false} EscapedByte(bytes: seq<byte>, k: nat)
    requires k < |bytes|
    ensures Escaped(bytes)[3 * k..3 * k + 3]
        == ['%', HEX_DIGITS[bytes[k] / 16], HEX_DIGITS[bytes[k] % 16]]
  {
    hide Hex;
    if k == 0 {
      HexDigit(bytes[0] / 16);
      HexDigit(bytes[0] % 16);
    } else {
      EscapedByte(bytes[1..], k - 1);
      var rest := Escaped(bytes[1..]);
      assert Escaped(bytes)[3 * k..3 * k + 3] == rest[3 * (k - 1)..3 * (k - 1) + 3];
    }
  }

  /** Unreserved characters stand for themselves. */
  lemma {:induction false} PlainIsUnchanged(s: string)
    ensures Encode(s) == s <==> forall c | c in s :: IsUnreserved(c)
    ensures |Encode(s)| >= |s| && (|Encode(s)| == |s| ==> Encode(s) == s)
  {
    if s != "" {
      PlainIsUnchanged(s[1..]);
      assert s == [s[0]] + s[1..];
    }
  }

  // ----- encodings are injective

  lemma HexInjective(m: int, n: int)
    requires 0 <= m < 16 && 0 <= n < 16 && Hex(m) == Hex(n)
    ensures m == n
  {
  }

  /** The number that UTF-8 bytes stand for. */
  function CodePoint(b: seq<byte>): int
    requires 1 <= |b| <= 4
  {
    if |b| == 1 then b[0]
    else if |b| == 2 then (b[0] as int - 0xC0) * 64 + (b[1] as int - 0x80)
    else if |b| == 3 then (b[0] as int - 0xE0) * 4096 + (b[1] as int - 0x80) * 64 + (b[2] as int - 0x80)
    else (b[0] as int - 0xF0) * 262144 + (b[1] as int - 0x80) * 4096 + (b[2] as int - 0x80) * 64 + (b[3] as int - 0x80)
  }

  lemma SixBits(n: int)
    requires n >= 0
    ensures n == n / 64 * 64 + n % 64 && n / 64 == n / 4096 * 64 + n / 64 % 64
        && n / 4096 == n / 262144 * 64 + n / 4096 % 64
  {
    assert n / 64 / 64 == n / 4096;
    assert n / 4096 / 64 == n / 262144;
  }

  lemma Utf8Decodes(c: char)
    ensures CodePoint(Utf8(c)) == c as int
  {
    SixBits(c as int);
  }

  /** The first byte of a character tells how many bytes follow, and the bytes tell the character. */
  lemma Utf8Injective(c: char, d: char)
    requires Utf8(c)[0] == Utf8(d)[0]
    ensures |Utf8(c)| == |Utf8(d)|
    ensures Utf8(c) == Utf8(d) ==> c == d
  {
    Utf8Decodes(c);
    Utf8Decodes(d);
    SameLength(c, d);
  }

  lemma SameLength(c: char, d: char)
    requires Utf8(c)[0] == Utf8(d)[0]
    ensures |Utf8(c)| == |Utf8(d)|
  {
    FirstByte(c);
    FirstByte(d);
  }

  lemma FirstByte(c: char)
    ensures var b := Utf8(c)[0];
            |Utf8(c)| == if b < 0x80 then 1 else if b < 0xE0 then 2 else if b < 0xF0 then 3 else 4
  {
    SixBits(c as int);
  }

  lemma {:induction false} EscapedInjective(a: seq<byte>, b: seq<byte>, x: string, y: string)
    requires |a| == |b| && Escaped(a) + x == Escaped(b) + y
    ensures a == b && x == y
  {
    var s, t := Escaped(a) + x, Escaped(b) + y;
    if a == [] {
      assert s == x && t == y;
    } else {
      assert s[1] == Hex(a[0] / 16) && s[2] == Hex(a[0] % 16);
      assert t[1] == Hex(b[0] / 16) && t[2] == Hex(b[0] % 16);
      HexInjective(a[0] / 16, b[0] / 16);
      HexInjective(a[0] % 16, b[0] % 16);
      assert s[3..] == Escaped(a[1..]) + x && t[3..] == Escaped(b[1..]) + y;
      EscapedInjective(a[1..], b[1..], x, y);
      assert a == [a[0]] + a[1..] && b == [b[0]] + b[1..];
    }
  }

  /** No encoded character is a proper prefix of another. */
  lemma CharPrefixFree(c: char, d: char, x: string, y: string)
    requires EncodeChar(c) + x == EncodeChar(d) + y
    ensures c == d && x == y
  {
    hide Utf8, Hex;
    var s, t := EncodeChar(c) + x, EncodeChar(d) + y;
    assert s[0] == (if IsUnreserved(c) then c else '%');
    assert t[0] == (if IsUnreserved(d) then d else '%');
    if IsUnreserved(c) {
      assert x == s[1..] && y == t[1..];
    } else {
      var a, b := Utf8(c), Utf8(d);
      assert s[1] == Hex(a[0] / 16) && s[2] == Hex(a[0] % 16);
      assert t[1] == Hex(b[0] / 16) && t[2] == Hex(b[0] % 16);
      HexInjective(a[0] / 16, b[0] / 16);
      HexInjective(a[0] % 16, b[0] % 16);
      Utf8Injective(c, d);
      EscapedInjective(a, b, x, y);
    }
  }

  lemma {:induction false} EncodeInjective(s: string, t: string)
    requires Encode(s) == Encode(t)
    ensures s == t
  {
    hide EncodeChar;
    if s == "" || t == "" {
      assert s != "" ==> |Encode(s)| >= 1;
      assert t != "" ==> |Encode(t)| >= 1;
    } else {
      CharPrefixFree(s[0], t[0], Encode(s[1..]), Encode(t[1..]));
      EncodeInjective(s[1..], t[1..]);
      assert s == [s[0]] + s[1..] && t == [t[0]] + t[1..];
    }
  }

  // ----- joined keys

  lemma {:induction false} EscapedHasNoBar(bytes: seq<byte>)
    ensures '|' !in Escaped(bytes)
  {
    if bytes != [] { EscapedHasNoBar(bytes[1..]); }
  }

  lemma {:induction false} EncodeHasNoBar(s: string)
    ensures '|' !in Encode(s)
  {
    if s != "" {
      EscapedHasNoBar(Utf8(s[0]));
      EncodeHasNoBar(s[1..]);
    }
  }

  lemma FirstBar(a: string, b: string, x: string, y: string)
    requires '|' !in a && '|' !in b && a + "|" + x == b + "|" + y
    ensures a == b && x == y
  {
    var s, t := a + "|" + x, b + "|" + y;
    assert s[|a|] == '|' && forall i | 0 <= i < |a| :: s[i] == a[i] != '|';
    assert t[|b|] == '|' && forall i | 0 <= i < |b| :: t[i] == b[i] != '|';
    assert |a| == |b|;
    assert a == s[..|a|] && x == s[|a| + 1..];
    assert b == t[..|b|] && y == t[|b| + 1..];
  }

  /** The encoded parts of a key, joined by bars. */
  function Joined(parts: seq<string>): string
    requires parts != []
  {
    if |parts| == 1 then Encode(parts[0]) else Encode(parts[0]) + "|" + Joined(parts[1..])
  }

  lemma {:induction false} JoinedBars(parts: seq<string>)
    requires |parts| > 1
    ensures '|' in Joined(parts)
  {
    assert Joined(parts)[|Encode(parts[0])|] == '|';
  }

  /** A joined key followed by a bar starts another joined key exactly when its parts are
      the first ones of the other's. */
  lemma {:induction false} JoinedPrefix(a: seq<string>, b: seq<string>)
    requires a != [] && b != []
    ensures Joined(a) + "|" <= Joined(b) <==> a < b
    decreases |a|
  {
    hide Encode;
    EncodeHasNoBar(a[0]);
    EncodeHasNoBar(b[0]);
    if |b| == 1 {
      assert (Joined(a) + "|")[|Joined(a)|] == '|';
    } else {
      var rest := Encode(b[0]) + "|" + Joined(b[1..]);
      var x := if |a| == 1 then "" else Joined(a[1..]) + "|";
      assert Joined(a) + "|" == Encode(a[0]) + "|" + x;
      if Joined(a) + "|" <= Joined(b) {
        FirstBar(Encode(a[0]), Encode(b[0]), x + rest[|Joined(a)| + 1..], Joined(b[1..]));
        EncodeInjective(a[0], b[0]);
      }
      if a[0] == b[0] {
        assert Joined(a) + "|" <= Joined(b) <==> x <= Joined(b[1..]);
        if |a| > 1 { JoinedPrefix(a[1..], b[1..]); }
        assert a == [a[0]] + a[1..] && b == [b[0]] + b[1..];
      }
    }
  }

  /** A joined key tells its parts. */
  lemma {:induction false} JoinedInjective(a: seq<string>, b: seq<string>)
    requires a != [] && b != [] && Joined(a) == Joined(b)
    ensures a == b
    decreases |a|
  {
    hide Encode;
    EncodeHasNoBar(a[0]);
    EncodeHasNoBar(b[0]);
    if |a| > 1 { JoinedBars(a); }
    if |b| > 1 { JoinedBars(b); }
    if |a| == 1 {
      EncodeInjective(a[0], b[0]);
    } else {
      FirstBar(Encode(a[0]), Encode(b[0]), Joined(a[1..]), Joined(b[1..]));
      EncodeInjective(a[0], b[0]);
      JoinedInjective(a[1..], b[1..]);
      assert a == [a[0]] + a[1..] && b == [b[0]] + b[1..];
    }
  }
}
