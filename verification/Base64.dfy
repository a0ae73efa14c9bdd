/** The hand-written base64 codec of the draft import and export routes
    (RFC 4648, section 4). The two methods keep the server's loops; the functions
    below them say, group by group, what the loops compute. Shifts and masks are
    written as division, remainder and addition; ShiftsAreArithmetic shows
    that they are the same thing on bytes. */
module Base64 {
  import opened Numbers

  type sextet = x: int | 0 <= x < 64

  /** Bound on the archive the server accepts, in bytes. */
  const MAX_ARCHIVE_BYTES := 8 * 1024 * 1024
  const MAX_IMPORT_CHARS := (MAX_ARCHIVE_BYTES + 2) / 3 * 4

  /** The character of a sextet: `A`-`Z`, `a`-`z`, `0`-`9`, `+`, `/`, in that order. */
  function Symbol(i: sextet): char {
    if i < 26 then 'A' + i as char
    else if i < 52 then 'a' + (i - 26) as char
    else if i < 62 then '0' + (i - 52) as char
    else if i == 62 then '+' else '/'
  }

  predicate IsSymbol(c: char) {
    'A' <= c <= 'Z' || 'a' <= c <= 'z' || '0' <= c <= '9' || c == '+' || c == '/'
  }

  /** The position of a symbol in the alphabet. */
  function Index(c: char): sextet
    requires IsSymbol(c)
  {
    if 'A' <= c <= 'Z' then (c - 'A') as int
    else if 'a' <= c <= 'z' then (c - 'a') as int + 26
    else if '0' <= c <= '9' then (c - '0') as int + 52
    else if c == '+' then 62 else 63
  }

  lemma IndexOfSymbol(i: sextet)
    ensures IsSymbol(Symbol(i)) && Index(Symbol(i)) == i && Symbol(i) != '='
  {
  }

  lemma SymbolOfIndex(c: char)
    requires IsSymbol(c)
    ensures Symbol(Index(c)) == c
  {
  }

  /** On bytes, the server's shifts, masks and bitwise or are exactly the
      arithmetic used here, and a decoded byte never exceeds eight bits. */
  lemma ShiftsAreArithmetic(a: bv16, b: bv16, c: bv16, d: bv16)
    requires a < 256 && b < 256 && c < 256
    ensures a >> 2 == a / 4
    ensures ((a & 0x03) << 4) | (b >> 4) == a % 4 * 16 + b / 16
    ensures ((b & 0x0f) << 2) | (c >> 6) == b % 16 * 4 + c / 64
    ensures c & 0x3f == c % 64
    ensures a < 64 && b < 64 && c < 64 && d < 64 ==>
              && (a << 2) | (b >> 4) == a * 4 + b / 16 < 256
              && ((b & 0x0f) << 4) | (c >> 2) == b % 16 * 16 + c / 4 < 256
              && ((c & 0x03) << 6) | d == c % 4 * 64 + d < 256
  {
  }

  /** The four sextets of three bytes. */
  function Six1(a: byte): sextet { a / 4 }

  function Six2(a: byte, b: byte): sextet { a % 4 * 16 + b / 16 }

  function Six3(b: byte, c: byte): sextet { b % 16 * 4 + c / 64 }

  function Six4(c: byte): sextet { c % 64 }

  /** Three bytes and their four sextets are the digits of one number, to the bases 256 and 64. */
  lemma SameNumber(a: byte, b: byte, c: byte)
    ensures ((Six1(a) * 64 + Six2(a, b)) * 64 + Six3(b, c)) * 64 + Six4(c) == (a * 256 + b) * 256 + c
  {
    assert a == a / 4 * 4 + a % 4 && b == b / 16 * 16 + b % 16 && c == c / 64 * 64 + c % 64;
  }

  /** The three bytes of four sextets. */
  function Join1(a: sextet, b: sextet): byte { a * 4 + b / 16 }

  function Join2(b: sextet, c: sextet): byte { b % 16 * 16 + c / 4 }

  function Join3(c: sextet, d: sextet): byte { c % 4 * 64 + d }

  /** The four characters of one group of one to three bytes. */
  function GroupText(g: seq<byte>): (q: string)
    requires 1 <= |g| <= 3
    ensures |q| == 4
  {
    var a := g[0];
    var b := if |g| > 1 then g[1] else 0;
    var c := if |g| > 2 then g[2] else 0;
    [Symbol(Six1(a)),
     Symbol(Six2(a, b)),
     if |g| > 1 then Symbol(Six3(b, c)) else '=',
     if |g| > 2 then Symbol(Six4(c)) else '=']
  }

  /** The text of a byte sequence, three bytes at a time. */
  function Text(bytes: seq<byte>): string {
    if |bytes| == 0 then ""
    else if |bytes| <= 3 then GroupText(bytes)
    else GroupText(bytes[..3]) + Text(bytes[3..])
  }

  predicate IsFull(q: string) {
    |q| == 4 && forall k | 0 <= k < 4 :: IsSymbol(q[k])
  }

  /** Four symbols, or three and a padding character, or two and two. */
  predicate IsGroup(q: string) {
    |q| == 4 && IsSymbol(q[0]) && IsSymbol(q[1]) &&
    (if IsSymbol(q[2]) then IsSymbol(q[3]) || q[3] == '=' else q[2] == '=' && q[3] == '=')
  }

  function GroupBytes(q: string): (g: seq<byte>)
    requires IsGroup(q)
    ensures |g| == if q[2] == '=' then 1 else if q[3] == '=' then 2 else 3
  {
    var a, b := Index(q[0]), Index(q[1]);
    if q[2] == '=' then [Join1(a, b)]
    else
      var c := Index(q[2]);
      if q[3] == '=' then [Join1(a, b), Join2(b, c)]
      else [Join1(a, b), Join2(b, c), Join3(c, Index(q[3]))]
  }

  /** The bits of the last symbol that no byte uses are zero (RFC 4648, section 3.5). */
  predicate IsCanonicalGroup(q: string)
    requires IsGroup(q)
  {
    if q[2] == '=' then Index(q[1]) % 16 == 0 else q[3] == '=' ==> Index(q[2]) % 4 == 0
  }

  /** The strings matched by the server's regular expression: groups of four
      symbols, only the last of which may be padded. */
  predicate Shape(s: string) {
    s == "" || (|s| >= 4 && IsGroup(s[..4]) && (|s| > 4 ==> IsFull(s[..4])) && Shape(s[4..]))
  }

  /** The bytes a well-shaped text stands for. */
  function Bytes(s: string): seq<byte>
    requires Shape(s)
  {
    if s == "" then [] else GroupBytes(s[..4]) + Bytes(s[4..])
  }

  predicate Canonical(s: string)
    requires Shape(s)
  {
    s == "" || (IsCanonicalGroup(s[..4]) && Canonical(s[4..]))
  }

  function Padding(s: string): (p: nat) {
    if |s| >= 2 && s[|s| - 2..] == "==" then 2
    else if |s| >= 1 && s[|s| - 1..] == "=" then 1 else 0
  }

  /** Three bytes come back when their sextets are joined again. */
  lemma JoinSix(a: byte, b: byte, c: byte)
    ensures Join1(Six1(a), Six2(a, b)) == a
    ensures Join2(Six2(a, b), Six3(b, c)) == b
    ensures Join3(Six3(b, c), Six4(c)) == c
    ensures Six2(a, 0) % 16 == 0 && Six3(b, 0) % 4 == 0
  {
  }

  /** Four sextets come back when their bytes are split again; without the following byte
      the last one loses the bits that were in it. */
  lemma SixJoin(a: sextet, b: sextet, c: sextet, d: sextet)
    ensures Six1(Join1(a, b)) == a
    ensures Six2(Join1(a, b), Join2(b, c)) == b && Six2(Join1(a, b), 0) == b / 16 * 16
    ensures Six3(Join2(b, c), Join3(c, d)) == c && Six3(Join2(b, c), 0) == c / 4 * 4
    ensures Six4(Join3(c, d)) == d
  {
  }

  /** One group survives encoding and decoding. */
  lemma GroupDecodeEncode(g: seq<byte>)
    requires 1 <= |g| <= 3
    ensures var q := GroupText(g);
            IsGroup(q) && (IsFull(q) <==> |g| == 3) && IsCanonicalGroup(q) && GroupBytes(q) == g
  {
    hide Symbol, Index, Six1, Six2, Six3, Six4, Join1, Join2, Join3;
    var a := g[0];
    var b := if |g| > 1 then g[1] else 0;
    var c := if |g| > 2 then g[2] else 0;
    JoinSix(a, b, c);
    IndexOfSymbol(Six1(a));
    IndexOfSymbol(Six2(a, b));
    if |g| > 1 { IndexOfSymbol(Six3(b, c)); }
    if |g| > 2 { IndexOfSymbol(Six4(c)); }
  }

  /** One group survives decoding and encoding exactly when it is canonical. */
  lemma GroupEncodeDecode(q: string)
    requires IsGroup(q)
    ensures GroupText(GroupBytes(q)) == q <==> IsCanonicalGroup(q)
    ensures IsFull(q) <==> |GroupBytes(q)| == 3
  {
    hide Symbol, Index, Six1, Six2, Six3, Six4, Join1, Join2, Join3;
    var a, b := Index(q[0]), Index(q[1]);
    SymbolOfIndex(q[0]);
    SymbolOfIndex(q[1]);
    if q[2] == '=' {
      SixJoin(a, b, 0, 0);
      IndexOfSymbol(b / 16 * 16);
    } else {
      var c := Index(q[2]);
      SymbolOfIndex(q[2]);
      if q[3] == '=' {
        SixJoin(a, b, c, 0);
        IndexOfSymbol(c / 4 * 4);
      } else {
        SixJoin(a, b, c, Index(q[3]));
        SymbolOfIndex(q[3]);
      }
    }
  }

  lemma {:induction false} TextLength(bytes: seq<byte>)
    ensures |Text(bytes)| == 4 * ((|bytes| + 2) / 3)
  {
    hide Symbol;
    if |bytes| > 3 { TextLength(bytes[3..]); }
  }

  lemma PaddingOfTail(s: string)
    requires |s| >= 6
    ensures Padding(s) == Padding(s[4..])
  {
    assert s[|s| - 2..] == s[4..][|s| - 6..];
    assert s[|s| - 1..] == s[4..][|s| - 5..];
  }

  lemma PaddingOfGroup(q: string)
    requires IsGroup(q)
    ensures |GroupBytes(q)| == 3 - Padding(q)
  {
    hide GroupBytes;
    assert q[2..] == [q[2], q[3]] && q[3..] == [q[3]];
  }

  lemma {:induction false} BytesLength(s: string)
    requires Shape(s)
    ensures |s| % 4 == 0
    ensures |Bytes(s)| == |s| / 4 * 3 - Padding(s)
  {
    hide Padding, GroupBytes, IsGroup, IsFull;
    if |s| > 4 {
      FullGroup(s[..4]);
      BytesLength(s[4..]);
      PaddingOfTail(s);
    } else if s != "" {
      assert s[..4] == s && s[4..] == "";
      PaddingOfGroup(s);
    } else {
      assert Padding(s) == 0 by { NoPadding(); }
    }
  }

  lemma FullGroup(q: string)
    requires IsFull(q)
    ensures IsGroup(q) && |GroupBytes(q)| == 3
  {
    hide GroupBytes;
  }

  lemma NoPadding()
    ensures Padding("") == 0
  {
  }

  /** Decoding an encoding gives the bytes back, and the text is canonical. */
  lemma {:induction false} DecodeEncode(bytes: seq<byte>)
    ensures Shape(Text(bytes)) && Canonical(Text(bytes)) && Bytes(Text(bytes)) == bytes
  {
    var t := Text(bytes);
    if 0 < |bytes| <= 3 {
      GroupDecodeEncode(bytes);
      assert t[..4] == t && t[4..] == "";
    } else if |bytes| > 3 {
      GroupDecodeEncode(bytes[..3]);
      DecodeEncode(bytes[3..]);
      assert t[..4] == GroupText(bytes[..3]) && t[4..] == Text(bytes[3..]);
    }
  }

  /** Encoding a decoding gives the text back exactly when its trailing bits are zero. */
  lemma {:induction false} EncodeDecode(s: string)
    requires Shape(s)
    ensures Text(Bytes(s)) == s <==> Canonical(s)
  {
    if s != "" {
      var q, rest := s[..4], s[4..];
      var bytes := Bytes(s);
      GroupEncodeDecode(q);
      EncodeDecode(rest);
      assert s == q + rest;
      if rest == "" {
        assert bytes == GroupBytes(q);
      } else {
        assert Bytes(rest) != [];
        assert bytes[..3] == GroupBytes(q) && bytes[3..] == Bytes(rest);
        assert Text(bytes) == GroupText(GroupBytes(q)) + Text(Bytes(rest));
        assert Text(bytes)[..4] == GroupText(GroupBytes(q)) && Text(bytes)[4..] == Text(Bytes(rest));
      }
    }
  }

  /** Two canonical texts of the same bytes are the same text. */
  lemma CanonicalIsUnique(s: string, t: string)
    requires Shape(s) && Shape(t) && Canonical(s) && Canonical(t)
    requires Bytes(s) == Bytes(t)
    ensures s == t
  {
    EncodeDecode(s);
    EncodeDecode(t);
  }

  lemma TextStep(bytes: seq<byte>)
    ensures bytes == [] ==> Text(bytes) == ""
    ensures bytes != [] ==>
              var n := if |bytes| <= 3 then |bytes| else 3;
              Text(bytes) == GroupText(bytes[..n]) + Text(bytes[n..])
  {
    if 0 < |bytes| <= 3 { assert bytes[..|bytes|] == bytes && bytes[|bytes|..] == []; }
  }

  /** base64: builds the text three bytes at a time. */
  method Encode(bytes: array<byte>) returns (output: string)
    ensures output == Text(bytes[..])
    ensures |output| == 4 * ((bytes.Length + 2) / 3)
    ensures bytes.Length <= MAX_ARCHIVE_BYTES ==> |output| <= MAX_IMPORT_CHARS
  {
    hide Symbol, Six1, Six2, Six3, Six4, Text;
    output := "";
    var index := 0;
    ghost var rest := bytes[..];
    while index < bytes.Length
      invariant 0 <= index
      invariant rest == bytes[if index <= bytes.Length then index else bytes.Length..]
      invariant output + Text(rest) == Text(bytes[..])
    {
      TextStep(rest);
      ghost var n := if |rest| <= 3 then |rest| else 3;
      var a := bytes[index];
      var b := if index + 1 < bytes.Length then bytes[index + 1] else 0;
      var c := if index + 2 < bytes.Length then bytes[index + 2] else 0;
      ghost var before := output;
      output := output + [Symbol(Six1(a))];
      output := output + [Symbol(Six2(a, b))];
      output := output + [if index + 1 < bytes.Length then Symbol(Six3(b, c)) else '='];
      output := output + [if index + 2 < bytes.Length then Symbol(Six4(c)) else '='];
      assert output == before + GroupText(rest[..n]) by { assert rest[0] == a; }
      index := index + 3;
      rest := rest[n..];
    }
    TextStep(rest);
    TextLength(bytes[..]);
  }

  lemma BytesStep(value: string, index: nat)
    requires index < |value| && Shape(value[index..])
    ensures index + 4 <= |value| && IsGroup(value[index..index + 4]) && Shape(value[index + 4..])
    ensures Bytes(value[index..]) == GroupBytes(value[index..index + 4]) + Bytes(value[index + 4..])
    ensures |GroupBytes(value[index..index + 4])| == 3 || Bytes(value[index + 4..]) == []
  {
    var rest := value[index..];
    assert value[index..index + 4] == rest[..4] && value[index + 4..] == rest[4..];
    GroupEncodeDecode(rest[..4]);
  }

  lemma BytesEmpty(s: string)
    ensures s == "" ==> Shape(s) && Bytes(s) == []
  {
  }

  /** Writes `g`, up to three bytes long, at the cursor: the server's three guarded stores. */
  method Store(output: array<byte>, cursor: nat, a: sextet, b: sextet, c: sextet, d: sextet, ghost g: seq<byte>)
    returns (next: nat)
    requires 1 <= |g| <= 3 && cursor + |g| <= output.Length
    requires |g| < 3 ==> cursor + |g| == output.Length
    requires g[0] == Join1(a, b)
    requires |g| > 1 ==> g[1] == Join2(b, c)
    requires |g| > 2 ==> g[2] == Join3(c, d)
    modifies output
    ensures next == cursor + |g|
    ensures output[..next] == old(output[..cursor]) + g
  {
    next := cursor;
    if next < output.Length { output[next] := Join1(a, b); next := next + 1; }
    if next < output.Length { output[next] := Join2(b, c); next := next + 1; }
    if next < output.Length { output[next] := Join3(c, d); next := next + 1; }
  }

  /** decodeBase64: null unless the text has the shape the regular expression asks
      for; otherwise an array filled by a cursor that stops at its end. */
  method Decode(value: string) returns (output: array?<byte>)
    ensures output == null <==> !(|value| >= 4 && Shape(value))
    ensures output != null ==> fresh(output) && output[..] == Bytes(value)
  {
    hide Symbol, Index, Shape, Bytes, Padding;
    if Shape(value) { BytesLength(value); }
    if |value| < 4 || |value| % 4 != 0 || !Shape(value) {
      return null;
    }
    var bytes := new byte[|value| / 4 * 3 - Padding(value)];
    var cursor := 0;
    var index := 0;
    ghost var done: seq<byte> := [];
    while index < |value|
      invariant 0 <= index <= |value|
      invariant 0 <= cursor <= bytes.Length
      invariant Shape(value[index..])
      invariant bytes[..cursor] == done
      invariant done + Bytes(value[index..]) == Bytes(value)
    {
      BytesStep(value, index);
      var q := value[index..index + 4];
      ghost var group := GroupBytes(q);
      assert bytes.Length - cursor == |group| + |Bytes(value[index + 4..])|;
      var c := if q[2] == '=' then 0 else Index(q[2]);
      var d := if q[3] == '=' then 0 else Index(q[3]);
      cursor := Store(bytes, cursor, Index(q[0]), Index(q[1]), c, d, group);
      index := index + 4;
      done := done + group;
    }
    BytesEmpty(value[index..]);
    assert bytes[..cursor] == bytes[..];
    output := bytes;
  }
}
