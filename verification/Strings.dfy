/** Character classes and letter case, as the servers' regular expressions use them. */
module Strings {
  predicate IsAlphanumeric(c: char) {
    'A' <= c <= 'Z' || 'a' <= c <= 'z' || '0' <= c <= '9'
  }

  /** /^[A-Za-z0-9][A-Za-z0-9._:-]{0,199}$/ */
  predicate IsId(s: string) {
    && 1 <= |s| <= 200
    && IsAlphanumeric(s[0])
    && forall i | 0 <= i < |s| :: IsAlphanumeric(s[i]) || s[i] in "._:-"
  }

  /** /^[0-9a-f]{64}$/ */
  predicate IsLowerHash(s: string) {
    |s| == 64 && forall i | 0 <= i < |s| :: '0' <= s[i] <= '9' || 'a' <= s[i] <= 'f'
  }

  /** The length of a string as the servers count it, in UTF-16 code units. */
  function Utf16Length(s: string): (n: nat)
    ensures |s| <= n <= 2 * |s|
  {
    if s == "" then 0 else (if s[0] as int >= 0x1_0000 then 2 else 1) + Utf16Length(s[1..])
  }

  /** An identifier is as long as it looks. */
  lemma {:induction false} IdLength(s: string)
    requires forall i | 0 <= i < |s| :: IsAlphanumeric(s[i]) || s[i] in "._:-"
    ensures Utf16Length(s) == |s|
  {
    if s != "" {
      assert IsAlphanumeric(s[0]) || s[0] in "._:-";
      IdLength(s[1..]);
    }
  }

  function LowerChar(c: char): char {
    if 'A' <= c <= 'Z' then (c - 'A') + 'a' else c
  }

  /** toLowerCase, on the letters that identifiers and hashes may hold. */
  function Lower(s: string): (t: string)
    ensures |t| == |s| && forall i | 0 <= i < |s| :: t[i] == LowerChar(s[i])
  {
    seq(|s|, i requires 0 <= i < |s| => LowerChar(s[i]))
  }

  /** /^[a-fA-F0-9]{64}$/ */
  predicate IsHash(s: string) {
    IsLowerHash(Lower(s))
  }

  lemma LowerIdempotent(s: string)
    ensures Lower(Lower(s)) == Lower(s)
  {
  }

  lemma LowerHash(s: string)
    requires IsLowerHash(s)
    ensures Lower(s) == s
  {
  }

  // ----- the order in which the server sorts

  /** The UTF-16 code units of a string. */
  function Units(s: string): seq<int> {
    if s == "" then []
    else
      var n := s[0] as int;
      (if n < 0x1_0000 then [n] else [0xD800 + (n - 0x1_0000) / 0x400, 0xDC00 + (n - 0x1_0000) % 0x400]) + Units(s[1..])
  }

  /** The length of a string is the number of its code units. */
  lemma {:induction false} UnitsCount(s: string)
    ensures |Units(s)| == Utf16Length(s)
  {
    if s != "" { UnitsCount(s[1..]); }
  }

  /** Different strings have different code units. */
  lemma {:induction false} UnitsInjective(s: string, t: string)
    requires Units(s) == Units(t)
    ensures s == t
  {
    if s != "" && t != "" {
      var m, n := s[0] as int, t[0] as int;
      assert (m < 0x1_0000 <==> Units(s)[0] == m) && (n < 0x1_0000 <==> Units(t)[0] == n);
      if m >= 0x1_0000 && n >= 0x1_0000 {
        assert Units(s)[0] == 0xD800 + (m - 0x1_0000) / 0x400 && Units(s)[1] == 0xDC00 + (m - 0x1_0000) % 0x400;
        assert Units(t)[0] == 0xD800 + (n - 0x1_0000) / 0x400 && Units(t)[1] == 0xDC00 + (n - 0x1_0000) % 0x400;
      }
      assert m == n;
      UnitsTail(s);
      UnitsTail(t);
      UnitsInjective(s[1..], t[1..]);
      assert s == [s[0]] + s[1..] && t == [t[0]] + t[1..];
    }
  }

  lemma UnitsTail(s: string)
    requires s != ""
    ensures Units(s[1..]) == Units(s)[if s[0] as int < 0x1_0000 then 1 else 2..]
  {
  }

  /** The order of strings by their code units. */
  predicate AtMost(a: seq<int>, b: seq<int>) {
    a == [] || (b != [] && (a[0] < b[0] || (a[0] == b[0] && AtMost(a[1..], b[1..]))))
  }

  lemma {:induction false} AtMostTotal(a: seq<int>, b: seq<int>)
    ensures AtMost(a, b) || AtMost(b, a)
  {
    if a != [] && b != [] { AtMostTotal(a[1..], b[1..]); }
  }

  lemma {:induction false} AtMostAntisymmetric(a: seq<int>, b: seq<int>)
    requires AtMost(a, b) && AtMost(b, a)
    ensures a == b
  {
    if a != [] && b != [] {
      AtMostAntisymmetric(a[1..], b[1..]);
      assert a == [a[0]] + a[1..] && b == [b[0]] + b[1..];
    }
  }

  lemma {:induction false} AtMostTransitive(a: seq<int>, b: seq<int>, c: seq<int>)
    requires AtMost(a, b) && AtMost(b, c)
    ensures AtMost(a, c)
  {
    if a != [] && a[0] == b[0] == c[0] { AtMostTransitive(a[1..], b[1..], c[1..]); }
  }

  predicate InOrder(s: seq<string>) {
    forall i, j | 0 <= i < j < |s| :: AtMost(Units(s[i]), Units(s[j]))
  }

  function Inserted(x: string, s: seq<string>): (r: seq<string>)
    ensures multiset(r) == multiset(s) + multiset{x}
  {
    if s == [] then [x]
    else if AtMost(Units(x), Units(s[0])) then
      assert [x] + s == [x] + ([s[0]] + s[1..]);
      [x] + s
    else
      assert s == [s[0]] + s[1..];
      [s[0]] + Inserted(x, s[1..])
  }

  /** The strings in order, each as often as before. */
  function Sorted(s: seq<string>): (r: seq<string>)
    ensures multiset(r) == multiset(s)
  {
    if s == [] then []
    else
      assert s == [s[0]] + s[1..];
      Inserted(s[0], Sorted(s[1..]))
  }

  lemma {:induction false} InsertedInOrder(x: string, s: seq<string>)
    requires InOrder(s)
    ensures InOrder(Inserted(x, s))
  {
    hide AtMost, Units;
    if s != [] {
      if AtMost(Units(x), Units(s[0])) {
        forall j | 0 <= j < |s| ensures AtMost(Units(x), Units(s[j])) {
          if j > 0 { AtMostTransitive(Units(x), Units(s[0]), Units(s[j])); }
        }
      } else {
        AtMostTotal(Units(x), Units(s[0]));
        InsertedInOrder(x, s[1..]);
        var r := Inserted(x, s[1..]);
        forall j | 0 <= j < |r| ensures AtMost(Units(s[0]), Units(r[j])) {
          assert r[j] in multiset(r);
          assert r[j] == x || r[j] in s[1..];
        }
      }
    }
  }

  lemma {:induction false} SortedInOrder(s: seq<string>)
    ensures InOrder(Sorted(s))
  {
    if s != [] {
      SortedInOrder(s[1..]);
      InsertedInOrder(s[0], Sorted(s[1..]));
    }
  }
}
