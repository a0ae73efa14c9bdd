/** Relative paths as strings and as sequences of segments. */
module Paths {
  /** One character in front of a string, seen on its segments. */
  function Prepend(c: char, segments: seq<string>): seq<string>
    requires |segments| >= 1
  {
    if c == '/' then [""] + segments else [[c] + segments[0]] + segments[1..]
  }

  /** split("/") */
  function Split(s: string): (segments: seq<string>)
    ensures |segments| >= 1
  {
    if s == "" then [""] else Prepend(s[0], Split(s[1..]))
  }

  /** Segments are what lies between the slashes. */
  lemma {:induction false} SegmentsHoldNoSlash(s: string)
    ensures forall segment | segment in Split(s) :: '/' !in segment
  {
    if s != "" { SegmentsHoldNoSlash(s[1..]); }
  }

  /** join("/") */
  function Join(segments: seq<string>): string
    requires |segments| >= 1
  {
    if |segments| == 1 then segments[0] else segments[0] + "/" + Join(segments[1..])
  }

  lemma {:induction false} JoinSplit(s: string)
    ensures Join(Split(s)) == s
  {
    if s != "" {
      JoinSplit(s[1..]);
      var rest, all := Split(s[1..]), Split(s);
      assert s == [s[0]] + s[1..];
      if s[0] == '/' {
        assert all[1..] == rest;
      } else {
        assert all[1..] == rest[1..];
      }
    }
  }

  lemma PrependConcat(c: char, a: seq<string>, b: seq<string>)
    requires |a| >= 1
    ensures Prepend(c, a + b) == Prepend(c, a) + b
  {
    assert (a + b)[0] == a[0] && (a + b)[1..] == a[1..] + b;
    if c == '/' {
      assert [""] + (a + b) == ([""] + a) + b;
    } else {
      assert [[c] + a[0]] + (a[1..] + b) == ([[c] + a[0]] + a[1..]) + b;
    }
  }

  /** A separator between two strings separates their segments. */
  lemma {:induction false} SplitConcat(p: string, r: string)
    ensures Split(p + "/" + r) == Split(p) + Split(r)
  {
    var s := p + "/" + r;
    if p == "" {
      assert s[1..] == r;
      assert Split(s) == [""] + Split(r);
    } else {
      hide Prepend;
      SplitConcat(p[1..], r);
      assert s[0] == p[0] && s[1..] == p[1..] + "/" + r;
      PrependConcat(p[0], Split(p[1..]), Split(r));
    }
  }

  lemma {:induction false} JoinConcat(a: seq<string>, b: seq<string>)
    requires |a| >= 1 && |b| >= 1
    ensures Join(a + b) == Join(a) + "/" + Join(b)
  {
    if |a| == 1 {
      assert (a + b)[1..] == b;
    } else {
      assert (a + b)[1..] == a[1..] + b;
      JoinConcat(a[1..], b);
      assert a[0] + "/" + (Join(a[1..]) + "/" + Join(b)) == (a[0] + "/" + Join(a[1..])) + "/" + Join(b);
    }
  }

  /** containsPath */
  predicate ContainsPath(prefix: string, candidate: string) {
    candidate == prefix || prefix + "/" <= candidate
  }

  /** The test on strings is exactly containment of segment sequences: `a/b` contains
      `a/b/c`, but not `a/bc`. */
  lemma ContainsMeansSegments(prefix: string, candidate: string)
    ensures ContainsPath(prefix, candidate) <==> Split(prefix) <= Split(candidate)
  {
    var p, c := Split(prefix), Split(candidate);
    JoinSplit(prefix);
    JoinSplit(candidate);
    if ContainsPath(prefix, candidate) && candidate != prefix {
      var rest := candidate[|prefix| + 1..];
      assert candidate == prefix + "/" + rest;
      SplitConcat(prefix, rest);
    }
    if p <= c && |p| < |c| {
      var rest := c[|p|..];
      assert c == p + rest;
      JoinConcat(p, rest);
      assert candidate == prefix + "/" + Join(rest);
    } else if p <= c {
      assert p == c;
    }
  }

  lemma ContainsIsTransitive(a: string, b: string, c: string)
    requires ContainsPath(a, b) && ContainsPath(b, c)
    ensures ContainsPath(a, c)
  {
    ContainsMeansSegments(a, b);
    ContainsMeansSegments(b, c);
    ContainsMeansSegments(a, c);
  }
}
