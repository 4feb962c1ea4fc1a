/** bytes.TrimSpace: what it takes off both ends, against the white space of Unicode. */
module SpaceTrimming {
  import opened Prelude
  import opened JsonGrammar

  predicate IsSpace1(a: byte) {
    0x09 <= a <= 0x0D || a == 0x20
  }

  predicate IsSpace2(a: byte, b: byte) {
    a == 0xC2 && (b == 0x85 || b == 0xA0)
  }

  predicate IsSpace3(a: byte, b: byte, c: byte) {
    || (a == 0xE1 && b == 0x9A && c == 0x80)
    || (a == 0xE2 && b == 0x80 && (0x80 <= c <= 0x8A || c == 0xA8 || c == 0xA9 || c == 0xAF))
    || (a == 0xE2 && b == 0x81 && c == 0x9F)
    || (a == 0xE3 && b == 0x80 && c == 0x80)
  }

  /** The length of the white-space rune `s` begins with, or 0. */
  function LeadingRune(s: bytes): (n: nat)
    ensures n <= |s|
  {
    if |s| >= 1 && IsSpace1(s[0]) then 1
    else if |s| >= 2 && IsSpace2(s[0], s[1]) then 2
    else if |s| >= 3 && IsSpace3(s[0], s[1], s[2]) then 3
    else 0
  }

  /** The length of the white-space rune `s` ends with, or 0. */
  function TrailingRune(s: bytes): (n: nat)
    ensures n <= |s|
  {
    var e := |s|;
    if e >= 1 && IsSpace1(s[e - 1]) then 1
    else if e >= 2 && IsSpace2(s[e - 2], s[e - 1]) then 2
    else if e >= 3 && IsSpace3(s[e - 3], s[e - 2], s[e - 1]) then 3
    else 0
  }

  function LeadingSpace(s: bytes): (n: nat)
    ensures n <= |s|
    decreases |s|
  {
    var k := LeadingRune(s);
    if k == 0 then 0 else k + LeadingSpace(s[k..])
  }

  function TrailingSpace(s: bytes): (n: nat)
    ensures n <= |s|
    decreases |s|
  {
    var k := TrailingRune(s);
    if k == 0 then 0 else k + TrailingSpace(s[..|s| - k])
  }

  function Lead(s: bytes): bytes {
    s[..LeadingSpace(s)]
  }

  function Trail(s: bytes): bytes {
    var rest := s[LeadingSpace(s)..];
    rest[|rest| - TrailingSpace(rest)..]
  }

  function TrimSpace(s: bytes): bytes {
    var rest := s[LeadingSpace(s)..];
    rest[..|rest| - TrailingSpace(rest)]
  }

  /** Every byte of a white-space rune: none is a quote, and outside a string JSON allows only its own four. */
  predicate IsSpaceByte(b: byte) {
    IsWs(b) || b == 0x0B || b == 0x0C || b >= 0x80
  }

  predicate AllSpace(s: bytes) {
    forall i :: 0 <= i < |s| ==> IsSpaceByte(s[i])
  }

  lemma RuneBytes(s: bytes)
    ensures AllSpace(s[..LeadingRune(s)]) && AllSpace(s[|s| - TrailingRune(s)..])
    ensures LeadingRune(s) == 0 && s != [] ==> !IsWs(s[0])
  {
  }

  lemma {:induction false} LeadingSpaceBytes(s: bytes)
    ensures AllSpace(s[..LeadingSpace(s)])
    ensures LeadingRune(s[LeadingSpace(s)..]) == 0
    decreases |s|
  {
    hide LeadingRune, TrailingRune;
    var k := LeadingRune(s);
    RuneBytes(s);
    if k > 0 {
      LeadingSpaceBytes(s[k..]);
      var n := LeadingSpace(s[k..]);
      assert s[..k + n] == s[..k] + s[k..][..n];
      assert s[k + n..] == s[k..][n..];
    } else {
      assert s[0..] == s;
    }
  }

  lemma {:induction false} TrailingSpaceBytes(s: bytes)
    ensures AllSpace(s[|s| - TrailingSpace(s)..])
    decreases |s|
  {
    hide LeadingRune, TrailingRune;
    var k := TrailingRune(s);
    RuneBytes(s);
    if k > 0 {
      var s' := s[..|s| - k];
      TrailingSpaceBytes(s');
      var n := TrailingSpace(s');
      assert s[|s| - k - n..] == s'[|s'| - n..] + s[|s| - k..];
    }
  }

  lemma Reassociate(a: bytes, b: bytes, c: bytes)
    ensures a + (b + c) == a + b + c
  {
  }

  /** Trimming takes white space off both ends, and what is left does not begin with any JSON white space. */
  lemma TrimSpaceParts(s: bytes)
    ensures s == Lead(s) + TrimSpace(s) + Trail(s)
    ensures AllSpace(Lead(s)) && AllSpace(Trail(s))
    ensures TrimSpace(s) != [] ==> !IsWs(TrimSpace(s)[0])
  {
    hide LeadingSpace, TrailingSpace, LeadingRune, TrailingRune, IsSpaceByte, IsWs;
    LeadingSpaceBytes(s);
    var n := LeadingSpace(s);
    var rest := s[n..];
    TrailingSpaceBytes(rest);
    var m := |rest| - TrailingSpace(rest);
    assert rest == rest[..m] + rest[m..];
    assert s == s[..n] + rest;
    Reassociate(s[..n], rest[..m], rest[m..]);
    if m > 0 {
      RuneBytes(rest);
    }
  }

  // ---------- against Unicode ----------

  /** The code points that unicode.IsSpace accepts. */
  predicate IsSpacePoint(c: nat) {
    || 0x09 <= c <= 0x0D || c == 0x20 || c == 0x85 || c == 0xA0 || c == 0x1680 || 0x2000 <= c <= 0x200A
    || c == 0x2028 || c == 0x2029 || c == 0x202F || c == 0x205F || c == 0x3000
  }

  /** The UTF-8 of a code point (section 3 of RFC 3629). */
  function Utf8(c: nat): bytes
    requires c < 0x1_0000
  {
    if c < 0x80 then [c as byte]
    else if c < 0x800 then [(0xC0 + c / 0x40) as byte, (0x80 + c % 0x40) as byte]
    else [(0xE0 + c / 0x1000) as byte, (0x80 + c / 0x40 % 0x40) as byte, (0x80 + c % 0x40) as byte]
  }

  ghost predicate IsSpaceRune(r: bytes) {
    exists c: nat :: c < 0x1_0000 && IsSpacePoint(c) && Utf8(c) == r
  }

  predicate IsSpaceBytes(r: bytes) {
    || (|r| == 1 && IsSpace1(r[0]))
    || (|r| == 2 && IsSpace2(r[0], r[1]))
    || (|r| == 3 && IsSpace3(r[0], r[1], r[2]))
  }

  lemma PointBytes(c: nat)
    requires c < 0x1_0000 && IsSpacePoint(c)
    ensures IsSpaceBytes(Utf8(c))
  {
    if 0x2000 <= c < 0x2040 {
      assert c / 0x1000 == 2 && c / 0x40 == 0x80 && c % 0x40 == c - 0x2000;
    }
  }

  lemma SpaceRuneExactly(r: bytes)
    ensures IsSpaceRune(r) <==> IsSpaceBytes(r)
  {
    if IsSpaceRune(r) {
      var c: nat :| c < 0x1_0000 && IsSpacePoint(c) && Utf8(c) == r;
      PointBytes(c);
    }
    if IsSpaceBytes(r) {
      var c := PointOf(r);
      assert Utf8(c) == r;
    }
  }

  lemma PointOf(r: bytes) returns (c: nat)
    requires IsSpaceBytes(r)
    ensures c < 0x1_0000 && IsSpacePoint(c) && Utf8(c) == r
  {
    if |r| == 1 {
      c := r[0] as nat;
    } else if |r| == 2 {
      c := r[1] as nat;
      assert c / 0x40 == 2 && c % 0x40 == c - 0x80;
    } else {
      var low := r[2] as nat - 0x80;
      c := 0x1000 * (r[0] as nat - 0xE0) + 0x40 * (r[1] as nat - 0x80) + low;
      SplitPoint(r[0] as nat - 0xE0, r[1] as nat - 0x80, low);
    }
  }

  lemma SplitPoint(hi: nat, mid: nat, low: nat)
    requires mid < 0x40 && low < 0x40
    ensures var c := 0x1000 * hi + 0x40 * mid + low;
      c / 0x1000 == hi && c / 0x40 % 0x40 == mid && c % 0x40 == low
  {
    var c := 0x1000 * hi + 0x40 * mid + low;
    assert c / 0x40 == 0x40 * hi + mid;
  }

  /** Nothing but white space, rune after rune. */
  ghost predicate SpaceText(s: bytes)
    decreases |s|
  {
    s == [] || exists n :: 1 <= n <= |s| && IsSpaceRune(s[..n]) && SpaceText(s[n..])
  }

  ghost predicate BeginsWithSpace(s: bytes) {
    exists n :: 0 <= n <= |s| && IsSpaceRune(s[..n])
  }

  ghost predicate EndsWithSpace(s: bytes) {
    exists n :: 0 <= n <= |s| && IsSpaceRune(s[n..])
  }

  lemma LeadingRuneExactly(s: bytes)
    ensures LeadingRune(s) > 0 ==> IsSpaceRune(s[..LeadingRune(s)])
    ensures LeadingRune(s) > 0 <==> BeginsWithSpace(s)
  {
    SpaceRuneExactly(s[..LeadingRune(s)]);
    if BeginsWithSpace(s) {
      var n :| 0 <= n <= |s| && IsSpaceRune(s[..n]);
      SpaceRuneExactly(s[..n]);
    }
  }

  lemma TrailingRuneExactly(s: bytes)
    ensures TrailingRune(s) > 0 ==> IsSpaceRune(s[|s| - TrailingRune(s)..])
    ensures TrailingRune(s) > 0 <==> EndsWithSpace(s)
  {
    SpaceRuneExactly(s[|s| - TrailingRune(s)..]);
    if EndsWithSpace(s) {
      var n :| 0 <= n <= |s| && IsSpaceRune(s[n..]);
      SpaceRuneExactly(s[n..]);
    }
  }

  lemma SpaceTextCons(r: bytes, s: bytes)
    requires IsSpaceRune(r) && SpaceText(s)
    ensures SpaceText(r + s)
  {
    SpaceRuneExactly(r);
    assert (r + s)[..|r|] == r && (r + s)[|r|..] == s;
  }

  lemma {:induction false} SpaceTextSnoc(s: bytes, r: bytes)
    requires IsSpaceRune(r) && SpaceText(s)
    ensures SpaceText(s + r)
    decreases |s|
  {
    hide IsSpaceRune;
    if s == [] {
      NoSpace();
      SpaceTextCons(r, []);
      assert r + [] == r && s + r == r;
    } else {
      var n :| 1 <= n <= |s| && IsSpaceRune(s[..n]) && SpaceText(s[n..]);
      SpaceTextSnoc(s[n..], r);
      SpaceTextCons(s[..n], s[n..] + r);
      assert s[..n] + (s[n..] + r) == s + r;
    }
  }

  lemma NoSpace()
    ensures SpaceText([])
  {
  }

  lemma CutAgain(s: bytes, k: nat, n: nat)
    requires k + n <= |s|
    ensures s[..k + n] == s[..k] + s[k..][..n] && s[k + n..] == s[k..][n..]
  {
  }

  lemma {:induction false} LeadIsSpace(s: bytes)
    ensures SpaceText(s[..LeadingSpace(s)]) && !BeginsWithSpace(s[LeadingSpace(s)..])
    decreases |s|
  {
    hide LeadingRune, IsSpaceRune, BeginsWithSpace, SpaceText;
    NoSpace();
    var k := LeadingRune(s);
    LeadingRuneExactly(s);
    if k > 0 {
      LeadIsSpace(s[k..]);
      var n := LeadingSpace(s[k..]);
      SpaceTextCons(s[..k], s[k..][..n]);
      CutAgain(s, k, n);
    } else {
      assert s[0..] == s;
    }
  }

  lemma {:induction false} TrailIsSpace(s: bytes)
    ensures SpaceText(s[|s| - TrailingSpace(s)..]) && !EndsWithSpace(s[..|s| - TrailingSpace(s)])
    decreases |s|
  {
    hide TrailingRune, IsSpaceRune, EndsWithSpace, SpaceText;
    NoSpace();
    var k := TrailingRune(s);
    TrailingRuneExactly(s);
    if k > 0 {
      var s' := s[..|s| - k];
      TrailIsSpace(s');
      var n := TrailingSpace(s');
      SpaceTextSnoc(s'[|s'| - n..], s[|s| - k..]);
      assert s[|s| - k - n..] == s'[|s'| - n..] + s[|s| - k..] && s[..|s| - k - n] == s'[..|s'| - n];
    } else {
      assert s[..|s|] == s && s[|s|..] == [];
    }
  }

  lemma PrefixBegins(s: bytes, n: nat)
    requires n <= |s| && BeginsWithSpace(s[..n])
    ensures BeginsWithSpace(s)
  {
    var k :| 0 <= k <= n && IsSpaceRune(s[..n][..k]);
    assert s[..n][..k] == s[..k];
  }

  /** Trimming cuts a text into white space, a part that neither begins nor ends with any, and white space. */
  lemma TrimSpaceExactly(s: bytes)
    ensures s == Lead(s) + TrimSpace(s) + Trail(s)
    ensures SpaceText(Lead(s)) && SpaceText(Trail(s))
    ensures !BeginsWithSpace(TrimSpace(s)) && !EndsWithSpace(TrimSpace(s))
  {
    hide BeginsWithSpace, EndsWithSpace, SpaceText, LeadingSpace, TrailingSpace;
    TrimSpaceParts(s);
    LeadIsSpace(s);
    var rest := s[LeadingSpace(s)..];
    TrailIsSpace(rest);
    if BeginsWithSpace(TrimSpace(s)) {
      PrefixBegins(rest, |rest| - TrailingSpace(rest));
    }
  }

  // ---------- there is only one way to trim ----------

  lemma LeadingRuneOf(r: bytes, s: bytes)
    requires IsSpaceRune(r)
    ensures LeadingRune(r + s) == |r| > 0
  {
    SpaceRuneExactly(r);
    hide IsSpaceRune;
    assert forall i :: 0 <= i < |r| ==> (r + s)[i] == r[i];
  }

  lemma TrailingRuneOf(s: bytes, r: bytes)
    requires IsSpaceRune(r)
    ensures TrailingRune(s + r) == |r| > 0
  {
    SpaceRuneExactly(r);
    hide IsSpaceRune;
    var e := |s + r|;
    if |r| == 1 {
      assert (s + r)[e - 1] == r[0];
    } else if |r| == 2 {
      assert (s + r)[e - 1] == r[1] && (s + r)[e - 2] == r[0];
    } else {
      assert (s + r)[e - 1] == r[2] && (s + r)[e - 2] == r[1] && (s + r)[e - 3] == r[0];
    }
  }

  lemma {:induction false} LeadingSpaceOf(a: bytes, s: bytes)
    requires SpaceText(a)
    ensures LeadingSpace(a + s) == |a| + LeadingSpace(s)
    decreases |a|
  {
    hide LeadingRune, IsSpaceRune;
    if a == [] {
      assert a + s == s;
    } else {
      var n :| 1 <= n <= |a| && IsSpaceRune(a[..n]) && SpaceText(a[n..]);
      LeadingSpaceOf(a[n..], s);
      LeadingRuneOf(a[..n], a[n..] + s);
      assert a + s == a[..n] + (a[n..] + s) && (a + s)[n..] == a[n..] + s;
    }
  }

  lemma {:induction false} LastRune(b: bytes) returns (n: nat)
    requires SpaceText(b) && b != []
    ensures n < |b| && SpaceText(b[..n]) && IsSpaceRune(b[n..])
    decreases |b|
  {
    hide IsSpaceRune;
    var k :| 1 <= k <= |b| && IsSpaceRune(b[..k]) && SpaceText(b[k..]);
    if k == |b| {
      n := 0;
      assert b[..k] == b && b[0..] == b && b[..0] == [];
    } else {
      var m := LastRune(b[k..]);
      n := k + m;
      SpaceTextCons(b[..k], b[k..][..m]);
      assert b[..k] + b[k..][..m] == b[..n] && b[k..][m..] == b[n..];
    }
  }

  lemma {:induction false} TrailingSpaceOf(s: bytes, b: bytes)
    requires SpaceText(b)
    ensures TrailingSpace(s + b) == TrailingSpace(s) + |b|
    decreases |b|
  {
    hide TrailingRune, IsSpaceRune, SpaceText;
    if b == [] {
      assert s + b == s;
    } else {
      var n := LastRune(b);
      TrailingSpaceOf(s, b[..n]);
      TrailingRuneOf(s + b[..n], b[n..]);
      assert s + b == s + b[..n] + b[n..] && (s + b)[..|s + b| - |b[n..]|] == s + b[..n];
    }
  }

  lemma FirstByte(b: bytes)
    requires b != [] && SpaceText(b)
    ensures b[0] < 0x80 || b[0] >= 0xC0
  {
    var n :| 1 <= n <= |b| && IsSpaceRune(b[..n]) && SpaceText(b[n..]);
    SpaceRuneExactly(b[..n]);
    assert b[..n][0] == b[0];
  }

  /** White space begins with no byte that could continue a rune. */
  lemma NotAcross(m: bytes, b: bytes)
    requires m != [] && !BeginsWithSpace(m) && SpaceText(b)
    ensures LeadingRune(m + b) == 0
  {
    LeadingRuneExactly(m);
    if b != [] {
      FirstByte(b);
      hide SpaceText, BeginsWithSpace, IsSpaceRune;
      assert (m + b)[|m|] == b[0];
    } else {
      assert m + b == m;
    }
  }

  /** Whatever the way a text is cut like that, trimming finds the middle. */
  lemma TrimSpaceUnique(a: bytes, m: bytes, b: bytes)
    requires SpaceText(a) && SpaceText(b) && !BeginsWithSpace(m) && !EndsWithSpace(m)
    requires m != []
    ensures TrimSpace(a + m + b) == m && Lead(a + m + b) == a && Trail(a + m + b) == b
  {
    hide SpaceText, LeadingRune, TrailingRune, BeginsWithSpace, EndsWithSpace;
    var s := a + m + b;
    Reassociate(a, m, b);
    LeadingSpaceOf(a, m + b);
    NotAcross(m, b);
    assert s[|a|..] == m + b;
    TrailingSpaceOf(m, b);
    TrailingRuneExactly(m);
    assert (m + b)[..|m|] == m && (m + b)[|m|..] == b && s[..|a|] == a;
  }

  lemma TrimSpaceOfSpace(s: bytes)
    ensures TrimSpace(s) == [] <==> SpaceText(s)
  {
    hide SpaceText, LeadingSpace, TrailingSpace;
    if SpaceText(s) {
      LeadingSpaceOf(s, []);
      assert s + [] == s;
      AtMostAll(s);
    }
    if TrimSpace(s) == [] {
      TrimSpaceExactly(s);
      SpaceTextAppend(Lead(s), Trail(s));
      assert s == Lead(s) + Trail(s);
    }
  }

  lemma AtMostAll(s: bytes)
    ensures LeadingSpace(s) == |s| ==> TrimSpace(s) == []
  {
  }

  lemma {:induction false} SpaceTextAppend(a: bytes, b: bytes)
    requires SpaceText(a) && SpaceText(b)
    ensures SpaceText(a + b)
    decreases |b|
  {
    hide IsSpaceRune, SpaceText;
    if b == [] {
      assert a + b == a;
    } else {
      var n := LastRune(b);
      SpaceTextAppend(a, b[..n]);
      SpaceTextSnoc(a + b[..n], b[n..]);
      assert a + b[..n] + b[n..] == a + b;
    }
  }

  /** Trimming twice is trimming once. */
  lemma TrimSpaceTwice(s: bytes)
    ensures TrimSpace(TrimSpace(s)) == TrimSpace(s)
  {
    hide TrimSpace, SpaceText, BeginsWithSpace, EndsWithSpace, Lead, Trail;
    NoSpace();
    var m := TrimSpace(s);
    if m == [] {
      TrimSpaceOfSpace([]);
    } else {
      TrimSpaceExactly(s);
      TrimSpaceUnique([], m, []);
      assert [] + m + [] == m;
    }
  }

  /** JSON white space is white space. */
  lemma {:induction false} WsIsSpace(s: bytes)
    requires AllWs(s)
    ensures SpaceText(s)
    decreases |s|
  {
    hide IsSpaceRune;
    if s != [] {
      WsIsSpace(s[1..]);
      SpaceRuneExactly([s[0]]);
      SpaceTextCons([s[0]], s[1..]);
      assert [s[0]] + s[1..] == s;
    }
  }
}
