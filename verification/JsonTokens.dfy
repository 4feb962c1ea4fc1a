/**
 The tokens of RFC 8259 as its productions give them, and the automata of the
 grammar that recognise just those.
 */
module JsonTokens {
  import opened Prelude
  import opened JsonGrammar

  // ---------- numbers (section 6) ----------

  predicate AllDigits(s: bytes) {
    forall i :: 0 <= i < |s| ==> IsDigit(s[i])
  }

  predicate IsMinus(s: bytes) {
    s == [] || s == [0x2D]
  }

  /** int = zero / ( digit1-9 *DIGIT ) */
  predicate IsInt(s: bytes) {
    s == [0x30] || (s != [] && 0x31 <= s[0] <= 0x39 && AllDigits(s[1..]))
  }

  /** frac = decimal-point 1*DIGIT */
  predicate IsFrac(s: bytes) {
    |s| >= 2 && s[0] == 0x2E && AllDigits(s[1..])
  }

  predicate IsE(b: byte) {
    b == 0x65 || b == 0x45
  }

  predicate IsSign(b: byte) {
    b == 0x2D || b == 0x2B
  }

  /** exp = e [ minus / plus ] 1*DIGIT */
  predicate IsExp(s: bytes) {
    && |s| >= 2 && IsE(s[0])
    && ((|s| >= 3 && IsSign(s[1]) && AllDigits(s[2..])) || AllDigits(s[1..]))
  }

  /** number = [ minus ] int [ frac ] [ exp ] */
  ghost predicate IsNumberText(s: bytes) {
    exists m, i, f, x :: s == m + i + f + x && IsMinus(m) && IsInt(i) && (f == [] || IsFrac(f)) && (x == [] || IsExp(x))
  }

  lemma NumberSnoc(s: bytes, b: byte)
    ensures NumberPrefix(s + [b]) ==
            if s == [] then NumberStart(b)
            else if NumberPrefix(s).None? then None
            else NumberStep(NumberPrefix(s).value, b)
  {
    assert (s + [b])[..|s|] == s;
    if s == [] {
      assert s + [b] == [b];
    }
  }

  lemma {:induction false} DigitsStay(s: bytes, t: bytes)
    requires s != [] && AllDigits(t)
    requires NumberPrefix(s).Some? && (NumberPrefix(s).value.Int? || NumberPrefix(s).value.Frac? || NumberPrefix(s).value.Exp?)
    ensures NumberPrefix(s + t) == NumberPrefix(s)
    decreases |t|
  {
    hide NumberPrefix;
    if t == [] {
      assert s + t == s;
    } else {
      var n := |t| - 1;
      DigitsStay(s, t[..n]);
      NumberSnoc(s + t[..n], t[n]);
      assert s + t[..n] + [t[n]] == s + t;
    }
  }

  lemma NoNumber()
    ensures NumberPrefix([]) == None
  {
  }

  lemma IntPrefix(m: bytes, i: bytes)
    requires IsMinus(m) && IsInt(i)
    ensures NumberPrefix(m + i) == Some(if i == [0x30] then Zero else Int)
  {
    hide NumberPrefix;
    NoNumber();
    NumberSnoc([], 0x2D);
    assert [] + [0x2D] == [0x2D];
    NumberSnoc(m, i[0]);
    if i != [0x30] {
      DigitsStay(m + [i[0]], i[1..]);
      assert m + [i[0]] + i[1..] == m + i;
    }
  }

  lemma FracPrefix(s: bytes, f: bytes)
    requires s != [] && (NumberPrefix(s) == Some(Zero) || NumberPrefix(s) == Some(Int)) && IsFrac(f)
    ensures NumberPrefix(s + f) == Some(Frac)
  {
    hide NumberPrefix;
    NumberSnoc(s, f[0]);
    NumberSnoc(s + [f[0]], f[1]);
    DigitsStay(s + [f[0]] + [f[1]], f[2..]);
    assert s + [f[0]] + [f[1]] + f[2..] == s + f;
  }

  lemma ExpPrefix(s: bytes, x: bytes)
    requires s != [] && IsExp(x)
    requires NumberPrefix(s) == Some(Zero) || NumberPrefix(s) == Some(Int) || NumberPrefix(s) == Some(Frac)
    ensures NumberPrefix(s + x) == Some(Exp)
  {
    hide NumberPrefix;
    NumberSnoc(s, x[0]);
    var t := s + [x[0]];
    NumberSnoc(t, x[1]);
    if IsSign(x[1]) {
      NumberSnoc(t + [x[1]], x[2]);
      DigitsStay(t + [x[1]] + [x[2]], x[3..]);
      assert t + [x[1]] + [x[2]] + x[3..] == s + x;
    } else {
      DigitsStay(t + [x[1]], x[2..]);
      assert t + [x[1]] + x[2..] == s + x;
    }
  }

  /** The parts of a number read so far. */
  datatype Parts = Parts(m: bytes, i: bytes, f: bytes, x: bytes)

  function Joined(p: Parts): bytes {
    p.m + p.i + p.f + p.x
  }

  predicate Shaped(part: NumberPart, p: Parts) {
    var whole := IsMinus(p.m) && IsInt(p.i);
    var mid := whole && (p.f == [] || IsFrac(p.f));
    match part
    case Minus => p == Parts([0x2D], [], [], [])
    case Zero => whole && p.i == [0x30] && p.f == [] && p.x == []
    case Int => whole && p.i != [0x30] && p.f == [] && p.x == []
    case Point => whole && p.f == [0x2E] && p.x == []
    case Frac => whole && IsFrac(p.f) && p.x == []
    case E => mid && |p.x| == 1 && IsE(p.x[0])
    case Sign => mid && |p.x| == 2 && IsE(p.x[0]) && IsSign(p.x[1])
    case Exp => mid && IsExp(p.x)
  }

  /** Where the next byte goes. */
  function Add(part: NumberPart, p: Parts, b: byte): Parts {
    match part
    case Minus => p.(i := [b])
    case Zero => if IsE(b) then p.(x := [b]) else p.(f := [b])
    case Int => if IsE(b) then p.(x := [b]) else if b == 0x2E then p.(f := [b]) else p.(i := p.i + [b])
    case Point => p.(f := p.f + [b])
    case Frac => if IsE(b) then p.(x := [b]) else p.(f := p.f + [b])
    case _ => p.(x := p.x + [b])
  }

  lemma DigitsSnoc(s: bytes, from: nat, b: byte)
    requires from <= |s| && AllDigits(s[from..]) && IsDigit(b)
    ensures AllDigits((s + [b])[from..])
  {
    assert (s + [b])[from..] == s[from..] + [b];
  }

  lemma AddShapes(part: NumberPart, p: Parts, b: byte)
    requires Shaped(part, p) && NumberStep(part, b).Some?
    ensures Shaped(NumberStep(part, b).value, Add(part, p, b)) && Joined(Add(part, p, b)) == Joined(p) + [b]
  {
    hide AllDigits;
    NoDigits([b]);
    match part
    case Int => if IsDigit(b) { DigitsSnoc(p.i, 1, b); }
    case Point => NoDigits(p.f); DigitsSnoc(p.f, 1, b);
    case Frac => if IsDigit(b) { DigitsSnoc(p.f, 1, b); }
    case E => if IsDigit(b) { NoDigits(p.x); DigitsSnoc(p.x, 1, b); }
    case Sign => NoDigits(p.x); DigitsSnoc(p.x, 2, b);
    case Exp => ExpSnoc(p.x, b);
    case _ =>
  }

  lemma NoDigits(s: bytes)
    ensures AllDigits(s[|s|..])
  {
  }

  lemma ExpSnoc(x: bytes, b: byte)
    requires IsExp(x) && IsDigit(b)
    ensures IsExp(x + [b])
  {
    if |x| >= 3 && IsSign(x[1]) && AllDigits(x[2..]) {
      DigitsSnoc(x, 2, b);
    } else {
      DigitsSnoc(x, 1, b);
    }
  }

  lemma {:induction false} Split(s: bytes) returns (p: Parts)
    requires NumberPrefix(s).Some?
    ensures Shaped(NumberPrefix(s).value, p) && Joined(p) == s
    decreases |s|
  {
    hide Shaped, Joined, Add;
    var n := |s| - 1;
    if n == 0 {
      p := FirstPart(s[0]);
      assert s == [s[0]];
    } else {
      var q := Split(s[..n]);
      p := Add(NumberPrefix(s[..n]).value, q, s[n]);
      AddShapes(NumberPrefix(s[..n]).value, q, s[n]);
      assert s == s[..n] + [s[n]];
    }
  }

  lemma FirstPart(b: byte) returns (p: Parts)
    requires NumberStart(b).Some?
    ensures Shaped(NumberStart(b).value, p) && Joined(p) == [b]
  {
    p := if b == 0x2D then Parts([b], [], [], []) else Parts([], [b], [], []);
    NoDigits([b]);
  }

  /** The automaton accepts exactly the numbers of section 6. */
  lemma NumberExact(s: bytes)
    ensures IsNumber(s) <==> IsNumberText(s)
  {
    hide NumberPrefix, IsInt, IsFrac, IsExp, IsMinus;
    if IsNumber(s) {
      var p := Split(s);
      assert s == p.m + p.i + p.f + p.x;
    }
    if m, i, f, x :| s == m + i + f + x && IsMinus(m) && IsInt(i) && (f == [] || IsFrac(f)) && (x == [] || IsExp(x)) {
      IntPrefix(m, i);
      NotEmpty(m, i);
      assert m + i + [] == m + i;
      if f != [] {
        FracPrefix(m + i, f);
      }
      assert m + i + f + [] == m + i + f;
      if x != [] {
        ExpPrefix(m + i + f, x);
      }
    }
  }

  lemma NotEmpty(m: bytes, i: bytes)
    requires IsInt(i)
    ensures m + i != []
  {
  }

  // ---------- strings (section 7) ----------

  /** char = unescaped / escape and one more / escape, u and four hexadecimal digits */
  predicate IsChar(c: bytes) {
    || (|c| == 1 && c[0] >= 0x20 && c[0] != QUOTE && c[0] != BACKSLASH)
    || (|c| == 2 && c[0] == BACKSLASH && c[1] in {QUOTE, BACKSLASH, 0x2F, 0x62, 0x66, 0x6E, 0x72, 0x74})
    || (|c| == 6 && c[0] == BACKSLASH && c[1] == 0x75 && forall i :: 2 <= i < 6 ==> IsHex(c[i]))
  }

  /** *char */
  ghost predicate IsChars(s: bytes)
    decreases |s|
  {
    s == [] || exists n :: 0 <= n < |s| && IsChars(s[..n]) && IsChar(s[n..])
  }

  lemma ContentSnoc(s: bytes, b: byte)
    ensures ContentPrefix(s + [b]) == if ContentPrefix(s).Some? then EscapeStep(ContentPrefix(s).value, b) else None
  {
    assert (s + [b])[..|s|] == s;
  }

  lemma CharsSnoc(s: bytes, c: bytes)
    requires IsChars(s) && IsChar(c)
    ensures IsChars(s + c)
  {
    assert (s + c)[..|s|] == s && (s + c)[|s|..] == c;
  }

  /** The beginning of a character of which `e` is yet to come. */
  predicate IsBegun(e: Escape, c: bytes) {
    match e
    case Plain => c == []
    case Slashed => c == [BACKSLASH]
    case Hex(n) =>
      1 <= n <= 4 && |c| == 6 - n && c[0] == BACKSLASH && c[1] == 0x75 && forall i :: 2 <= i < |c| ==> IsHex(c[i])
  }

  lemma BegunStep(e: Escape, c: bytes, b: byte)
    requires IsBegun(e, c) && EscapeStep(e, b).Some?
    ensures if EscapeStep(e, b).value.Plain? then IsChar(c + [b]) else IsBegun(EscapeStep(e, b).value, c + [b])
  {
    var d := c + [b];
    assert forall i :: 0 <= i < |c| ==> d[i] == c[i];
    assert d[|c|] == b;
  }

  lemma {:induction false} LastChar(s: bytes) returns (n: nat)
    requires ContentPrefix(s).Some?
    ensures n <= |s| && IsChars(s[..n]) && IsBegun(ContentPrefix(s).value, s[n..])
    decreases |s|
  {
    hide IsChar, IsChars, IsBegun, EscapeStep;
    if s == [] {
      n := 0;
      NothingYet(s);
    } else {
      var k := |s| - 1;
      var m := LastChar(s[..k]);
      assert s == s[..k] + [s[k]];
      BegunStep(ContentPrefix(s[..k]).value, s[..k][m..], s[k]);
      assert s[..k][m..] + [s[k]] == s[m..] && s[..k][..m] == s[..m];
      if ContentPrefix(s).value.Plain? {
        CharsSnoc(s[..m], s[m..]);
        n := |s|;
        assert s[..m] + s[m..] == s[..n];
        NothingYet(s[n..]);
      } else {
        n := m;
      }
    }
  }

  lemma NothingYet(s: bytes)
    requires s == []
    ensures IsChars(s[..0]) && IsBegun(Plain, s[0..]) && IsBegun(Plain, s)
  {
  }

  lemma CharSteps(s: bytes, c: bytes)
    requires ContentPrefix(s) == Some(Plain) && IsChar(c)
    ensures ContentPrefix(s + c) == Some(Plain)
  {
    hide ContentPrefix;
    ContentSnoc(s, c[0]);
    if |c| == 1 {
      assert s + c == s + [c[0]];
    } else {
      ContentSnoc(s + [c[0]], c[1]);
      if |c| == 2 {
        assert s + c == s + [c[0]] + [c[1]];
      } else {
        var t := s + [c[0]] + [c[1]];
        HexSteps(t, c[2..]);
        assert t + c[2..] == s + c;
      }
    }
  }

  lemma HexSteps(t: bytes, h: bytes)
    requires ContentPrefix(t) == Some(Hex(4)) && |h| == 4 && forall i :: 0 <= i < 4 ==> IsHex(h[i])
    ensures ContentPrefix(t + h) == Some(Plain)
  {
    hide ContentPrefix;
    ContentSnoc(t, h[0]);
    ContentSnoc(t + [h[0]], h[1]);
    ContentSnoc(t + [h[0]] + [h[1]], h[2]);
    ContentSnoc(t + [h[0]] + [h[1]] + [h[2]], h[3]);
    assert t + [h[0]] + [h[1]] + [h[2]] + [h[3]] == t + h;
  }

  lemma {:induction false} CharsAccepted(s: bytes)
    requires IsChars(s)
    ensures IsContent(s)
    decreases |s|
  {
    hide IsChar;
    if s != [] {
      var n :| 0 <= n < |s| && IsChars(s[..n]) && IsChar(s[n..]);
      CharsAccepted(s[..n]);
      CharSteps(s[..n], s[n..]);
      assert s[..n] + s[n..] == s;
    }
  }

  /** The automaton accepts exactly the string contents of section 7. */
  lemma ContentExact(s: bytes)
    ensures IsContent(s) <==> IsChars(s)
  {
    hide ContentPrefix, IsChars, IsChar;
    if IsContent(s) {
      var n := LastChar(s);
      assert n == |s| && s[..n] == s;
    }
    if IsChars(s) {
      CharsAccepted(s);
    }
  }

  // ---------- literal names (section 3) ----------

  predicate Spells(s: bytes, name: string) {
    |s| == |name| && forall i :: 0 <= i < |s| ==> s[i] as int == name[i] as int
  }

  lemma SpellingExact()
    ensures Spells(Spelling(NullWord), "null") && Spells(Spelling(TrueWord), "true") && Spells(Spelling(FalseWord), "false")
  {
  }
}
