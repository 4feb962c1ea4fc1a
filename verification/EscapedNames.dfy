/**
 The key may already be in the arguments under an escaped spelling, which the
 substring test cannot see. Decoding still ends with the one new entry.
 */
module EscapedNames {
  import opened Prelude
  import opened JsonGrammar
  import opened JsonTokens
  import opened JsonParser
  import opened JsonMeaning
  import opened HeaderSplice

  function HexValue(b: byte): nat {
    if IsDigit(b) then (b - 0x30) as nat
    else if 0x41 <= b <= 0x46 then (b - 0x37) as nat
    else if 0x61 <= b <= 0x66 then (b - 0x57) as nat
    else 0
  }

  function HexDigit(n: nat): (b: byte)
    requires n < 16
    ensures IsHex(b) && HexValue(b) == n
  {
    if n < 10 then 0x30 + n as byte else 0x57 + n as byte
  }

  /** What a backslash and one more byte stand for (RFC 8259 section 7). */
  function Unslash(b: byte): nat {
    match b
    case 0x62 => 0x08
    case 0x66 => 0x0C
    case 0x6E => 0x0A
    case 0x72 => 0x0D
    case 0x74 => 0x09
    case _ => b as nat
  }

  /** The units a string stands for: raw bytes, and the code units of \u escapes. */
  function Unescape(content: bytes): seq<nat>
    decreases |content|
  {
    if content == [] then []
    else if content[0] != BACKSLASH || |content| == 1 then [content[0] as nat] + Unescape(content[1..])
    else if content[1] == 0x75 && |content| >= 6 then
      [0x1000 * HexValue(content[2]) + 0x100 * HexValue(content[3]) + 0x10 * HexValue(content[4]) + HexValue(content[5])]
      + Unescape(content[6..])
    else [Unslash(content[1])] + Unescape(content[2..])
  }

  /** Each two-byte escape stands for the character it is named after, and a unit in hexadecimal for itself. */
  lemma EscapesStandFor()
    ensures Unescape([BACKSLASH, 0x6E]) == ['\n' as nat] && Unescape([BACKSLASH, 0x72]) == ['\r' as nat]
    ensures Unescape([BACKSLASH, 0x74]) == ['\t' as nat] && Unescape([BACKSLASH, 0x2F]) == ['/' as nat]
    ensures Unescape([BACKSLASH, 0x62]) == [0x08] && Unescape([BACKSLASH, 0x66]) == [0x0C]
    ensures Unescape([BACKSLASH, QUOTE]) == ['\"' as nat] && Unescape([BACKSLASH, BACKSLASH]) == ['\\' as nat]
    ensures Unescape([BACKSLASH, 0x75, 0x61, 0x42, 0x31, 0x30]) == [0xAB10]
  {
    assert forall c: bytes :: c == [] ==> Unescape(c) == [];
  }

  /** The key with its first letter written as a \u escape. */
  function EscapeFirst(key: bytes): bytes
    requires key != []
  {
    [BACKSLASH, 0x75, 0x30, 0x30, HexDigit(key[0] as nat / 16), HexDigit(key[0] as nat % 16)] + key[1..]
  }

  lemma SameText(key: bytes)
    requires IsKey(key)
    ensures Unescape(EscapeFirst(key)) == Unescape(key)
  {
    hide HexDigit, HexValue, Unslash, IsContent;
    var e, k := EscapeFirst(key), key[0] as nat;
    assert e[6..] == key[1..];
    assert HexValue(0x30) == 0 by {
      assert HexDigit(0) == 0x30 by {
        ZeroDigit();
      }
    }
    assert Unescape(e) == [0x10 * (k / 16) + k % 16] + Unescape(key[1..]);
    assert 0x10 * (k / 16) + k % 16 == k;
    assert Unescape(key) == [k] + Unescape(key[1..]);
  }

  lemma ZeroDigit()
    ensures HexDigit(0) == 0x30
  {
  }

  predicate IsPlainByte(b: byte) {
    b >= 0x20 && b != QUOTE && b != BACKSLASH
  }

  lemma {:induction false} PlainTailOfContent(a: bytes, b: bytes)
    requires IsContent(a) && forall x :: x in b ==> IsPlainByte(x)
    ensures IsContent(a + b)
    decreases |b|
  {
    if b == [] {
      assert a + b == a;
    } else {
      var n := |b| - 1;
      PlainTailOfContent(a, b[..n]);
      assert (a + b)[..|a + b| - 1] == a + b[..n];
      assert b[n] in b;
    }
  }

  lemma {:induction false} UnslashedIsPlain(key: bytes)
    requires IsContent(key) && BACKSLASH !in key
    ensures forall x :: x in key ==> IsPlainByte(x)
    decreases |key|
  {
    if key != [] {
      var n := |key| - 1;
      assert key == key[..n] + [key[n]];
      PrefixIsPlain(key[..n]);
      UnslashedIsPlain(key[..n]);
    }
  }

  lemma {:induction false} PrefixIsPlain(s: bytes)
    requires ContentPrefix(s).Some? && BACKSLASH !in s
    ensures IsContent(s)
    decreases |s|
  {
    if s != [] {
      assert s == s[..|s| - 1] + [s[|s| - 1]];
      PrefixIsPlain(s[..|s| - 1]);
    }
  }

  /** "grafana-http-headers" */
  const HEADER_KEY: bytes :=
    [0x67, 0x72, 0x61, 0x66, 0x61, 0x6E, 0x61, 0x2D, 0x68, 0x74, 0x74, 0x70, 0x2D, 0x68, 0x65, 0x61, 0x64, 0x65, 0x72, 0x73]

  /** The key the program uses is one all results about keys apply to. */
  lemma HeaderKeyIsPlain()
    ensures IsKey(HEADER_KEY) && BACKSLASH !in HEADER_KEY
  {
    PlainTailOfContent([], HEADER_KEY);
    assert [] + HEADER_KEY == HEADER_KEY;
  }

  lemma EscapedIsContent(key: bytes)
    requires IsKey(key) && BACKSLASH !in key
    ensures IsContent(EscapeFirst(key)) && forall x :: x in key[1..] ==> IsPlainByte(x)
  {
    UnslashedIsPlain(key);
    var hi, lo := HexDigit(key[0] as nat / 16), HexDigit(key[0] as nat % 16);
    ContentSnoc([], BACKSLASH);
    ContentSnoc([BACKSLASH], 0x75);
    ContentSnoc([BACKSLASH, 0x75], 0x30);
    ContentSnoc([BACKSLASH, 0x75, 0x30], 0x30);
    ContentSnoc([BACKSLASH, 0x75, 0x30, 0x30], hi);
    ContentSnoc([BACKSLASH, 0x75, 0x30, 0x30, hi], lo);
    assert [] + [BACKSLASH] == [BACKSLASH];
    assert [BACKSLASH] + [0x75] == [BACKSLASH, 0x75];
    assert [BACKSLASH, 0x75] + [0x30] == [BACKSLASH, 0x75, 0x30];
    assert [BACKSLASH, 0x75, 0x30] + [0x30] == [BACKSLASH, 0x75, 0x30, 0x30];
    assert [BACKSLASH, 0x75, 0x30, 0x30] + [hi] == [BACKSLASH, 0x75, 0x30, 0x30, hi];
    assert [BACKSLASH, 0x75, 0x30, 0x30, hi] + [lo] == [BACKSLASH, 0x75, 0x30, 0x30, hi, lo];
    PlainTailOfContent([BACKSLASH, 0x75, 0x30, 0x30, hi, lo], key[1..]);
  }

  /** { "escaped key" : 0 } */
  function EscapedObject(key: bytes): bytes
    requires key != []
  {
    [LBRACE] + Quoted(EscapeFirst(key)) + [COLON, 0x30] + [RBRACE]
  }

  lemma SubstringTestMisses(key: bytes)
    requires IsKey(key) && BACKSLASH !in key
    ensures !Contains(EscapedObject(key), Quoted(key))
  {
    EscapedIsContent(key);
    var s, part, n := EscapedObject(key), Quoted(key), 6 + |key| - 1;
    QuotesOf(key);
    forall i | 0 <= i <= |s|
      ensures !(part <= s[i..])
    {
      if i + |part| <= |s| {
        assert part[0] == QUOTE && part[1] == key[0];
        assert s[i..][0] == s[i] && s[i..][1] == s[i + 1];
        assert s[i] == QUOTE ==> s[i + 1] != key[0];
      }
    }
  }

  /** The only quotes are the two around the name: one before a backslash, the other before the colon. */
  lemma QuotesOf(key: bytes)
    requires key != [] && forall x :: x in key[1..] ==> IsPlainByte(x)
    ensures var s, last := EscapedObject(key), 7 + |key|;
      && s[2] == BACKSLASH && |s| == last + 4 && s[last + 1] == COLON
      && forall i :: 0 <= i < |s| && s[i] == QUOTE ==> i == 1 || i == last
  {
    var s, e, last := EscapedObject(key), EscapeFirst(key), 7 + |key|;
    assert forall j :: 2 <= j < last ==> s[j] == e[j - 2];
    assert forall j :: 6 <= j < |e| ==> e[j] == key[1..][j - 6];
    forall j | 0 <= j < |e|
      ensures e[j] != QUOTE
    {
      if j >= 6 {
        assert key[1..][j - 6] in key[1..];
      }
    }
  }

  /** Strings that stand for the same units decode to the same text. */
  ghost predicate ReadsEscapes<N(!new), S(!new)>(d: Decoder<N, S>) {
    forall a, b :: IsContent(a) && IsContent(b) && Unescape(a) == Unescape(b) ==> d.text(a) == d.text(b)
  }

  /** The splice accepts the object and what comes out decodes to the new entry alone. */
  lemma EscapedSpellingIsOverwritten<N(!new), S(!new)>(d: Decoder<N, S>, key: bytes, value: bytes)
    requires IsKey(key) && BACKSLASH !in key && Decode(d, value).Some?
    requires ReadsEscapes(d) && d.number([0x30]).Some?
    ensures var input := EscapedObject(key);
      && Splices(input, key)
      && Decode(d, input) == Some(Dict(map[d.text(key) := Num(d.number([0x30]).value)]))
      && Decode(d, Splice(input, key, value).value) == Some(Dict(map[d.text(key) := Decode(d, value).value]))
  {
    hide Splice, Unescape, IsContent;
    var input := EscapedObject(key);
    SameText(key);
    EscapedIsContent(key);
    SubstringTestMisses(key);
    BracedIsTrimmed(input);
    EscapedDecodes(d, key);
    SpliceUpdates(d, input, key, value);
    var before, now := Num(d.number([0x30]).value), Decode(d, value).value;
    assert map[d.text(key) := before][d.text(key) := now] == map[d.text(key) := now];
  }

  lemma EscapedDecodes<N, S>(d: Decoder<N, S>, key: bytes)
    requires IsKey(key) && BACKSLASH !in key
    requires d.text(EscapeFirst(key)) == d.text(key) && d.number([0x30]).Some?
    ensures Decode(d, EscapedObject(key)) == Some(Dict(map[d.text(key) := Num(d.number([0x30]).value)]))
  {
    hide Parse, EscapeFirst, IsContent;
    EscapedIsContent(key);
    var zero := Padded([], Number([0x30]), []);
    var m := Member([], EscapeFirst(key), [], zero);
    var p := Padded([], Object([], [m]), []);
    assert WellFormedPadded(zero) && WellFormedMember(m);
    assert WellFormedMembers([m]) && WellFormed(p.value);
    assert [m][..0] == [] && PrintMembers([]) == [];
    assert PrintPadded(zero) == [0x30];
    assert PrintMember(m) == Quoted(EscapeFirst(key)) + [COLON, 0x30];
    assert Print(p.value) == [LBRACE] + [] + PrintMember(m) + [RBRACE];
    assert PrintPadded(p) == EscapedObject(key);
    ParseComplete(p);
    assert MeaningMembers(d, [m]) == Some(map[d.text(key) := Num(d.number([0x30]).value)]);
  }
}
