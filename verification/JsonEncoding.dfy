/**
 Encoding decoded values back into JSON texts, for any spelling of numbers and
 strings and any order of object keys that decoding understands.
 */
module JsonEncoding {
  import opened Prelude
  import opened JsonGrammar
  import opened JsonTokens
  import opened JsonParser
  import opened JsonMeaning

  /** `last` picks, from the keys of an object, the one written last. */
  datatype Encoder<!N, !S> = Encoder(number: N -> bytes, text: S -> bytes, last: set<S> -> S)

  /** What encoding/json gives: decoding a spelling gives the value back. */
  ghost predicate Faithful<N(!new), S(!new)>(d: Decoder<N, S>, e: Encoder<N, S>) {
    && (forall n :: IsNumber(e.number(n)) && d.number(e.number(n)) == Some(n))
    && (forall s :: IsContent(e.text(s)) && d.text(e.text(s)) == s)
    && (forall ks: set<S> :: ks != {} ==> e.last(ks) in ks)
  }

  function Pad(v: Json): Padded {
    Padded([], v, [])
  }

  function Field(name: bytes, v: Json): Member {
    Member([], name, [], Pad(v))
  }

  function Tree<N, S>(e: Encoder<N, S>, x: Data<N, S>): Json
    decreases x, 1
  {
    match x
    case Null => Literal(NullWord)
    case Bool(b) => Literal(if b then TrueWord else FalseWord)
    case Num(n) => Number(e.number(n))
    case Str(s) => Text(e.text(s))
    case List(items) => Array([], TreeItems(e, items))
    case Dict(entries) => Object([], Fields(e, map k | k in entries :: Tree(e, entries[k])))
  }

  function TreeItems<N, S>(e: Encoder<N, S>, items: seq<Data<N, S>>): (r: seq<Padded>)
    ensures |r| == |items|
    decreases items, 0
  {
    var n := |items| - 1;
    if n < 0 then [] else TreeItems(e, items[..n]) + [Pad(Tree(e, items[n]))]
  }

  /** The members of an object whose values are already written. */
  function Fields<N, S>(e: Encoder<N, S>, trees: map<S, Json>): seq<Member>
    decreases |trees|
  {
    var k := e.last(trees.Keys);
    if k !in trees then []
    else Fields(e, trees - {k}) + [Field(e.text(k), trees[k])]
  }

  ghost predicate AllMean<N(!new), S(!new)>(d: Decoder<N, S>, trees: map<S, Json>, entries: map<S, Data<N, S>>) {
    && trees.Keys == entries.Keys
    && (forall k :: k in trees ==> WellFormed(trees[k]) && Meaning(d, trees[k]) == Some(entries[k]))
  }

  lemma WithoutOne<N(!new), S(!new)>(d: Decoder<N, S>, trees: map<S, Json>, entries: map<S, Data<N, S>>, k: S)
    requires AllMean(d, trees, entries) && k in trees
    ensures AllMean(d, trees - {k}, entries - {k})
    ensures WellFormed(trees[k]) && k in entries && Meaning(d, trees[k]) == Some(entries[k])
    ensures entries == (entries - {k})[k := entries[k]]
  {
    hide WellFormed, Meaning;
  }

  lemma {:induction false} FieldsMean<N(!new), S(!new)>(d: Decoder<N, S>, e: Encoder<N, S>, trees: map<S, Json>, entries: map<S, Data<N, S>>)
    requires Faithful(d, e) && AllMean(d, trees, entries)
    ensures WellFormedMembers(Fields(e, trees))
    ensures MeaningMembers(d, Fields(e, trees)) == Some(entries)
    decreases |trees|
  {
    hide WellFormed, Meaning, Tree, IsContent, Field;
    if trees == map[] {
      assert entries == map[];
    } else {
      var k := e.last(trees.Keys);
      assert k in trees && IsContent(e.text(k)) && d.text(e.text(k)) == k;
      hide Faithful;
      WithoutOne(d, trees, entries, k);
      hide AllMean;
      var rest := Fields(e, trees - {k});
      assert Fields(e, trees) == rest + [Field(e.text(k), trees[k])];
      FieldsMean(d, e, trees - {k}, entries - {k});
      hide WellFormedMembers, MeaningMembers;
      FieldMeans(d, rest, entries - {k}, e.text(k), trees[k], entries[k]);
    }
  }

  lemma FieldMeans<N, S>(d: Decoder<N, S>, members: seq<Member>, entries: map<S, Data<N, S>>, name: bytes, v: Json, x: Data<N, S>)
    requires WellFormedMembers(members) && MeaningMembers(d, members) == Some(entries)
    requires IsContent(name) && WellFormed(v) && Meaning(d, v) == Some(x)
    ensures WellFormedMembers(members + [Field(name, v)])
    ensures MeaningMembers(d, members + [Field(name, v)]) == Some(entries[d.text(name) := x])
  {
    assert (members + [Field(name, v)])[..|members|] == members;
    assert WellFormedMember(Field(name, v));
  }

  lemma {:induction false} TreeMeans<N(!new), S(!new)>(d: Decoder<N, S>, e: Encoder<N, S>, x: Data<N, S>)
    requires Faithful(d, e)
    ensures WellFormed(Tree(e, x)) && Meaning(d, Tree(e, x)) == Some(x)
    decreases x, 1
  {
    match x
    case Null =>
    case Bool(_) =>
    case Num(_) =>
    case Str(_) =>
    case List(items) => TreeItemsMean(d, e, items);
    case Dict(entries) =>
      forall k | k in entries
        ensures WellFormed(Tree(e, entries[k])) && Meaning(d, Tree(e, entries[k])) == Some(entries[k])
      {
        TreeMeans(d, e, entries[k]);
      }
      FieldsMean(d, e, map k | k in entries :: Tree(e, entries[k]), entries);
  }

  lemma {:induction false} TreeItemsMean<N(!new), S(!new)>(d: Decoder<N, S>, e: Encoder<N, S>, items: seq<Data<N, S>>)
    requires Faithful(d, e)
    ensures WellFormedItems(TreeItems(e, items)) && MeaningItems(d, TreeItems(e, items)) == Some(items)
    decreases items, 0
  {
    if items != [] {
      var n := |items| - 1;
      TreeItemsMean(d, e, items[..n]);
      TreeMeans(d, e, items[n]);
      var rest := TreeItems(e, items[..n]);
      assert (rest + [Pad(Tree(e, items[n]))])[..n] == rest;
      assert items == items[..n] + [items[n]];
      assert WellFormedPadded(Pad(Tree(e, items[n])));
    }
  }

  function Encode<N, S>(e: Encoder<N, S>, x: Data<N, S>): bytes {
    Print(Tree(e, x))
  }

  lemma PrintDecodes<N, S>(d: Decoder<N, S>, v: Json)
    requires WellFormed(v)
    ensures Decode(d, Print(v)) == Meaning(d, v)
  {
    ParseComplete(Pad(v));
    assert PrintPadded(Pad(v)) == Print(v);
  }

  /** The three literal names decode to what they say. */
  lemma WordsDecode<N, S>(d: Decoder<N, S>, s: bytes)
    ensures Spells(s, "null") ==> Decode(d, s) == Some(Null)
    ensures Spells(s, "true") ==> Decode(d, s) == Some(Bool(true))
    ensures Spells(s, "false") ==> Decode(d, s) == Some(Bool(false))
  {
    hide Decode, Print;
    SpellingExact();
    forall w: Word
      ensures Decode(d, Spelling(w)) == Meaning(d, Literal(w))
    {
      PrintDecodes(d, Literal(w));
      assert Print(Literal(w)) == Spelling(w) by {
        PrintsWord(w);
      }
    }
    if Spells(s, "null") {
      assert s == Spelling(NullWord);
    }
    if Spells(s, "true") {
      assert s == Spelling(TrueWord);
    }
    if Spells(s, "false") {
      assert s == Spelling(FalseWord);
    }
  }

  lemma PrintsWord(w: Word)
    ensures Print(Literal(w)) == Spelling(w)
  {
  }

  /** Encoding and decoding again loses nothing. */
  lemma EncodeRoundTrip<N(!new), S(!new)>(d: Decoder<N, S>, e: Encoder<N, S>, x: Data<N, S>)
    requires Faithful(d, e)
    ensures Decode(d, Encode(e, x)) == Some(x)
  {
    TreeMeans(d, e, x);
    PrintDecodes(d, Tree(e, x));
  }

  // ---------- faithful encoders exist: keep every spelling as it is ----------

  type NumberToken = t: bytes | IsNumber(t) witness [0x30]

  type Content = c: bytes | IsContent(c) witness []

  function RawNumber(t: bytes): Option<NumberToken> {
    if IsNumber(t) then Some(t) else None
  }

  function RawText(c: bytes): Content {
    if IsContent(c) then c else []
  }

  function ShowNumber(n: NumberToken): bytes {
    n
  }

  function ShowText(c: Content): bytes {
    c
  }

  ghost function AnyKey(ks: set<Content>): Content {
    if ks == {} then [] else var k :| k in ks; k
  }

  const RAW_DECODER: Decoder<NumberToken, Content> := Decoder(RawNumber, RawText)

  ghost const RAW_ENCODER: Encoder<NumberToken, Content> := Encoder(ShowNumber, ShowText, AnyKey)

  lemma RawIsFaithful()
    ensures Faithful(RAW_DECODER, RAW_ENCODER)
  {
  }
}
