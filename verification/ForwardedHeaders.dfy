/**
 applyHeaders of query.go: put the request headers into the connection
 arguments under one key, by the fast splice or by decoding and encoding.
 */
module ForwardedHeaders {
  import opened Prelude
  import opened JsonGrammar
  import opened JsonParser
  import opened JsonMeaning
  import opened JsonEncoding
  import opened SpaceTrimming
  import opened HeaderSplice

  /** The arguments left behind, or a write to the nil map that JSON null decodes to. */
  datatype Outcome = Left(args: Option<bytes>) | Panicked

  /** A nil slice and an empty one look the same to the fast path. */
  function BytesOf(args: Option<bytes>): bytes {
    if args.None? then [] else args.value
  }

  /** Encoding a decoded object with one entry overwritten by raw JSON, which is compacted. */
  function Marshal<N, S>(d: Decoder<N, S>, e: Encoder<N, S>, entries: map<S, Data<N, S>>, key: bytes, raw: Json): bytes {
    var trees := map k | k in entries :: Tree(e, entries[k]);
    Print(Object([], Fields(e, trees[d.text(key) := Lean(raw)])))
  }

  function SlowOutcome<N, S>(d: Decoder<N, S>, e: Encoder<N, S>, key: bytes, args: Option<bytes>, headers: bytes): Outcome {
    var input := if args.None? then EMPTY_OBJECT else args.value;
    match Decode(d, input)
    case Some(Null) => Panicked
    case Some(Dict(entries)) =>
      (match Parse(headers)
       case None => Left(Some(input))
       case Some(p) => Left(Some(Marshal(d, e, entries, key, p.value))))
    case _ => Left(Some(input))
  }

  /** `headers` is their JSON text, or None when encoding them failed. */
  function ApplyOutcome<N, S>(d: Decoder<N, S>, e: Encoder<N, S>, key: bytes, args: Option<bytes>, headers: Option<bytes>): Outcome {
    match headers
    case None => Left(args)
    case Some(value) =>
      match Splice(BytesOf(args), key, value)
      case Some(out) => Left(Some(out))
      case None => SlowOutcome(d, e, key, args, value)
  }

  class Query {
    var connectionArgs: Option<bytes>

    constructor (args: Option<bytes>)
      ensures connectionArgs == args
    {
      connectionArgs := args;
    }
  }

  /** Overwrites the arguments in place; `panicked` says the call did not return. */
  method ApplyHeaders<N, S(==)>(d: Decoder<N, S>, e: Encoder<N, S>, key: bytes, query: Query, headers: Option<bytes>)
    returns (panicked: bool)
    modifies query
    ensures var outcome := ApplyOutcome(d, e, key, old(query.connectionArgs), headers);
      && (panicked <==> outcome.Panicked?)
      && (!panicked ==> query.connectionArgs == outcome.args)
  {
    if headers.None? {
      return false;
    }
    var injected, ok := InjectJSONKey(BytesOf(query.connectionArgs), key, headers.value);
    if ok {
      query.connectionArgs := Some(injected);
      return false;
    }
    panicked := ApplyHeadersSlow(d, e, key, query, headers.value);
  }

  method ApplyHeadersSlow<N, S(==)>(d: Decoder<N, S>, e: Encoder<N, S>, key: bytes, query: Query, headers: bytes)
    returns (panicked: bool)
    modifies query
    ensures var outcome := SlowOutcome(d, e, key, old(query.connectionArgs), headers);
      && (panicked <==> outcome.Panicked?)
      && (!panicked ==> query.connectionArgs == outcome.args)
  {
    if query.connectionArgs.None? {
      query.connectionArgs := Some(EMPTY_OBJECT);
    }
    var args := Decode(d, query.connectionArgs.value);
    if args.None? || !(args.value.Null? || args.value.Dict?) {
      return false;
    }
    if args.value.Null? {
      return true;
    }
    var raw := Parse(headers);
    if raw.None? {
      return false;
    }
    query.connectionArgs := Some(Marshal(d, e, args.value.entries, key, raw.value.value));
    return false;
  }

  // ---------- both paths update the decoded arguments ----------

  /** What the codec knows of the key: it is written plainly and read back. */
  ghost predicate PlainKey<N(!new), S(!new)>(d: Decoder<N, S>, e: Encoder<N, S>, key: bytes) {
    Faithful(d, e) && IsKey(key) && e.text(d.text(key)) == key
  }

  lemma {:induction false} LeanWellFormed(v: Json)
    requires WellFormed(v)
    ensures WellFormed(Lean(v))
    decreases v, 1
  {
    match v
    case Literal(_) =>
    case Number(_) =>
    case Text(_) =>
    case Array(_, items) => LeanItemsWellFormed(items);
    case Object(_, members) => LeanMembersWellFormed(members);
  }

  lemma {:induction false} LeanItemsWellFormed(items: seq<Padded>)
    requires WellFormedItems(items)
    ensures WellFormedItems(LeanItems(items))
    decreases items, 0
  {
    if items != [] {
      var n := |items| - 1;
      LeanItemsWellFormed(items[..n]);
      LeanWellFormed(items[n].value);
      assert WellFormedPadded(LeanPadded(items[n]));
    }
  }

  lemma {:induction false} LeanMembersWellFormed(members: seq<Member>)
    requires WellFormedMembers(members)
    ensures WellFormedMembers(LeanMembers(members))
    decreases members, 0
  {
    if members != [] {
      var n := |members| - 1;
      LeanMembersWellFormed(members[..n]);
      assert WellFormedMember(members[n]) && WellFormedPadded(members[n].field);
      LeanWellFormed(members[n].field.value);
      assert WellFormedMember(LeanMember(members[n]));
    }
  }

  lemma MarshalDecodes<N(!new), S(!new)>(d: Decoder<N, S>, e: Encoder<N, S>, entries: map<S, Data<N, S>>, key: bytes, headers: bytes)
    requires Faithful(d, e) && Decode(d, headers).Some?
    ensures Decode(d, Marshal(d, e, entries, key, Parse(headers).value.value)) ==
            Some(Dict(entries[d.text(key) := Decode(d, headers).value]))
  {
    var raw := Parse(headers).value.value;
    ParseSound(headers);
    LeanWellFormed(raw);
    LeanMeaning(d, raw);
    forall k | k in entries
      ensures WellFormed(Tree(e, entries[k])) && Meaning(d, Tree(e, entries[k])) == Some(entries[k])
    {
      TreeMeans(d, e, entries[k]);
    }
    var trees := (map k | k in entries :: Tree(e, entries[k]))[d.text(key) := Lean(raw)];
    FieldsMean(d, e, trees, entries[d.text(key) := Decode(d, headers).value]);
    PrintDecodes(d, Object([], Fields(e, trees)));
  }

  /** The decoded arguments, nil and blank ones counting as no entries. */
  function Entries<N, S>(d: Decoder<N, S>, args: Option<bytes>): Option<map<S, Data<N, S>>> {
    if IsBlank(BytesOf(args)) then Some(map[])
    else
      match Decode(d, args.value)
      case Some(Dict(entries)) => Some(entries)
      case _ => None
  }

  lemma KeyIsPlain<N(!new), S(!new)>(d: Decoder<N, S>, e: Encoder<N, S>, key: bytes)
    requires PlainKey(d, e, key)
    ensures IsKey(key) && Faithful(d, e)
  {
  }

  lemma SplicesIs(input: bytes, key: bytes, value: bytes)
    ensures Splice(input, key, value).Some? <==> Splices(input, key)
  {
  }

  lemma DecodedIsJson<N, S>(d: Decoder<N, S>, s: bytes)
    requires Decode(d, s).Some?
    ensures Parse(s).Some?
  {
  }

  lemma NoneIsBlank()
    ensures IsBlank([])
  {
  }

  /** Whichever path runs, the headers end up under the key and every other entry is kept. */
  lemma ApplyUpdates<N(!new), S(!new)>(d: Decoder<N, S>, e: Encoder<N, S>, key: bytes, args: Option<bytes>, headers: bytes)
    requires PlainKey(d, e, key) && Decode(d, headers).Some?
    requires Entries(d, args).Some?
    ensures var outcome := ApplyOutcome(d, e, key, args, Some(headers));
      && outcome.Left? && outcome.args.Some?
      && Decode(d, outcome.args.value) == Some(Dict(Entries(d, args).value[d.text(key) := Decode(d, headers).value]))
  {
    hide Splices, Splice, Decode, Marshal, Parse, IsBlank, PlainKey, Faithful;
    KeyIsPlain(d, e, key);
    var input := BytesOf(args);
    SplicesIs(input, key, headers);
    if Splices(input, key) {
      SpliceUpdates(d, input, key, headers);
      NoneIsBlank();
    } else {
      DecodedIsJson(d, headers);
      SlowIsMarshal(d, e, key, args, headers);
      MarshalDecodes(d, e, Entries(d, args).value, key, headers);
    }
  }

  lemma SlowIsMarshal<N, S>(d: Decoder<N, S>, e: Encoder<N, S>, key: bytes, args: Option<bytes>, headers: bytes)
    requires IsKey(key) && Decode(d, headers).Some?
    requires Entries(d, args).Some? && !Splices(BytesOf(args), key)
    ensures ApplyOutcome(d, e, key, args, Some(headers)) ==
            Left(Some(Marshal(d, e, Entries(d, args).value, key, Parse(headers).value.value)))
  {
    hide Splices, Meaning, Marshal;
    if IsBlank(BytesOf(args)) {
      BlankSplices(BytesOf(args), key);
    }
  }

  lemma BlankSplices(input: bytes, key: bytes)
    requires IsKey(key) && IsBlank(input)
    ensures Splices(input, key)
  {
    BracesAlone(key);
  }

  /** applyHeaders fails to return exactly on arguments that are JSON null. */
  lemma PanicsExactlyOnNull<N(!new), S(!new)>(d: Decoder<N, S>, e: Encoder<N, S>, key: bytes, args: Option<bytes>, headers: Option<bytes>)
    requires PlainKey(d, e, key)
    requires headers.Some? ==> Decode(d, headers.value).Some?
    ensures ApplyOutcome(d, e, key, args, headers).Panicked? <==>
            headers.Some? && args.Some? && Decode(d, args.value) == Some(Null)
  {
    hide Splices, Parse, Meaning;
    var input := BytesOf(args);
    if headers.Some? {
      if Splices(input, key) {
        SpliceUpdates(d, input, key, headers.value);
      } else if args.None? {
        BlankSplices(input, key);
      }
    }
  }

  /** Such arguments exist. */
  lemma NullPanics<N(!new), S(!new)>(d: Decoder<N, S>, e: Encoder<N, S>, key: bytes, headers: bytes)
    requires PlainKey(d, e, key) && Decode(d, headers).Some?
    ensures ApplyOutcome(d, e, key, Some(Spelling(NullWord)), Some(headers)).Panicked?
  {
    hide ApplyOutcome, PlainKey;
    PrintDecodes(d, Literal(NullWord));
    PanicsExactlyOnNull(d, e, key, Some(Spelling(NullWord)), Some(headers));
  }

  /** The call leaves a JSON object that holds the headers under the key. */
  ghost predicate HeadersArrive<N, S>(d: Decoder<N, S>, key: bytes, headers: bytes, outcome: Outcome) {
    && outcome.Left? && outcome.args.Some?
    && var left := Decode(d, outcome.args.value);
    && left.Some? && left.value.Dict? && d.text(key) in left.value.entries
    && Some(left.value.entries[d.text(key)]) == Decode(d, headers)
  }

  /**
   The headers arrive exactly if the arguments count as entries, or if the splice
   takes them and what it keeps of them, in braces, decodes.
   */
  lemma HeadersArriveExactly<N(!new), S(!new)>(d: Decoder<N, S>, e: Encoder<N, S>, key: bytes, args: Option<bytes>, headers: bytes)
    requires PlainKey(d, e, key) && Decode(d, headers).Some?
    ensures HeadersArrive(d, key, headers, ApplyOutcome(d, e, key, args, Some(headers))) <==>
            Entries(d, args).Some? || (Splices(BytesOf(args), key) && Decode(d, Core(BytesOf(args))).Some?)
  {
    var input := BytesOf(args);
    if Entries(d, args).Some? {
      hide ApplyOutcome, Entries, Splices, Decode;
      ApplyUpdates(d, e, key, args, headers);
    } else if Splices(input, key) {
      hide Splices, Decode, Entries, Core, Splice;
      SpliceOfCore(d, input, key, headers);
    } else {
      hide Splices, Parse, Meaning;
      if IsBlank(input) {
        BlankSplices(input, key);
      }
    }
  }

  /**
   Arguments that neither path can use, but for null, are kept byte for byte; so
   are all of them when the headers cannot be encoded.
   */
  lemma KeptOtherwise<N(!new), S(!new)>(d: Decoder<N, S>, e: Encoder<N, S>, key: bytes, args: Option<bytes>, headers: bytes)
    requires PlainKey(d, e, key) && Decode(d, headers).Some?
    ensures ApplyOutcome(d, e, key, args, None) == Left(args)
    ensures Entries(d, args).None? && !Splices(BytesOf(args), key) && Decode(d, BytesOf(args)) != Some(Null) ==>
              ApplyOutcome(d, e, key, args, Some(headers)) == Left(args)
  {
    hide Splices, Parse, Meaning;
    if IsBlank(BytesOf(args)) {
      BlankSplices(BytesOf(args), key);
    }
  }

  // ---------- a second call takes the slow path and overwrites ----------

  lemma MemberHoldsName(name: bytes, v: Json)
    ensures Contains(PrintMember(Field(name, v)), Quoted(name))
  {
    hide Contains, Quoted, PrintPadded;
    var m := Field(name, v);
    assert PrintMember(m) == [] + Quoted(name) + ([COLON] + PrintPadded(m.field));
    ContainsIn([], Quoted(name), [COLON] + PrintPadded(m.field));
  }

  lemma {:induction false} FieldsHoldName<N(!new), S(!new)>(d: Decoder<N, S>, e: Encoder<N, S>, trees: map<S, Json>, k: S)
    requires Faithful(d, e) && k in trees
    ensures Contains(PrintMembers(Fields(e, trees)), Quoted(e.text(k)))
    decreases |trees|
  {
    hide Print, PrintMember, PrintMembers, Contains, Quoted, Field;
    var l := e.last(trees.Keys);
    assert l in trees;
    hide Faithful;
    var rest, m := Fields(e, trees - {l}), Field(e.text(l), trees[l]);
    assert Fields(e, trees) == rest + [m];
    if l == k {
      MemberHoldsName(e.text(k), trees[k]);
      SnocHolds(rest, m, Quoted(e.text(k)));
    } else {
      assert k in trees - {l};
      FieldsHoldName(d, e, trees - {l}, k);
      SnocHolds(rest, m, Quoted(e.text(k)));
    }
  }

  lemma SnocHolds(members: seq<Member>, m: Member, part: bytes)
    requires Contains(PrintMember(m), part) || Contains(PrintMembers(members), part)
    ensures Contains(PrintMembers(members + [m]), part)
  {
    hide Print, PrintMember, PrintMembers, Contains;
    PrintMembersSnoc(members, m);
    if Contains(PrintMember(m), part) {
      ContainsWider(PrintMembers(members), PrintMember(m), [COMMA], part);
    } else {
      ContainsWider([], PrintMembers(members), PrintMember(m) + [COMMA], part);
      assert [] + PrintMembers(members) + (PrintMember(m) + [COMMA]) == PrintMembers(members + [m]);
    }
  }

  lemma MarshalHoldsKey<N(!new), S(!new)>(d: Decoder<N, S>, e: Encoder<N, S>, entries: map<S, Data<N, S>>, key: bytes, raw: Json)
    requires PlainKey(d, e, key)
    ensures Contains(Marshal(d, e, entries, key, raw), Quoted(key))
    ensures Braced(Marshal(d, e, entries, key, raw))
  {
    hide PrintMembers, Print, Contains;
    var trees := (map k | k in entries :: Tree(e, entries[k]))[d.text(key) := Lean(raw)];
    FieldsHoldName(d, e, trees, d.text(key));
    assert e.last(trees.Keys) in trees;
    ObjectHoldsName(Fields(e, trees), Quoted(key));
  }

  lemma ObjectHoldsName(members: seq<Member>, part: bytes)
    requires members != [] && Contains(PrintMembers(members), part)
    requires part != [] && part[|part| - 1] == QUOTE
    ensures Contains(Print(Object([], members)), part) && Braced(Print(Object([], members)))
  {
    hide Contains, PrintMember;
    var n := |members| - 1;
    var inside := PrintMembers(members[..n]) + PrintMember(members[n]);
    assert PrintMembers(members) == inside + [COMMA];
    ContainsDropLast(inside, COMMA, part);
    ContainsWider([LBRACE], inside, [RBRACE], part);
    assert Print(Object([], members)) == [LBRACE] + inside + [RBRACE];
  }

  /** The arguments left by one call hold the quoted key, so the splice refuses them. */
  lemma AppliedRefusesSplice<N(!new), S(!new)>(d: Decoder<N, S>, e: Encoder<N, S>, key: bytes, args: Option<bytes>, headers: bytes)
    requires PlainKey(d, e, key) && Decode(d, headers).Some?
    requires Entries(d, args).Some?
    ensures var outcome := ApplyOutcome(d, e, key, args, Some(headers));
      outcome.Left? && outcome.args.Some? && !Splices(outcome.args.value, key) && !IsBlank(outcome.args.value)
  {
    hide TrimSpace, Contains, Print, Marshal, Parse;
    if Splices(BytesOf(args), key) {
      SplicedHoldsKey(BytesOf(args), key, headers);
      BracedIsTrimmed(Splice(BytesOf(args), key, headers).value);
    } else {
      SlowIsMarshal(d, e, key, args, headers);
      MarshalHoldsKey(d, e, Entries(d, args).value, key, Parse(headers).value.value);
      BracedIsTrimmed(Marshal(d, e, Entries(d, args).value, key, Parse(headers).value.value));
    }
  }

  lemma SplicedHoldsKey(input: bytes, key: bytes, value: bytes)
    requires Splices(input, key)
    ensures var out := Splice(input, key, value).value;
      Contains(out, Quoted(key)) && Braced(out)
  {
    hide TrimSpace, Contains;
    var body := Body(input);
    var head := if body == [] then [LBRACE] else [LBRACE] + body + [COMMA];
    var tail := [COLON] + value + [RBRACE];
    assert Splice(input, key, value).value == head + Quoted(key) + tail;
    ContainsIn(head, Quoted(key), tail);
  }

  /** The two facts above, in terms of the entries left behind. */
  lemma AppliedEntries<N(!new), S(!new)>(d: Decoder<N, S>, e: Encoder<N, S>, key: bytes, args: Option<bytes>, headers: bytes, left: Outcome)
    requires PlainKey(d, e, key) && Decode(d, headers).Some?
    requires Entries(d, args).Some? && left == ApplyOutcome(d, e, key, args, Some(headers))
    ensures left.Left? && left.args.Some? && !Splices(left.args.value, key)
    ensures Entries(d, left.args) == Some(Entries(d, args).value[d.text(key) := Decode(d, headers).value])
    ensures Decode(d, left.args.value) == Some(Dict(Entries(d, left.args).value))
  {
    AppliedRefusesSplice(d, e, key, args, headers);
    ApplyUpdates(d, e, key, args, headers);
  }

  /** Headers applied last win: what earlier headers left behind is gone. */
  lemma LastHeadersWin<N(!new), S(!new)>(d: Decoder<N, S>, e: Encoder<N, S>, key: bytes, args: Option<bytes>, first: bytes, second: bytes)
    requires PlainKey(d, e, key) && Decode(d, first).Some? && Decode(d, second).Some?
    requires Entries(d, args).Some?
    ensures var once, alone := ApplyOutcome(d, e, key, args, Some(first)), ApplyOutcome(d, e, key, args, Some(second));
      && once.Left? && once.args.Some? && !Splices(once.args.value, key)
      && alone.Left? && alone.args.Some?
      && var twice := ApplyOutcome(d, e, key, once.args, Some(second));
      && twice.Left? && twice.args.Some?
      && Decode(d, twice.args.value) == Decode(d, alone.args.value)
  {
    hide ApplyOutcome, Splices, Decode, Entries, PlainKey;
    var once, alone := ApplyOutcome(d, e, key, args, Some(first)), ApplyOutcome(d, e, key, args, Some(second));
    AppliedEntries(d, e, key, args, first, once);
    AppliedEntries(d, e, key, args, second, alone);
    AppliedEntries(d, e, key, once.args, second, ApplyOutcome(d, e, key, once.args, Some(second)));
    var m, k := Entries(d, args).value, d.text(key);
    assert m[k := Decode(d, first).value][k := Decode(d, second).value] == m[k := Decode(d, second).value];
  }

  /** From the second call on, the same headers leave the very same bytes, which are what connections are cached under. */
  lemma ReapplyingKeepsBytes<N(!new), S(!new)>(d: Decoder<N, S>, e: Encoder<N, S>, key: bytes, args: Option<bytes>, headers: bytes)
    requires PlainKey(d, e, key) && Decode(d, headers).Some?
    requires Entries(d, args).Some?
    ensures var once := ApplyOutcome(d, e, key, args, Some(headers));
      && once.Left?
      && var twice := ApplyOutcome(d, e, key, once.args, Some(headers));
      && twice.Left? && ApplyOutcome(d, e, key, twice.args, Some(headers)) == twice
  {
    hide ApplyOutcome, Splices, Decode, Entries, PlainKey;
    var once := ApplyOutcome(d, e, key, args, Some(headers));
    AppliedEntries(d, e, key, args, headers, once);
    var twice := ApplyOutcome(d, e, key, once.args, Some(headers));
    AppliedEntries(d, e, key, once.args, headers, twice);
    var k := d.text(key);
    assert Entries(d, twice.args).value == Entries(d, once.args).value[k := Decode(d, headers).value] == Entries(d, once.args).value;
    SlowAgain(d, e, key, once.args, twice.args, headers);
  }

  /** On the slow path the bytes left behind depend on the decoded arguments alone. */
  lemma SlowAgain<N(!new), S(!new)>(d: Decoder<N, S>, e: Encoder<N, S>, key: bytes, once: Option<bytes>, twice: Option<bytes>, headers: bytes)
    requires PlainKey(d, e, key) && Decode(d, headers).Some?
    requires once.Some? && twice.Some? && Entries(d, once).Some? && Entries(d, once) == Entries(d, twice)
    requires !Splices(once.value, key) && !Splices(twice.value, key)
    ensures ApplyOutcome(d, e, key, twice, Some(headers)) == ApplyOutcome(d, e, key, once, Some(headers))
  {
    hide ApplyOutcome, Splices, Decode, Entries;
    SlowIsMarshal(d, e, key, once, headers);
    SlowIsMarshal(d, e, key, twice, headers);
  }
}
