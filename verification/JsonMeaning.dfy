/**
 What a JSON text decodes to. How the bytes of a number and of a string decode
 is a parameter, so the results hold for any float and any text decoding.
 */
module JsonMeaning {
  import opened Prelude
  import opened JsonGrammar
  import opened JsonParser

  /** A decoded value; an object is a map, as decoding into a Go map gives. */
  datatype Data<N, S> =
    | Null
    | Bool(b: bool)
    | Num(n: N)
    | Str(s: S)
    | List(items: seq<Data<N, S>>)
    | Dict(entries: map<S, Data<N, S>>)

  /** `number` has no answer for a number out of range; `text` decodes the bytes between quotes. */
  datatype Decoder<!N, !S> = Decoder(number: bytes -> Option<N>, text: bytes -> S)

  function Meaning<N, S>(d: Decoder<N, S>, v: Json): Option<Data<N, S>>
    decreases v, 1
  {
    match v
    case Literal(NullWord) => Some(Null)
    case Literal(TrueWord) => Some(Bool(true))
    case Literal(FalseWord) => Some(Bool(false))
    case Number(token) =>
      (match d.number(token)
       case None => None
       case Some(n) => Some(Num(n)))
    case Text(content) => Some(Str(d.text(content)))
    case Array(_, items) =>
      (match MeaningItems(d, items)
       case None => None
       case Some(list) => Some(List(list)))
    case Object(_, members) =>
      (match MeaningMembers(d, members)
       case None => None
       case Some(entries) => Some(Dict(entries)))
  }

  function MeaningItems<N, S>(d: Decoder<N, S>, items: seq<Padded>): Option<seq<Data<N, S>>>
    decreases items, 0
  {
    var n := |items| - 1;
    if n < 0 then Some([])
    else
      match (MeaningItems(d, items[..n]), Meaning(d, items[n].value))
      case (Some(list), Some(x)) => Some(list + [x])
      case _ => None
  }

  /** Section 4 leaves a repeated name open; decoding keeps its last value. */
  function MeaningMembers<N, S>(d: Decoder<N, S>, members: seq<Member>): Option<map<S, Data<N, S>>>
    decreases members, 0
  {
    var n := |members| - 1;
    if n < 0 then Some(map[])
    else
      match (MeaningMembers(d, members[..n]), Meaning(d, members[n].field.value))
      case (Some(entries), Some(x)) => Some(entries[d.text(members[n].name) := x])
      case _ => None
  }

  /** An array means the list of what its elements mean. */
  lemma {:induction false} ItemsMeanEach<N, S>(d: Decoder<N, S>, items: seq<Padded>)
    ensures MeaningItems(d, items).Some? <==> forall i :: 0 <= i < |items| ==> Meaning(d, items[i].value).Some?
    ensures MeaningItems(d, items).Some? ==>
              var list := MeaningItems(d, items).value;
              |list| == |items| && forall i :: 0 <= i < |items| ==> Meaning(d, items[i].value) == Some(list[i])
  {
    hide Meaning;
    if items != [] {
      var n := |items| - 1;
      ItemsMeanEach(d, items[..n]);
      assert forall i :: 0 <= i < n ==> items[..n][i] == items[i];
    }
  }

  /** Member i is the last one of its name. */
  predicate IsLast<N, S(==)>(d: Decoder<N, S>, members: seq<Member>, i: nat)
    requires i < |members|
  {
    forall j :: i < j < |members| ==> d.text(members[j].name) != d.text(members[i].name)
  }

  function Names<N, S>(d: Decoder<N, S>, members: seq<Member>): set<S> {
    set i | 0 <= i < |members| :: d.text(members[i].name)
  }

  lemma NamesSnoc<N, S>(d: Decoder<N, S>, members: seq<Member>)
    requires members != []
    ensures Names(d, members) == Names(d, members[..|members| - 1]) + {d.text(members[|members| - 1].name)}
  {
    var n := |members| - 1;
    assert forall i :: 0 <= i < n ==> members[..n][i] == members[i];
    forall i | 0 <= i < n
      ensures d.text(members[i].name) in Names(d, members[..n])
    {
      assert members[..n][i] == members[i];
    }
  }

  lemma {:induction false} NamesAreKeys<N, S>(d: Decoder<N, S>, members: seq<Member>)
    ensures MeaningMembers(d, members).Some? <==> forall i :: 0 <= i < |members| ==> Meaning(d, members[i].field.value).Some?
    ensures MeaningMembers(d, members).Some? ==> MeaningMembers(d, members).value.Keys == Names(d, members)
  {
    hide Meaning, Names;
    if members == [] {
      NoNames(d);
    } else {
      var n := |members| - 1;
      NamesAreKeys(d, members[..n]);
      NamesSnoc(d, members);
      assert forall i :: 0 <= i < n ==> members[..n][i] == members[i];
    }
  }

  lemma NoNames<N, S>(d: Decoder<N, S>)
    ensures Names(d, []) == {}
  {
  }

  lemma {:induction false} LastIsBound<N, S>(d: Decoder<N, S>, members: seq<Member>, i: nat)
    requires i < |members| && IsLast(d, members, i) && MeaningMembers(d, members).Some?
    ensures var k := d.text(members[i].name);
      && k in MeaningMembers(d, members).value
      && Meaning(d, members[i].field.value) == Some(MeaningMembers(d, members).value[k])
    decreases |members|
  {
    hide Meaning;
    var n := |members| - 1;
    if i < n {
      assert forall j :: 0 <= j < n ==> members[..n][j] == members[j];
      LastIsBound(d, members[..n], i);
    }
  }

  /** An object means a map whose keys are its names, each bound to what the last member of that name means. */
  lemma LastMemberWins<N, S>(d: Decoder<N, S>, members: seq<Member>)
    ensures MeaningMembers(d, members).Some? <==> forall i :: 0 <= i < |members| ==> Meaning(d, members[i].field.value).Some?
    ensures MeaningMembers(d, members).Some? ==>
              var entries := MeaningMembers(d, members).value;
              && entries.Keys == Names(d, members)
              && forall i :: 0 <= i < |members| && IsLast(d, members, i) ==>
                   d.text(members[i].name) in entries && Meaning(d, members[i].field.value) == Some(entries[d.text(members[i].name)])
  {
    hide Meaning, MeaningMembers, Names, IsLast;
    NamesAreKeys(d, members);
    if MeaningMembers(d, members).Some? {
      forall i | 0 <= i < |members| && IsLast(d, members, i)
        ensures d.text(members[i].name) in MeaningMembers(d, members).value
        ensures Meaning(d, members[i].field.value) == Some(MeaningMembers(d, members).value[d.text(members[i].name)])
      {
        LastIsBound(d, members, i);
      }
    }
  }

  function Decode<N, S>(d: Decoder<N, S>, s: bytes): Option<Data<N, S>> {
    match Parse(s)
    case None => None
    case Some(p) => Meaning(d, p.value)
  }

  // ---------- white space carries no meaning ----------

  function Lean(v: Json): Json
    decreases v, 1
  {
    match v
    case Literal(_) => v
    case Number(_) => v
    case Text(_) => v
    case Array(_, items) => Array([], LeanItems(items))
    case Object(_, members) => Object([], LeanMembers(members))
  }

  function LeanPadded(p: Padded): Padded
    decreases p, 2
  {
    Padded([], Lean(p.value), [])
  }

  function LeanMember(m: Member): Member
    decreases m, 3
  {
    Member([], m.name, [], LeanPadded(m.field))
  }

  function LeanItems(items: seq<Padded>): (r: seq<Padded>)
    ensures |r| == |items|
    decreases items, 0
  {
    var n := |items| - 1;
    if n < 0 then [] else LeanItems(items[..n]) + [LeanPadded(items[n])]
  }

  function LeanMembers(members: seq<Member>): (r: seq<Member>)
    ensures |r| == |members|
    decreases members, 0
  {
    var n := |members| - 1;
    if n < 0 then [] else LeanMembers(members[..n]) + [LeanMember(members[n])]
  }

  function LeanContext(ctx: Context): Context {
    match ctx
    case Top(_) => Top([])
    case InArray(outer, items, _) => InArray(LeanContext(outer), LeanItems(items), [])
    case InObject(outer, members, _, name, _, _) => InObject(LeanContext(outer), LeanMembers(members), [], name, [], [])
  }

  function LeanState(st: State): State {
    match st
    case Fail => Fail
    case WantValue(ctx) => WantValue(LeanContext(ctx))
    case InString(ctx, content) => InString(LeanContext(ctx), content)
    case InNumber(ctx, token) => InNumber(LeanContext(ctx), token)
    case InWord(ctx, word, read) => InWord(LeanContext(ctx), word, read)
    case Done(ctx, value, _) => Done(LeanContext(ctx), Lean(value), [])
    case WantName(ctx, members, _) => WantName(LeanContext(ctx), LeanMembers(members), [])
    case InName(ctx, members, _, name) => InName(LeanContext(ctx), LeanMembers(members), [], name)
    case WantColon(ctx, members, _, name, _) => WantColon(LeanContext(ctx), LeanMembers(members), [], name, [])
  }

  lemma LeanItemsSnoc(items: seq<Padded>, p: Padded)
    ensures LeanItems(items + [p]) == LeanItems(items) + [LeanPadded(p)]
  {
    assert (items + [p])[..|items|] == items;
  }

  lemma LeanMembersSnoc(members: seq<Member>, m: Member)
    ensures LeanMembers(members + [m]) == LeanMembers(members) + [LeanMember(m)]
  {
    assert (members + [m])[..|members|] == members;
  }

  lemma LeanSetBefore(ctx: Context, before: bytes)
    ensures LeanContext(SetBefore(ctx, before)) == LeanContext(ctx)
  {
  }

  lemma LeanField(members: seq<Member>, members': seq<Member>, m: Member, m': Member)
    requires LeanMembers(members) == LeanMembers(members') && LeanMember(m) == LeanMember(m')
    ensures LeanMembers(members + [m]) == LeanMembers(members' + [m'])
  {
    LeanMembersSnoc(members, m);
    LeanMembersSnoc(members', m');
  }

  lemma LeanFeedDone(ctx: Context, value: Json, after: bytes, ctx': Context, value': Json, after': bytes, b: byte)
    requires LeanContext(ctx) == LeanContext(ctx') && Lean(value) == Lean(value')
    ensures LeanState(FeedDone(ctx, value, after, b)) == LeanState(FeedDone(ctx', value', after', b))
  {
    if !IsWs(b) {
      var p, p' := Padded(ctx.before, value, after), Padded(ctx'.before, value', after');
      match ctx
      case Top(_) =>
        assert ctx'.Top?;
      case InArray(_, _, _) =>
        assert ctx'.InArray?;
        LeanCloseItem(ctx, p, ctx', p', b);
      case InObject(_, _, _, _, _, _) =>
        assert ctx'.InObject?;
        LeanCloseField(ctx, p, ctx', p', b);
    }
  }

  lemma LeanCloseItem(ctx: Context, p: Padded, ctx': Context, p': Padded, b: byte)
    requires ctx.InArray? && ctx'.InArray? && !IsWs(b) && p.before == ctx.before && p'.before == ctx'.before
    requires LeanContext(ctx) == LeanContext(ctx') && Lean(p.value) == Lean(p'.value)
    ensures LeanState(FeedDone(ctx, p.value, p.after, b)) == LeanState(FeedDone(ctx', p'.value, p'.after, b))
  {
    LeanItemsSnoc(ctx.items, p);
    LeanItemsSnoc(ctx'.items, p');
  }

  lemma LeanCloseField(ctx: Context, p: Padded, ctx': Context, p': Padded, b: byte)
    requires ctx.InObject? && ctx'.InObject? && !IsWs(b) && p.before == ctx.before && p'.before == ctx'.before
    requires LeanContext(ctx) == LeanContext(ctx') && Lean(p.value) == Lean(p'.value)
    ensures LeanState(FeedDone(ctx, p.value, p.after, b)) == LeanState(FeedDone(ctx', p'.value, p'.after, b))
  {
    var m := Member(ctx.memberBefore, ctx.name, ctx.colonGap, p);
    var m' := Member(ctx'.memberBefore, ctx'.name, ctx'.colonGap, p');
    assert LeanPadded(p) == LeanPadded(p');
    assert LeanMember(m) == LeanMember(m');
    LeanField(ctx.members, ctx'.members, m, m');
  }

  lemma LeanFeedValue(ctx: Context, ctx': Context, b: byte)
    requires LeanContext(ctx) == LeanContext(ctx')
    ensures LeanState(FeedValue(ctx, b)) == LeanState(FeedValue(ctx', b))
  {
    LeanSetBefore(ctx, ctx.before + [b]);
    LeanSetBefore(ctx', ctx'.before + [b]);
  }

  lemma LeanFeedName(ctx: Context, members: seq<Member>, before: bytes, ctx': Context, members': seq<Member>, before': bytes, b: byte)
    requires LeanContext(ctx) == LeanContext(ctx') && LeanMembers(members) == LeanMembers(members')
    ensures LeanState(FeedWantName(ctx, members, before, b)) == LeanState(FeedWantName(ctx', members', before', b))
  {
    hide LeanContext, LeanMembers, IsWs;
    assert |LeanMembers(members)| == |LeanMembers(members')|;
    if b == RBRACE && !IsWs(b) && members == [] {
      assert members' == [];
    }
  }

  lemma LeanFeed(st: State, st': State, b: byte)
    requires LeanState(st) == LeanState(st')
    ensures LeanState(Feed(st, b)) == LeanState(Feed(st', b))
  {
    match st
    case Fail =>
    case WantValue(ctx) => LeanFeedValue(ctx, st'.ctx, b);
    case InString(_, _) =>
    case InNumber(ctx, token) => LeanFeedDone(ctx, Number(token), [], st'.ctx, Number(token), [], b);
    case InWord(_, _, _) =>
    case Done(ctx, value, after) => LeanFeedDone(ctx, value, after, st'.ctx, st'.value, st'.after, b);
    case WantName(ctx, members, before) => LeanFeedName(ctx, members, before, st'.ctx, st'.members, st'.before, b);
    case InName(_, _, _, _) =>
    case WantColon(_, _, _, _, _) =>
  }

  lemma {:induction false} LeanRun(st: State, st': State, s: bytes)
    requires LeanState(st) == LeanState(st')
    ensures LeanState(Run(st, s)) == LeanState(Run(st', s))
    decreases |s|
  {
    if s != [] {
      LeanFeed(st, st', s[0]);
      LeanRun(Feed(st, s[0]), Feed(st', s[0]), s[1..]);
    }
  }

  lemma {:induction false} LeanMeaning<N, S>(d: Decoder<N, S>, v: Json)
    ensures Meaning(d, Lean(v)) == Meaning(d, v)
    decreases v, 1
  {
    match v
    case Literal(_) =>
    case Number(_) =>
    case Text(_) =>
    case Array(_, items) => LeanMeaningItems(d, items);
    case Object(_, members) => LeanMeaningMembers(d, members);
  }

  lemma {:induction false} LeanMeaningItems<N, S>(d: Decoder<N, S>, items: seq<Padded>)
    ensures MeaningItems(d, LeanItems(items)) == MeaningItems(d, items)
    decreases items, 0
  {
    if items != [] {
      var n := |items| - 1;
      LeanMeaningItems(d, items[..n]);
      LeanMeaning(d, items[n].value);
      var init, last := LeanItems(items[..n]), LeanPadded(items[n]);
      assert LeanItems(items) == init + [last];
      assert (init + [last])[..n] == init;
    }
  }

  lemma LeanMemberParts(m: Member)
    ensures LeanMember(m).name == m.name && LeanMember(m).field.value == Lean(m.field.value)
  {
    assert LeanPadded(m.field).value == Lean(m.field.value);
  }

  lemma {:induction false} LeanMeaningMembers<N, S>(d: Decoder<N, S>, members: seq<Member>)
    ensures MeaningMembers(d, LeanMembers(members)) == MeaningMembers(d, members)
    decreases members, 0
  {
    if members != [] {
      var n := |members| - 1;
      LeanMeaningMembers(d, members[..n]);
      LeanMeaning(d, members[n].field.value);
      var init, last := LeanMembers(members[..n]), LeanMember(members[n]);
      assert LeanMembers(members) == init + [last];
      assert (init + [last])[..n] == init;
      LeanMemberParts(members[n]);
    }
  }
}
