/**
 A one-pass, byte-at-a-time JSON parser whose state is the partial syntax tree
 of the bytes read so far. It is exact: `Parse` returns a tree just when the
 tree is well formed and prints as the input.
 */
module JsonParser {
  import opened Prelude
  import opened JsonGrammar

  /** The place a value being read belongs to: everything before it, inside out. */
  datatype Context =
    | Top(before: bytes)
    | InArray(outer: Context, items: seq<Padded>, before: bytes)
    | InObject(outer: Context, members: seq<Member>, memberBefore: bytes, name: bytes, colonGap: bytes, before: bytes)

  datatype State =
    | Fail
    | WantValue(ctx: Context)
    | InString(ctx: Context, content: bytes)
    | InNumber(ctx: Context, token: bytes)
    | InWord(ctx: Context, word: Word, read: nat)
    | Done(ctx: Context, value: Json, after: bytes)
    | WantName(ctx: Context, members: seq<Member>, before: bytes)
    | InName(ctx: Context, members: seq<Member>, before: bytes, name: bytes)
    | WantColon(ctx: Context, members: seq<Member>, before: bytes, name: bytes, gap: bytes)

  const START: State := WantValue(Top([]))

  function SetBefore(ctx: Context, before: bytes): Context {
    match ctx
    case Top(_) => Top(before)
    case InArray(outer, items, _) => InArray(outer, items, before)
    case InObject(outer, members, memberBefore, name, colonGap, _) =>
      InObject(outer, members, memberBefore, name, colonGap, before)
  }

  function FeedValue(ctx: Context, b: byte): State {
    if IsWs(b) then WantValue(SetBefore(ctx, ctx.before + [b]))
    else if b == QUOTE then InString(ctx, [])
    else if b == LBRACKET then WantValue(InArray(ctx, [], []))
    else if b == LBRACE then WantName(ctx, [], [])
    else if b == RBRACKET && ctx.InArray? && ctx.items == [] then Done(ctx.outer, Array(ctx.before, []), [])
    else if NumberStart(b).Some? then InNumber(ctx, [b])
    else if b == Spelling(NullWord)[0] then InWord(ctx, NullWord, 1)
    else if b == Spelling(TrueWord)[0] then InWord(ctx, TrueWord, 1)
    else if b == Spelling(FalseWord)[0] then InWord(ctx, FalseWord, 1)
    else Fail
  }

  function FeedDone(ctx: Context, value: Json, after: bytes, b: byte): State {
    var p := Padded(ctx.before, value, after);
    if IsWs(b) then Done(ctx, value, after + [b])
    else
      match ctx
      case Top(_) => Fail
      case InArray(outer, items, _) =>
        if b == COMMA then WantValue(InArray(outer, items + [p], []))
        else if b == RBRACKET then Done(outer, Array([], items + [p]), [])
        else Fail
      case InObject(outer, members, memberBefore, name, colonGap, _) =>
        var m := Member(memberBefore, name, colonGap, p);
        if b == COMMA then WantName(outer, members + [m], [])
        else if b == RBRACE then Done(outer, Object([], members + [m]), [])
        else Fail
  }

  function FeedWantName(ctx: Context, members: seq<Member>, before: bytes, b: byte): State {
    if IsWs(b) then WantName(ctx, members, before + [b])
    else if b == QUOTE then InName(ctx, members, before, [])
    else if b == RBRACE && members == [] then Done(ctx, Object(before, []), [])
    else Fail
  }

  function FeedWantColon(ctx: Context, members: seq<Member>, before: bytes, name: bytes, gap: bytes, b: byte): State {
    if IsWs(b) then WantColon(ctx, members, before, name, gap + [b])
    else if b == COLON then WantValue(InObject(ctx, members, before, name, gap, []))
    else Fail
  }

  function Feed(st: State, b: byte): State {
    match st
    case Fail => Fail
    case WantValue(ctx) => FeedValue(ctx, b)
    case InString(ctx, content) =>
      if b == QUOTE && IsContent(content) then Done(ctx, Text(content), [])
      else if ContentPrefix(content + [b]).Some? then InString(ctx, content + [b])
      else Fail
    case InNumber(ctx, token) =>
      if NumberPrefix(token + [b]).Some? then InNumber(ctx, token + [b])
      else if IsNumber(token) then FeedDone(ctx, Number(token), [], b)
      else Fail
    case InWord(ctx, word, read) =>
      if read < |Spelling(word)| && Spelling(word)[read] == b then
        if read + 1 == |Spelling(word)| then Done(ctx, Literal(word), []) else InWord(ctx, word, read + 1)
      else Fail
    case Done(ctx, value, after) => FeedDone(ctx, value, after, b)
    case WantName(ctx, members, before) => FeedWantName(ctx, members, before, b)
    case InName(ctx, members, before, name) =>
      if b == QUOTE && IsContent(name) then WantColon(ctx, members, before, name, [])
      else if ContentPrefix(name + [b]).Some? then InName(ctx, members, before, name + [b])
      else Fail
    case WantColon(ctx, members, before, name, gap) => FeedWantColon(ctx, members, before, name, gap, b)
  }

  function Run(st: State, s: bytes): State
    decreases |s|
  {
    if s == [] then st else Run(Feed(st, s[0]), s[1..])
  }

  /** A number has no closing byte: its end is noticed one byte late. */
  function Settle(st: State): State {
    if st.InNumber? && IsNumber(st.token) then Done(st.ctx, Number(st.token), []) else st
  }

  function Finish(st: State): Option<Padded> {
    match Settle(st)
    case Done(Top(before), value, after) => Some(Padded(before, value, after))
    case _ => None
  }

  function Parse(s: bytes): Option<Padded> {
    Finish(Run(START, s))
  }

  lemma {:induction false} RunAppend(st: State, s: bytes, t: bytes)
    ensures Run(st, s + t) == Run(Run(st, s), t)
    decreases |s|
  {
    if s == [] {
      assert s + t == t;
    } else {
      assert (s + t)[0] == s[0] && (s + t)[1..] == s[1..] + t;
      RunAppend(Feed(st, s[0]), s[1..], t);
    }
  }

  lemma RunNone(st: State)
    ensures Run(st, []) == st
  {
  }

  lemma RunOne(st: State, b: byte)
    ensures Run(st, [b]) == Feed(st, b)
  {
    assert Run(Feed(st, b), [b][1..]) == Feed(st, b);
  }

  lemma RunCons(st: State, b: byte, s: bytes)
    ensures Run(st, [b] + s) == Run(Feed(st, b), s)
  {
    assert ([b] + s)[1..] == s;
  }

  lemma {:induction false} RunFail(s: bytes)
    ensures Run(Fail, s) == Fail
  {
    if s != [] {
      RunFail(s[1..]);
    }
  }

  // ---------- soundness: the state accounts for every byte read ----------

  function Before(ctx: Context): bytes
    decreases ctx, 1
  {
    Opened(ctx) + ctx.before
  }

  function Opened(ctx: Context): bytes
    decreases ctx, 0
  {
    match ctx
    case Top(_) => []
    case InArray(outer, items, _) => Before(outer) + [LBRACKET] + PrintItems(items)
    case InObject(outer, members, memberBefore, name, colonGap, _) =>
      Before(outer) + [LBRACE] + PrintMembers(members) + (memberBefore + Quoted(name) + colonGap + [COLON])
  }

  function Consumed(st: State): bytes
    requires !st.Fail?
    requires st.InWord? ==> st.read <= |Spelling(st.word)|
  {
    match st
    case WantValue(ctx) => Before(ctx)
    case InString(ctx, content) => Before(ctx) + [QUOTE] + content
    case InNumber(ctx, token) => Before(ctx) + token
    case InWord(ctx, word, read) => Before(ctx) + Spelling(word)[..read]
    case Done(ctx, value, after) => Before(ctx) + Print(value) + after
    case WantName(ctx, members, before) => Before(ctx) + [LBRACE] + PrintMembers(members) + before
    case InName(ctx, members, before, name) =>
      Before(ctx) + [LBRACE] + PrintMembers(members) + before + [QUOTE] + name
    case WantColon(ctx, members, before, name, gap) =>
      Before(ctx) + [LBRACE] + PrintMembers(members) + before + Quoted(name) + gap
  }

  predicate GoodContext(ctx: Context) {
    && AllWs(ctx.before)
    && match ctx
       case Top(_) => true
       case InArray(outer, items, _) => GoodContext(outer) && WellFormedItems(items)
       case InObject(outer, members, memberBefore, name, colonGap, _) =>
         && GoodContext(outer) && WellFormedMembers(members)
         && AllWs(memberBefore) && IsContent(name) && AllWs(colonGap)
  }

  predicate GoodState(st: State) {
    match st
    case Fail => true
    case WantValue(ctx) => GoodContext(ctx)
    case InString(ctx, content) => GoodContext(ctx) && ContentPrefix(content).Some?
    case InNumber(ctx, token) => GoodContext(ctx) && NumberPrefix(token).Some?
    case InWord(ctx, word, read) => GoodContext(ctx) && 0 < read < |Spelling(word)|
    case Done(ctx, value, after) => GoodContext(ctx) && WellFormed(value) && AllWs(after)
    case WantName(ctx, members, before) => GoodContext(ctx) && WellFormedMembers(members) && AllWs(before)
    case InName(ctx, members, before, name) =>
      GoodContext(ctx) && WellFormedMembers(members) && AllWs(before) && ContentPrefix(name).Some?
    case WantColon(ctx, members, before, name, gap) =>
      GoodContext(ctx) && WellFormedMembers(members) && AllWs(before) && IsContent(name) && AllWs(gap)
  }

  lemma PrintItemsSnoc(items: seq<Padded>, p: Padded)
    ensures PrintItems(items + [p]) == PrintItems(items) + PrintPadded(p) + [COMMA]
    ensures Print(Array([], items + [p])) == [LBRACKET] + PrintItems(items) + PrintPadded(p) + [RBRACKET]
  {
    assert (items + [p])[..|items|] == items;
  }

  lemma PrintMembersSnoc(members: seq<Member>, m: Member)
    ensures PrintMembers(members + [m]) == PrintMembers(members) + PrintMember(m) + [COMMA]
    ensures Print(Object([], members + [m])) == [LBRACE] + PrintMembers(members) + PrintMember(m) + [RBRACE]
  {
    assert (members + [m])[..|members|] == members;
  }

  lemma FeedDoneGood(ctx: Context, value: Json, after: bytes, b: byte)
    requires GoodState(Done(ctx, value, after))
    ensures GoodState(FeedDone(ctx, value, after, b))
  {
    var p := Padded(ctx.before, value, after);
    assert WellFormedPadded(p);
    match ctx
    case Top(_) =>
    case InArray(outer, items, _) =>
      assert WellFormedItems(items + [p]);
    case InObject(outer, members, memberBefore, name, colonGap, _) =>
      var m := Member(memberBefore, name, colonGap, p);
      assert WellFormedMember(m);
      assert WellFormedMembers(members + [m]);
  }

  lemma FeedGood(st: State, b: byte)
    requires GoodState(st)
    ensures GoodState(Feed(st, b))
  {
    match st
    case Fail =>
    case WantValue(ctx) =>
    case InString(_, _) =>
    case InNumber(ctx, token) =>
      if NumberPrefix(token + [b]).None? && IsNumber(token) {
        FeedDoneGood(ctx, Number(token), [], b);
      }
    case InWord(_, _, _) =>
    case Done(ctx, value, after) => FeedDoneGood(ctx, value, after, b);
    case WantName(_, _, _) =>
    case InName(_, _, _, _) =>
    case WantColon(_, _, _, _, _) =>
  }

  lemma FeedValueConsumes(ctx: Context, b: byte)
    requires !FeedValue(ctx, b).Fail?
    ensures Consumed(FeedValue(ctx, b)) == Before(ctx) + [b]
  {
    if IsWs(b) {
      assert Opened(SetBefore(ctx, ctx.before + [b])) == Opened(ctx);
      Regroup(Opened(ctx), ctx.before, [b], []);
    } else if b == LBRACKET || b == LBRACE {
      assert PrintItems([]) == [] && PrintMembers([]) == [];
      assert Opened(InArray(ctx, [], [])) == Before(ctx) + [LBRACKET] + [];
      assert Before(ctx) + [b] + [] + [] == Before(ctx) + [b];
    } else if b == RBRACKET && ctx.InArray? && ctx.items == [] {
      CloseEmpty(ctx);
    } else if NumberStart(b).None? {
      assert forall w: Word {:trigger Spelling(w)} :: Spelling(w)[..1] == [Spelling(w)[0]];
    }
  }

  lemma CloseEmpty(ctx: Context)
    requires ctx.InArray? && ctx.items == []
    ensures Before(ctx.outer) + Print(Array(ctx.before, [])) == Before(ctx) + [RBRACKET]
  {
    assert PrintItems([]) == [];
    Regroup(Before(ctx.outer), [LBRACKET], ctx.before, [RBRACKET]);
  }

  lemma Regroup(a: bytes, b: bytes, c: bytes, d: bytes)
    ensures a + (b + c + d) == a + b + c + d
    ensures a + (b + c) == a + b + c
  {
  }

  lemma FeedDoneConsumes(ctx: Context, value: Json, after: bytes, b: byte)
    requires !FeedDone(ctx, value, after, b).Fail?
    ensures Consumed(FeedDone(ctx, value, after, b)) == Before(ctx) + Print(value) + after + [b]
  {
    var p := Padded(ctx.before, value, after);
    if !IsWs(b) {
      match ctx
      case Top(_) =>
      case InArray(outer, items, _) =>
        CloseItem(outer, items, p);
      case InObject(outer, members, memberBefore, name, colonGap, _) =>
        CloseMember(outer, members, Member(memberBefore, name, colonGap, p));
    }
  }

  lemma CloseItem(outer: Context, items: seq<Padded>, p: Padded)
    ensures Before(InArray(outer, items + [p], [])) ==
            Before(InArray(outer, items, p.before)) + Print(p.value) + p.after + [COMMA]
    ensures Before(outer) + Print(Array([], items + [p])) ==
            Before(InArray(outer, items, p.before)) + Print(p.value) + p.after + [RBRACKET]
  {
    PrintItemsSnoc(items, p);
    hide Print, PrintItems;
  }

  lemma CloseMember(outer: Context, members: seq<Member>, m: Member)
    ensures Before(outer) + [LBRACE] + PrintMembers(members + [m]) ==
            Before(InObject(outer, members, m.before, m.name, m.colonGap, m.field.before))
            + Print(m.field.value) + m.field.after + [COMMA]
    ensures Before(outer) + Print(Object([], members + [m])) ==
            Before(InObject(outer, members, m.before, m.name, m.colonGap, m.field.before))
            + Print(m.field.value) + m.field.after + [RBRACE]
  {
    PrintMembersSnoc(members, m);
    var head := m.before + Quoted(m.name) + m.colonGap + [COLON];
    Regroup(head, m.field.before, Print(m.field.value), m.field.after);
    MemberRegroup(Before(outer), PrintMembers(members), head, m.field.before, Print(m.field.value), m.field.after, [COMMA]);
    MemberRegroup(Before(outer), PrintMembers(members), head, m.field.before, Print(m.field.value), m.field.after, [RBRACE]);
  }

  lemma MemberRegroup(a: bytes, ms: bytes, head: bytes, before: bytes, v: bytes, after: bytes, close: bytes)
    ensures a + [LBRACE] + ms + head + before + v + after + close
         == a + [LBRACE] + (ms + (head + (before + v + after)) + close)
    ensures a + [LBRACE] + ms + head + before + v + after + close
         == a + ([LBRACE] + ms + (head + (before + v + after)) + close)
  {
  }

  lemma FeedStringConsumes(ctx: Context, content: bytes, b: byte)
    requires !Feed(InString(ctx, content), b).Fail?
    ensures Consumed(Feed(InString(ctx, content), b)) == Before(ctx) + [QUOTE] + content + [b]
  {
    Regroup(Before(ctx), [QUOTE], content, [b]);
  }

  lemma FeedNameConsumes(ctx: Context, members: seq<Member>, before: bytes, name: bytes, b: byte)
    requires !Feed(InName(ctx, members, before, name), b).Fail?
    ensures Consumed(Feed(InName(ctx, members, before, name), b)) ==
            Consumed(InName(ctx, members, before, name)) + [b]
  {
    Regroup(Before(ctx) + [LBRACE] + PrintMembers(members) + before, [QUOTE], name, [b]);
  }

  lemma FeedWantNameConsumes(ctx: Context, members: seq<Member>, before: bytes, b: byte)
    requires !FeedWantName(ctx, members, before, b).Fail?
    ensures Consumed(FeedWantName(ctx, members, before, b)) == Consumed(WantName(ctx, members, before)) + [b]
  {
    if b == RBRACE {
      assert PrintMembers([]) == [];
      assert Before(ctx) + [LBRACE] + [] == Before(ctx) + [LBRACE];
      Regroup(Before(ctx), [LBRACE], before, [RBRACE]);
    }
  }

  lemma FeedWantColonConsumes(ctx: Context, members: seq<Member>, before: bytes, name: bytes, gap: bytes, b: byte)
    requires !FeedWantColon(ctx, members, before, name, gap, b).Fail?
    ensures Consumed(FeedWantColon(ctx, members, before, name, gap, b)) ==
            Consumed(WantColon(ctx, members, before, name, gap)) + [b]
  {
    var a := Before(ctx) + [LBRACE] + PrintMembers(members);
    if IsWs(b) {
      Regroup(a + before + Quoted(name), gap, [b], []);
    } else {
      assert Opened(InObject(ctx, members, before, name, gap, [])) == a + (before + Quoted(name) + gap + [COLON]);
      assert a + (before + Quoted(name) + gap + [COLON]) + [] == a + before + Quoted(name) + gap + [COLON];
    }
  }

  lemma FeedWordConsumes(ctx: Context, word: Word, read: nat, b: byte)
    requires !Feed(InWord(ctx, word, read), b).Fail?
    ensures Consumed(Feed(InWord(ctx, word, read), b)) == Before(ctx) + Spelling(word)[..read] + [b]
  {
    assert Spelling(word)[..read + 1] == Spelling(word)[..read] + [b];
    assert Spelling(word)[..|Spelling(word)|] == Spelling(word);
  }

  lemma FeedNumberConsumes(ctx: Context, token: bytes, b: byte)
    requires !Feed(InNumber(ctx, token), b).Fail?
    ensures Consumed(Feed(InNumber(ctx, token), b)) == Before(ctx) + token + [b]
  {
    if NumberPrefix(token + [b]).None? {
      FeedDoneConsumes(ctx, Number(token), [], b);
    } else {
      Regroup(Before(ctx), token, [b], []);
    }
  }

  lemma FeedConsumes(st: State, b: byte)
    requires GoodState(st) && !st.Fail? && !Feed(st, b).Fail?
    ensures GoodState(Feed(st, b))
    ensures Consumed(Feed(st, b)) == Consumed(st) + [b]
  {
    FeedGood(st, b);
    match st
    case WantValue(ctx) => FeedValueConsumes(ctx, b);
    case InString(ctx, content) => FeedStringConsumes(ctx, content, b);
    case InNumber(ctx, token) => FeedNumberConsumes(ctx, token, b);
    case InWord(ctx, word, read) => FeedWordConsumes(ctx, word, read, b);
    case Done(ctx, value, after) => FeedDoneConsumes(ctx, value, after, b);
    case WantName(ctx, members, before) => FeedWantNameConsumes(ctx, members, before, b);
    case InName(ctx, members, before, name) => FeedNameConsumes(ctx, members, before, name, b);
    case WantColon(ctx, members, before, name, gap) => FeedWantColonConsumes(ctx, members, before, name, gap, b);
  }

  lemma FailStays(st: State, b: byte)
    ensures st.Fail? ==> Feed(st, b).Fail?
  {
  }

  lemma HeadFirst(a: bytes, s: bytes)
    requires s != []
    ensures a + [s[0]] + s[1..] == a + s
  {
  }

  lemma {:induction false} RunConsumes(st: State, s: bytes)
    requires GoodState(st) && !st.Fail? && !Run(st, s).Fail?
    ensures GoodState(Run(st, s))
    ensures Consumed(Run(st, s)) == Consumed(st) + s
    decreases |s|
  {
    hide GoodContext, Consumed, Feed, Print, PrintMembers, PrintItems, IsNumber;
    if s == [] {
      assert Consumed(st) + s == Consumed(st);
    } else {
      RunFail(s[1..]);
      FailStays(st, s[0]);
      FeedConsumes(st, s[0]);
      RunConsumes(Feed(st, s[0]), s[1..]);
      HeadFirst(Consumed(st), s);
    }
  }

  /** What the parser accepts is a JSON text, and the tree is that text. */
  lemma ParseSound(s: bytes)
    requires Parse(s).Some?
    ensures WellFormedPadded(Parse(s).value) && PrintPadded(Parse(s).value) == s
  {
    hide Run;
    RunConsumes(START, s);
    assert forall before: bytes :: Before(Top(before)) == before;
  }

  // ---------- completeness: every JSON text is accepted, as its own tree ----------

  /** White space between tokens is only collected. */
  function AddWs(st: State, ws: bytes): State {
    match st
    case WantValue(ctx) => WantValue(SetBefore(ctx, ctx.before + ws))
    case Done(ctx, value, after) => Done(ctx, value, after + ws)
    case WantName(ctx, members, before) => WantName(ctx, members, before + ws)
    case WantColon(ctx, members, before, name, gap) => WantColon(ctx, members, before, name, gap + ws)
    case _ => st
  }

  predicate BetweenTokens(st: State) {
    st.WantValue? || st.Done? || st.WantName? || st.WantColon?
  }

  lemma AddWsSplit(st: State, a: bytes, b: bytes)
    ensures AddWs(st, a + b) == AddWs(AddWs(st, a), b)
    ensures AddWs(st, []) == st
  {
    match st
    case WantValue(ctx) =>
      assert ctx.before + (a + b) == ctx.before + a + b;
      assert ctx.before + [] == ctx.before;
    case Done(_, _, after) => assert after + (a + b) == after + a + b;
    case WantName(_, _, before) => assert before + (a + b) == before + a + b;
    case WantColon(_, _, _, _, gap) => assert gap + (a + b) == gap + a + b;
    case _ =>
  }

  lemma {:induction false} RunWs(st: State, ws: bytes)
    requires AllWs(ws) && BetweenTokens(st)
    ensures Run(st, ws) == AddWs(st, ws)
    decreases |ws|
  {
    hide Run;
    if ws == [] {
      RunNone(st);
      AddWsSplit(st, [], []);
    } else {
      FeedWs(st, ws[0]);
      RunWs(AddWs(st, [ws[0]]), ws[1..]);
      AddWsSplit(st, [ws[0]], ws[1..]);
      assert ws == [ws[0]] + ws[1..];
      RunCons(st, ws[0], ws[1..]);
    }
  }

  lemma FeedWs(st: State, b: byte)
    requires IsWs(b) && BetweenTokens(st)
    ensures Feed(st, b) == AddWs(st, [b])
  {
  }

  lemma {:induction false} RunContent(ctx: Context, content: bytes)
    requires ContentPrefix(content).Some?
    ensures Run(InString(ctx, []), content) == InString(ctx, content)
    decreases |content|
  {
    if content != [] {
      var n := |content| - 1;
      RunContent(ctx, content[..n]);
      assert content == content[..n] + [content[n]];
      RunAppend(InString(ctx, []), content[..n], [content[n]]);
      RunOne(InString(ctx, content[..n]), content[n]);
    }
  }

  lemma {:induction false} RunName(ctx: Context, members: seq<Member>, before: bytes, name: bytes)
    requires ContentPrefix(name).Some?
    ensures Run(InName(ctx, members, before, []), name) == InName(ctx, members, before, name)
    decreases |name|
  {
    if name != [] {
      var n := |name| - 1;
      RunName(ctx, members, before, name[..n]);
      assert name == name[..n] + [name[n]];
      RunAppend(InName(ctx, members, before, []), name[..n], [name[n]]);
      RunOne(InName(ctx, members, before, name[..n]), name[n]);
    }
  }

  lemma {:induction false} RunToken(ctx: Context, token: bytes)
    requires NumberPrefix(token).Some?
    ensures Run(WantValue(ctx), token) == InNumber(ctx, token)
    decreases |token|
  {
    if |token| == 1 {
      assert token == [token[0]];
      RunOne(WantValue(ctx), token[0]);
    } else {
      var n := |token| - 1;
      RunToken(ctx, token[..n]);
      assert token == token[..n] + [token[n]];
      RunAppend(WantValue(ctx), token[..n], [token[n]]);
      RunOne(InNumber(ctx, token[..n]), token[n]);
    }
  }

  lemma {:induction false} RunWord(ctx: Context, word: Word, read: nat)
    requires 0 < read < |Spelling(word)|
    ensures Run(InWord(ctx, word, read), Spelling(word)[read..]) == Done(ctx, Literal(word), [])
    decreases |Spelling(word)| - read
  {
    var s := Spelling(word)[read..];
    assert s == [Spelling(word)[read]] + Spelling(word)[read + 1..];
    if read + 1 < |Spelling(word)| {
      RunWord(ctx, word, read + 1);
    }
  }

  /** Bytes that can follow a value inside a text; none of them extends a number. */
  predicate IsDelimiter(b: byte) {
    IsWs(b) || b == COMMA || b == RBRACKET || b == RBRACE
  }

  lemma SettleFeed(st: State, b: byte)
    requires IsDelimiter(b)
    ensures Feed(st, b) == Feed(Settle(st), b)
  {
    if st.InNumber? && IsNumber(st.token) {
      var next := st.token + [b];
      assert next[..|next| - 1] == st.token;
    }
  }

  lemma SettleRun(st: State, s: bytes)
    requires s == [] || IsDelimiter(s[0])
    ensures s != [] ==> Run(st, s) == Run(Settle(st), s)
    ensures Settle(Run(st, s)) == Settle(Run(Settle(st), s))
  {
    if s != [] {
      SettleFeed(st, s[0]);
    }
  }

  lemma RunText(ctx: Context, content: bytes)
    requires IsContent(content)
    ensures Run(WantValue(ctx), Quoted(content)) == Done(ctx, Text(content), [])
  {
    hide Run;
    assert Quoted(content) == [QUOTE] + (content + [QUOTE]);
    RunCons(WantValue(ctx), QUOTE, content + [QUOTE]);
    RunContent(ctx, content);
    RunAppend(InString(ctx, []), content, [QUOTE]);
    RunOne(InString(ctx, content), QUOTE);
  }

  lemma RunColon(ctx: Context, members: seq<Member>, m: Member)
    requires WellFormedMember(m)
    ensures Run(WantName(ctx, members, []), m.before + Quoted(m.name) + m.colonGap + [COLON]) ==
            WantValue(InObject(ctx, members, m.before, m.name, m.colonGap, []))
  {
    hide Run;
    var st := WantName(ctx, members, []);
    var inName := InName(ctx, members, m.before, m.name);
    RunWs(st, m.before);
    assert [] + m.before == m.before;
    RunName(ctx, members, m.before, m.name);
    assert Quoted(m.name) == [QUOTE] + (m.name + [QUOTE]);
    RunCons(WantName(ctx, members, m.before), QUOTE, m.name + [QUOTE]);
    RunAppend(InName(ctx, members, m.before, []), m.name, [QUOTE]);
    RunOne(inName, QUOTE);
    RunWs(WantColon(ctx, members, m.before, m.name, []), m.colonGap);
    assert [] + m.colonGap == m.colonGap;
    RunOne(WantColon(ctx, members, m.before, m.name, m.colonGap), COLON);
    RunAppend(st, m.before, Quoted(m.name));
    RunAppend(st, m.before + Quoted(m.name), m.colonGap);
    RunAppend(st, m.before + Quoted(m.name) + m.colonGap, [COLON]);
  }

  lemma {:induction false} RunValue(ctx: Context, v: Json)
    requires WellFormed(v)
    ensures Settle(Run(WantValue(ctx), Print(v))) == Done(ctx, v, [])
    decreases v, 1
  {
    match v
    case Literal(w) =>
      var s := Spelling(w);
      assert s == [s[0]] + s[1..];
      RunCons(WantValue(ctx), s[0], s[1..]);
      RunWord(ctx, w, 1);
    case Number(token) => RunToken(ctx, token);
    case Text(content) => RunText(ctx, content);
    case Array(gap, items) =>
      if items == [] {
        RunEmptyArray(ctx, gap);
      } else {
        RunArray(ctx, items);
      }
    case Object(gap, members) =>
      if members == [] {
        RunEmptyObject(ctx, gap);
      } else {
        RunObject(ctx, members);
      }
  }

  lemma RunEmptyArray(ctx: Context, gap: bytes)
    requires AllWs(gap)
    ensures Run(WantValue(ctx), Print(Array(gap, []))) == Done(ctx, Array(gap, []), [])
  {
    hide Run;
    var inside := WantValue(InArray(ctx, [], []));
    RunWs(inside, gap);
    assert [] + gap == gap;
    assert Print(Array(gap, [])) == [LBRACKET] + (gap + [RBRACKET]);
    RunCons(WantValue(ctx), LBRACKET, gap + [RBRACKET]);
    RunAppend(inside, gap, [RBRACKET]);
    RunOne(WantValue(InArray(ctx, [], gap)), RBRACKET);
  }

  lemma RunEmptyObject(ctx: Context, gap: bytes)
    requires AllWs(gap)
    ensures Run(WantValue(ctx), Print(Object(gap, []))) == Done(ctx, Object(gap, []), [])
  {
    hide Run;
    var inside := WantName(ctx, [], []);
    RunWs(inside, gap);
    assert [] + gap == gap;
    assert Print(Object(gap, [])) == [LBRACE] + (gap + [RBRACE]);
    RunCons(WantValue(ctx), LBRACE, gap + [RBRACE]);
    RunAppend(inside, gap, [RBRACE]);
    RunOne(WantName(ctx, [], gap), RBRACE);
  }

  lemma {:induction false} RunArray(ctx: Context, items: seq<Padded>)
    requires items != [] && WellFormedItems(items)
    ensures Run(WantValue(ctx), Print(Array([], items))) == Done(ctx, Array([], items), [])
    decreases items, 4
  {
    hide Run, PrintPadded, PrintItems, WellFormedPadded;
    var inside := WantValue(InArray(ctx, [], []));
    var n := |items| - 1;
    var init, last := items[..n], items[n];
    RunItems(ctx, init);
    RunPadded(InArray(ctx, init, []), last, RBRACKET);
    assert init + [last] == items;
    var tail := PrintPadded(last) + [RBRACKET];
    assert Print(Array([], items)) == [LBRACKET] + (PrintItems(init) + tail);
    RunCons(WantValue(ctx), LBRACKET, PrintItems(init) + tail);
    RunAppend(inside, PrintItems(init), tail);
  }

  lemma {:induction false} RunObject(ctx: Context, members: seq<Member>)
    requires members != [] && WellFormedMembers(members)
    ensures Run(WantValue(ctx), Print(Object([], members))) == Done(ctx, Object([], members), [])
    decreases members, 4
  {
    hide Run, PrintMember, PrintMembers, WellFormedMember;
    var inside := WantName(ctx, [], []);
    var n := |members| - 1;
    var init, last := members[..n], members[n];
    RunMembers(ctx, init);
    RunMember(ctx, init, last, RBRACE);
    assert init + [last] == members;
    var tail := PrintMember(last) + [RBRACE];
    assert Print(Object([], members)) == [LBRACE] + (PrintMembers(init) + tail);
    RunCons(WantValue(ctx), LBRACE, PrintMembers(init) + tail);
    RunAppend(inside, PrintMembers(init), tail);
    assert Padded(last.field.before, last.field.value, last.field.after) == last.field;
  }

  /** A padded value and the delimiter after it, from just before the value. */
  lemma {:induction false} RunPadded(ctx: Context, p: Padded, b: byte)
    requires ctx.before == [] && WellFormedPadded(p) && IsDelimiter(b)
    ensures Run(WantValue(ctx), PrintPadded(p) + [b]) == FeedDone(SetBefore(ctx, p.before), p.value, p.after, b)
    decreases p, 2
  {
    hide Run;
    var here := SetBefore(ctx, p.before);
    RunWs(WantValue(ctx), p.before);
    assert [] + p.before == p.before;
    RunValue(here, p.value);
    var read := Run(WantValue(here), Print(p.value));
    var rest := p.after + [b];
    assert PrintPadded(p) + [b] == p.before + (Print(p.value) + rest);
    RunAppend(WantValue(ctx), p.before, Print(p.value) + rest);
    RunAppend(WantValue(here), Print(p.value), rest);
    SettleRun(read, rest);
    RunWs(Done(here, p.value, []), p.after);
    assert [] + p.after == p.after;
    RunAppend(Done(here, p.value, []), p.after, [b]);
    RunOne(Done(here, p.value, p.after), b);
  }

  lemma {:induction false} RunMember(ctx: Context, members: seq<Member>, m: Member, b: byte)
    requires WellFormedMember(m) && IsDelimiter(b)
    ensures Run(WantName(ctx, members, []), PrintMember(m) + [b]) ==
            FeedDone(InObject(ctx, members, m.before, m.name, m.colonGap, m.field.before), m.field.value, m.field.after, b)
    decreases m, 3
  {
    hide Run;
    var head := m.before + Quoted(m.name) + m.colonGap + [COLON];
    RunColon(ctx, members, m);
    RunPadded(InObject(ctx, members, m.before, m.name, m.colonGap, []), m.field, b);
    assert PrintMember(m) + [b] == head + (PrintPadded(m.field) + [b]);
    RunAppend(WantName(ctx, members, []), head, PrintPadded(m.field) + [b]);
  }

  lemma {:induction false} RunItems(ctx: Context, items: seq<Padded>)
    requires WellFormedItems(items)
    ensures Run(WantValue(InArray(ctx, [], [])), PrintItems(items)) == WantValue(InArray(ctx, items, []))
    decreases items, 0
  {
    hide Run;
    RunNone(WantValue(InArray(ctx, [], [])));
    if items != [] {
      var n := |items| - 1;
      RunItems(ctx, items[..n]);
      RunPadded(InArray(ctx, items[..n], []), items[n], COMMA);
      assert items == items[..n] + [items[n]];
      var tail := PrintPadded(items[n]) + [COMMA];
      assert PrintItems(items) == PrintItems(items[..n]) + tail;
      RunAppend(WantValue(InArray(ctx, [], [])), PrintItems(items[..n]), tail);
    }
  }

  lemma {:induction false} RunMembers(ctx: Context, members: seq<Member>)
    requires WellFormedMembers(members)
    ensures Run(WantName(ctx, [], []), PrintMembers(members)) == WantName(ctx, members, [])
    decreases members, 0
  {
    hide Run;
    RunNone(WantName(ctx, [], []));
    if members != [] {
      var n := |members| - 1;
      RunMembers(ctx, members[..n]);
      RunMember(ctx, members[..n], members[n], COMMA);
      assert members == members[..n] + [members[n]];
      var tail := PrintMember(members[n]) + [COMMA];
      assert PrintMembers(members) == PrintMembers(members[..n]) + tail;
      RunAppend(WantName(ctx, [], []), PrintMembers(members[..n]), tail);
    }
  }

  lemma ParseComplete(p: Padded)
    requires WellFormedPadded(p)
    ensures Parse(PrintPadded(p)) == Some(p)
  {
    hide Run;
    RunWs(START, p.before);
    assert [] + p.before == p.before;
    var here := Top(p.before);
    RunValue(here, p.value);
    var read := Run(WantValue(here), Print(p.value));
    assert PrintPadded(p) == p.before + (Print(p.value) + p.after);
    RunAppend(START, p.before, Print(p.value) + p.after);
    RunAppend(WantValue(here), Print(p.value), p.after);
    SettleRun(read, p.after);
    RunWs(Done(here, p.value, []), p.after);
    assert [] + p.after == p.after;
  }

  /** The parser decides exactly the grammar, and the tree of a text is unique. */
  lemma ParserExact(s: bytes, p: Padded)
    ensures Parse(s) == Some(p) <==> WellFormedPadded(p) && PrintPadded(p) == s
  {
    if Parse(s) == Some(p) {
      ParseSound(s);
    }
    if WellFormedPadded(p) {
      ParseComplete(p);
    }
  }
}
