/**
 The fast path of query.go: adding one member to a JSON object by editing its
 bytes, and why that is the same as decoding, updating and encoding.
 */
module HeaderSplice {
  import opened Prelude
  import opened JsonGrammar
  import opened JsonParser
  import opened JsonMeaning
  import opened SpaceTrimming

  // ---------- injectJSONKey ----------

  /** The bytes the splice works on: the trimmed input, a blank one standing for {}. */
  function Trimmed(input: bytes): bytes {
    if TrimSpace(input) == [] then EMPTY_OBJECT else TrimSpace(input)
  }

  predicate Splices(input: bytes, key: bytes) {
    var trimmed := Trimmed(input);
    && |trimmed| >= 2 && trimmed[0] == LBRACE && trimmed[|trimmed| - 1] == RBRACE
    && !Contains(trimmed, Quoted(key))
  }

  /** Between the braces, before and after trimming. */
  function Inside(input: bytes): bytes
    requires |Trimmed(input)| >= 2
  {
    Trimmed(input)[1..|Trimmed(input)| - 1]
  }

  function Body(input: bytes): bytes
    requires |Trimmed(input)| >= 2
  {
    TrimSpace(Inside(input))
  }

  function Splice(input: bytes, key: bytes, value: bytes): Option<bytes> {
    if !Splices(input, key) then None
    else
      var body := Body(input);
      Some((if body == [] then [LBRACE] else [LBRACE] + body + [COMMA]) + Quoted(key) + [COLON] + value + [RBRACE])
  }

  method InjectJSONKey(input: bytes, key: bytes, value: bytes) returns (out: bytes, ok: bool)
    ensures ok <==> Splice(input, key, value).Some?
    ensures out == if ok then Splice(input, key, value).value else []
  {
    hide TrimSpace, Contains;
    var trimmed := TrimSpace(input);
    if |trimmed| == 0 {
      trimmed := EMPTY_OBJECT;
    }
    if |trimmed| < 2 || trimmed[0] != LBRACE || trimmed[|trimmed| - 1] != RBRACE {
      return [], false;
    }
    var keyToken := [QUOTE];
    keyToken := keyToken + key;
    keyToken := keyToken + [QUOTE];
    if Contains(trimmed, keyToken) {
      return [], false;
    }
    var body := TrimSpace(trimmed[1..|trimmed| - 1]);
    var buf := [LBRACE];
    if |body| > 0 {
      buf := buf + body;
      buf := buf + [COMMA];
    }
    buf := buf + keyToken;
    buf := buf + [COLON];
    buf := buf + value;
    buf := buf + [RBRACE];
    return buf, true;
  }

  lemma ContainsIn(a: bytes, part: bytes, b: bytes)
    ensures Contains(a + part + b, part)
  {
    assert (a + part + b)[|a|..] == part + b;
  }

  lemma ContainsWider(a: bytes, s: bytes, b: bytes, part: bytes)
    requires Contains(s, part)
    ensures Contains(a + s + b, part)
  {
    var i :| 0 <= i <= |s| && part <= s[i..];
    assert (a + s + b)[|a| + i..] == s[i..] + b;
  }

  lemma ContainsDropLast(s: bytes, b: byte, part: bytes)
    requires Contains(s + [b], part) && part != [] && part[|part| - 1] != b
    ensures Contains(s, part)
  {
    var i :| 0 <= i <= |s| + 1 && part <= (s + [b])[i..];
    var rest := (s + [b])[i..];
    assert rest[|part| - 1] == part[|part| - 1];
    assert i + |part| <= |s|;
    assert rest[..|part|] == s[i..][..|part|];
  }

  lemma ContainsDropFirst(b: byte, s: bytes, part: bytes)
    requires Contains([b] + s, part) && part != [] && part[0] != b
    ensures Contains(s, part)
  {
    var i :| 0 <= i <= |s| + 1 && part <= ([b] + s)[i..];
    assert ([b] + s)[i..][0] == part[0];
    assert i > 0 && ([b] + s)[i..] == s[i - 1..];
  }

  predicate Braced(s: bytes) {
    |s| >= 2 && s[0] == LBRACE && s[|s| - 1] == RBRACE
  }

  lemma BracedIsTrimmed(s: bytes)
    requires Braced(s)
    ensures Trimmed(s) == s && !IsBlank(s)
  {
    assert LeadingRune(s) == 0 && TrailingRune(s) == 0;
    assert s[0..] == s;
  }

  // ---------- the parser across the splice point ----------

  /** A member name as written in the text: it begins with a letter. */
  predicate IsKey(key: bytes) {
    IsContent(key) && key != [] && (0x41 <= key[0] <= 0x5A || 0x61 <= key[0] <= 0x7A)
  }

  /** The state in which a value of the outermost object has just been read. */
  predicate AfterMember(st: State) {
    Settle(st).Done? && Settle(st).ctx.InObject?
  }

  /** The members the innermost open object has, counting the one just read. */
  function MembersSoFar(st: State): seq<Member>
    requires AfterMember(st)
  {
    var done := Settle(st);
    var ctx := done.ctx;
    ctx.members + [Member(ctx.memberBefore, ctx.name, ctx.colonGap, Padded(ctx.before, done.value, done.after))]
  }

  /** Inside a string no quote means no end: the text cannot be accepted. */
  lemma {:induction false} NoQuoteNoEnd(st: State, s: bytes)
    requires st.InString? || st.InName? || st.Fail?
    requires forall i :: 0 <= i < |s| ==> s[i] != QUOTE
    ensures Finish(Run(st, s)).None?
    decreases |s|
  {
    if s != [] {
      NoQuoteNoEnd(Feed(st, s[0]), s[1..]);
    }
  }

  /** A string that swallows the comma and ends at the key's first quote meets the key's letter, and fails. */
  lemma CommaInString(st: State, key: bytes, rest: bytes)
    requires st.InString? || st.InName?
    requires IsKey(key)
    ensures Run(st, [COMMA] + Quoted(key) + rest) == Fail
  {
    hide Run;
    var tail := key[1..] + [QUOTE] + rest;
    assert [COMMA] + Quoted(key) + rest == [COMMA] + ([QUOTE] + ([key[0]] + tail));
    RunCons(st, COMMA, [QUOTE] + ([key[0]] + tail));
    var st1 := Feed(st, COMMA);
    RunCons(st1, QUOTE, [key[0]] + tail);
    var st2 := Feed(st1, QUOTE);
    RunCons(st2, key[0], tail);
    CommaIsPlain(if st.InString? then st.content else st.name);
    RunFail(tail);
  }

  lemma CommaIsPlain(content: bytes)
    ensures ContentPrefix(content + [COMMA]).Some? ==> IsContent(content + [COMMA])
  {
    assert (content + [COMMA])[..|content|] == content;
  }

  /** `,"key":` leads on only from just after a member. */
  lemma CommaKeyColon(st: State, key: bytes)
    requires IsKey(key)
    ensures Run(st, [COMMA] + Quoted(key) + [COLON]) ==
            if AfterMember(st) then WantValue(InObject(Settle(st).ctx.outer, MembersSoFar(st), [], key, [], []))
            else Fail
  {
    hide Run;
    var s := Quoted(key) + [COLON];
    assert [COMMA] + Quoted(key) + [COLON] == [COMMA] + s;
    if st.InString? || st.InName? {
      CommaInString(st, key, [COLON]);
    } else {
      RunCons(st, COMMA, s);
      SettleFeed(st, COMMA);
      var done := Settle(st);
      if AfterMember(st) {
        var m := Member([], key, [], Padded([], Literal(NullWord), []));
        RunColon(done.ctx.outer, MembersSoFar(st), m);
        assert m.before + Quoted(m.name) + m.colonGap + [COLON] == s;
      } else if done.Done? && done.ctx.InArray? {
        var next := Feed(st, COMMA);
        RunText(next.ctx, key);
        RunAppend(next, Quoted(key), [COLON]);
        RunOne(Done(next.ctx, Text(key), []), COLON);
      } else {
        RunFail(s);
      }
    }
  }

  /** The spliced tail is accepted exactly from just after a member of the outermost object. */
  lemma SplicedTail(st: State, key: bytes, value: bytes)
    requires IsKey(key) && Parse(value).Some?
    ensures var end := Finish(Run(st, [COMMA] + Quoted(key) + [COLON] + value + [RBRACE]));
      && (end.Some? <==> AfterMember(st) && Settle(st).ctx.outer.Top?)
      && (end.Some? ==> end.value.value == Object([], MembersSoFar(st) + [Member([], key, [], Parse(value).value)]))
  {
    hide Run, Feed;
    var link := [COMMA] + Quoted(key) + [COLON];
    CommaKeyColon(st, key);
    assert link + value + [RBRACE] == link + (value + [RBRACE]);
    RunAppend(st, link, value + [RBRACE]);
    if AfterMember(st) {
      ParseSound(value);
      RunPadded(InObject(Settle(st).ctx.outer, MembersSoFar(st), [], key, [], []), Parse(value).value, RBRACE);
    } else {
      RunFail(value + [RBRACE]);
    }
  }

  /** How a closing brace and white space end a text read up to `st`. */
  predicate ClosesObject(st: State) {
    || (AfterMember(st) && Settle(st).ctx.outer.Top?)
    || (st.WantName? && st.members == [] && st.ctx.Top?)
  }

  /** With only JSON white space around it, the original closing brace is accepted in just those states. */
  lemma PlainTail(st: State, gap: bytes, post: bytes)
    requires AllWs(gap) && AllWs(post)
    ensures var end := Finish(Run(st, gap + [RBRACE] + post));
      && (end.Some? <==> ClosesObject(st))
      && (end.Some? && AfterMember(st) ==> Lean(end.value.value) == Object([], LeanMembers(MembersSoFar(st))))
  {
    hide Run, LeanMembers, Lean;
    var s := gap + [RBRACE] + post;
    assert s == gap + ([RBRACE] + post);
    if st.InString? || st.InName? {
      NoQuoteNoEnd(st, s);
    } else if st.InWord? || st.Fail? || (st.InNumber? && !IsNumber(st.token)) {
      DelimiterFails(st, s[0]);
      RunFail(s[1..]);
      assert s == [s[0]] + s[1..];
      RunCons(st, s[0], s[1..]);
    } else {
      SettleRun(st, s);
      SettledTail(Settle(st), gap, post);
    }
  }

  lemma SettledTail(st: State, gap: bytes, post: bytes)
    requires AllWs(gap) && AllWs(post) && BetweenTokens(st)
    ensures var end := Finish(Run(st, gap + [RBRACE] + post));
      && (end.Some? <==> ClosesObject(st))
      && (end.Some? && AfterMember(st) ==> Lean(end.value.value) == Object([], LeanMembers(MembersSoFar(st))))
  {
    hide Run, LeanMembers;
    CloseBrace(st, gap, post);
    if AfterMember(st) {
      LeanMemberGap(st, gap);
    }
  }

  lemma CloseBrace(st: State, gap: bytes, post: bytes)
    requires AllWs(gap) && AllWs(post)
    requires BetweenTokens(st)
    ensures Run(st, gap + [RBRACE] + post) ==
            if AfterMember(st) then Done(st.ctx.outer, Object([], MembersSoFar(st.(after := st.after + gap))), post)
            else if st.WantName? && st.members == [] then Done(st.ctx, Object(st.before + gap, []), post)
            else Fail
  {
    hide Run, AllWs, Feed;
    assert gap + [RBRACE] + post == gap + ([RBRACE] + post);
    RunAppend(st, gap, [RBRACE] + post);
    RunWs(st, gap);
    RunCons(Run(st, gap), RBRACE, post);
    FeedBrace(st, gap);
    var closed := Feed(AddWs(st, gap), RBRACE);
    if closed.Done? {
      RunWs(closed, post);
      assert [] + post == post;
    } else {
      RunFail(post);
    }
  }

  lemma FeedBrace(st: State, gap: bytes)
    requires BetweenTokens(st)
    ensures Feed(AddWs(st, gap), RBRACE) ==
            if AfterMember(st) then Done(st.ctx.outer, Object([], MembersSoFar(st.(after := st.after + gap))), [])
            else if st.WantName? && st.members == [] then Done(st.ctx, Object(st.before + gap, []), [])
            else Fail
  {
  }

  lemma LeanMemberGap(st: State, gap: bytes)
    requires AfterMember(st) && st.Done?
    ensures AfterMember(st.(after := st.after + gap))
    ensures LeanMembers(MembersSoFar(st.(after := st.after + gap))) == LeanMembers(MembersSoFar(st))
  {
    var ctx := st.ctx;
    var m := Member(ctx.memberBefore, ctx.name, ctx.colonGap, Padded(ctx.before, st.value, st.after));
    var m' := m.(field := Padded(ctx.before, st.value, st.after + gap));
    assert LeanPadded(m.field) == LeanPadded(m'.field);
    assert LeanMember(m) == LeanMember(m');
    LeanField(ctx.members, ctx.members, m, m');
  }

  lemma DelimiterFails(st: State, b: byte)
    requires st.InWord? || st.Fail? || (st.InNumber? && !IsNumber(st.token))
    requires IsDelimiter(b)
    ensures Feed(st, b) == Fail
  {
    if st.InNumber? {
      assert (st.token + [b])[..|st.token|] == st.token;
    }
  }

  /** Outside a string, white space that JSON does not know stops the parser. */
  lemma {:induction false} StraySpace(st: State, s: bytes)
    requires !st.InString? && !st.InName?
    requires AllSpace(s) && !AllWs(s)
    ensures Run(st, s) == Fail
    decreases |s|
  {
    if IsWs(s[0]) {
      assert !AllWs(s[1..]) by {
        assert s == [s[0]] + s[1..];
      }
      StraySpace(Feed(st, s[0]), s[1..]);
    } else {
      StrayByte(st, s[0]);
      RunFail(s[1..]);
    }
  }

  lemma StrayByte(st: State, b: byte)
    requires !st.InString? && !st.InName?
    requires IsSpaceByte(b) && !IsWs(b)
    ensures Feed(st, b) == Fail
  {
    if st.InNumber? {
      assert (st.token + [b])[..|st.token|] == st.token;
    }
  }

  /** Trimmed white space is harmless exactly when JSON knows it. */
  lemma StrayTail(st: State, gap: bytes, post: bytes)
    requires AllSpace(gap) && AllSpace(post) && !(AllWs(gap) && AllWs(post))
    ensures Finish(Run(st, gap + [RBRACE] + post)).None?
  {
    hide Run;
    var s := gap + [RBRACE] + post;
    assert s == gap + ([RBRACE] + post);
    if st.InString? || st.InName? {
      NoQuoteNoEnd(st, s);
    } else if !AllWs(gap) {
      RunAppend(st, gap, [RBRACE] + post);
      StraySpace(st, gap);
      RunFail([RBRACE] + post);
    } else {
      RunAppend(st, gap, [RBRACE] + post);
      OutOfString(st, gap);
      RunCons(Run(st, gap), RBRACE, post);
      StraySpace(Feed(Run(st, gap), RBRACE), post);
    }
  }

  lemma {:induction false} OutOfString(st: State, s: bytes)
    requires !st.InString? && !st.InName? && AllWs(s)
    ensures !Run(st, s).InString? && !Run(st, s).InName?
    decreases |s|
  {
    if s != [] {
      OutOfString(Feed(st, s[0]), s[1..]);
    }
  }

  /** The state after `{` and a body read with no white space around. */
  function Inner(body: bytes): State {
    Run(WantName(Top([]), [], []), body)
  }

  lemma BodyIsNotBlank(lead: bytes, gap: bytes, body: bytes)
    requires AllWs(lead) && AllWs(gap) && body != [] && !IsWs(body[0])
    ensures var st := Run(WantName(Top(lead), [], gap), body);
      !(st.WantName? && st.members == [] && st.ctx.Top?)
  {
    hide Run, Consumed, LeanState;
    var from := WantName(Top(lead), [], gap);
    var st := Run(from, body);
    if st.WantName? && st.members == [] && st.ctx.Top? {
      RunConsumes(from, body);
      ObjectOpened(lead, gap);
      ObjectOpened(st.ctx.before, st.before);
      assert lead + [LBRACE] + gap + body == lead + [LBRACE] + (gap + body);
      BraceIsAligned(lead, gap + body, st.ctx.before, st.before);
      NotBlank(gap, body);
      assert false;
    }
  }

  lemma ObjectOpened(lead: bytes, gap: bytes)
    ensures Consumed(WantName(Top(lead), [], gap)) == lead + [LBRACE] + gap
  {
    assert PrintMembers([]) == [];
    assert Before(Top(lead)) == lead;
    assert lead + [LBRACE] + [] == lead + [LBRACE];
  }

  lemma NotBlank(gap: bytes, body: bytes)
    requires body != [] && !IsWs(body[0])
    ensures !AllWs(gap + body)
  {
    assert (gap + body)[|gap|] == body[0];
  }

  lemma BraceIsAligned(a: bytes, b: bytes, c: bytes, d: bytes)
    requires AllWs(a) && AllWs(c)
    requires a + [LBRACE] + b == c + [LBRACE] + d
    ensures b == d
  {
    var s, t := a + [LBRACE] + b, c + [LBRACE] + d;
    assert s[|a|] == LBRACE && t[|c|] == LBRACE;
    assert forall i :: 0 <= i < |a| ==> s[i] == a[i];
    assert forall i :: 0 <= i < |c| ==> t[i] == c[i];
    assert |a| == |c|;
    assert s[|a| + 1..] == b && t[|c| + 1..] == d;
  }

  lemma SameAfterMember(st: State, st': State)
    requires LeanState(st) == LeanState(st')
    ensures AfterMember(st) == AfterMember(st')
    ensures AfterMember(st) ==> Settle(st).ctx.outer.Top? == Settle(st').ctx.outer.Top?
    ensures AfterMember(st) ==> LeanMembers(MembersSoFar(st)) == LeanMembers(MembersSoFar(st'))
  {
    if AfterMember(st) {
      SameDone(Settle(st).ctx, Settle(st').ctx);
      var a, b := Settle(st), Settle(st');
      SameMembers(a.ctx, b.ctx, Padded(a.ctx.before, a.value, a.after), Padded(b.ctx.before, b.value, b.after));
    }
  }

  lemma SameDone(ctx: Context, ctx': Context)
    requires LeanContext(ctx) == LeanContext(ctx') && ctx.InObject?
    ensures ctx'.InObject? && ctx.outer.Top? == ctx'.outer.Top?
    ensures LeanMembers(ctx.members) == LeanMembers(ctx'.members) && ctx.name == ctx'.name
  {
    assert LeanContext(ctx.outer) == LeanContext(ctx'.outer);
  }

  lemma SameMembers(ctx: Context, ctx': Context, p: Padded, p': Padded)
    requires ctx.InObject? && ctx'.InObject? && Lean(p.value) == Lean(p'.value)
    requires LeanMembers(ctx.members) == LeanMembers(ctx'.members) && ctx.name == ctx'.name
    ensures LeanMembers(ctx.members + [Member(ctx.memberBefore, ctx.name, ctx.colonGap, p)]) ==
            LeanMembers(ctx'.members + [Member(ctx'.memberBefore, ctx'.name, ctx'.colonGap, p')])
  {
    var m := Member(ctx.memberBefore, ctx.name, ctx.colonGap, p);
    var m' := Member(ctx'.memberBefore, ctx'.name, ctx'.colonGap, p');
    assert LeanPadded(p) == LeanPadded(p');
    assert LeanMember(m) == LeanMember(m');
    LeanField(ctx.members, ctx'.members, m, m');
  }

  /** An object text cut into a non-blank body and the white space around it. */
  lemma PlainParse(lead: bytes, open: bytes, body: bytes, close: bytes, trail: bytes)
    requires AllSpace(lead) && AllSpace(open) && AllSpace(close) && AllSpace(trail)
    requires body != [] && !IsWs(body[0])
    ensures var p := Parse(lead + [LBRACE] + open + body + close + [RBRACE] + trail);
      && (p.Some? <==> AllWs(lead) && AllWs(open) && AllWs(close) && AllWs(trail)
                       && AfterMember(Inner(body)) && Settle(Inner(body)).ctx.outer.Top?)
      && (p.Some? ==> Lean(p.value.value) == Object([], LeanMembers(MembersSoFar(Inner(body)))))
  {
    hide Run, AllSpace, Lean, LeanMembers, MembersSoFar, AfterMember, Inner;
    var tail := close + [RBRACE] + trail;
    var rest := open + (body + tail);
    NestRight(lead, open, body, close, trail);
    RunAppend(START, lead, [LBRACE] + rest);
    if !AllWs(lead) {
      StraySpace(START, lead);
      RunFail([LBRACE] + rest);
    } else {
      RunWs(START, lead);
      assert [] + lead == lead;
      RunCons(WantValue(Top(lead)), LBRACE, rest);
      ParseFromOpen(lead, open, body, close, trail);
    }
  }

  lemma NestRight(lead: bytes, open: bytes, body: bytes, close: bytes, trail: bytes)
    ensures lead + [LBRACE] + open + body + close + [RBRACE] + trail ==
            lead + ([LBRACE] + (open + (body + (close + [RBRACE] + trail))))
  {
  }

  /** The parse of what follows the opening brace. */
  lemma ParseFromOpen(lead: bytes, open: bytes, body: bytes, close: bytes, trail: bytes)
    requires AllWs(lead) && AllSpace(open) && AllSpace(close) && AllSpace(trail)
    requires body != [] && !IsWs(body[0])
    ensures var p := Finish(Run(WantName(Top(lead), [], []), open + (body + (close + [RBRACE] + trail))));
      && (p.Some? <==> AllWs(open) && AllWs(close) && AllWs(trail)
                       && AfterMember(Inner(body)) && Settle(Inner(body)).ctx.outer.Top?)
      && (p.Some? ==> Lean(p.value.value) == Object([], LeanMembers(MembersSoFar(Inner(body)))))
  {
    hide Run, AllSpace, IsWs, Lean, LeanMembers, MembersSoFar, AfterMember, Inner;
    var tail := close + [RBRACE] + trail;
    var st := WantName(Top(lead), [], []);
    RunAppend(st, open, body + tail);
    if !AllWs(open) {
      StraySpace(st, open);
      RunFail(body + tail);
    } else {
      RunWs(st, open);
      assert [] + open == open;
      RunAppend(WantName(Top(lead), [], open), body, tail);
      ParseFromBody(lead, open, body, close, trail);
    }
  }

  lemma ParseFromBody(lead: bytes, open: bytes, body: bytes, close: bytes, trail: bytes)
    requires AllWs(lead) && AllWs(open) && AllSpace(close) && AllSpace(trail)
    requires body != [] && !IsWs(body[0])
    ensures var p := Finish(Run(Run(WantName(Top(lead), [], open), body), close + [RBRACE] + trail));
      && (p.Some? <==> AllWs(close) && AllWs(trail)
                       && AfterMember(Inner(body)) && Settle(Inner(body)).ctx.outer.Top?)
      && (p.Some? ==> Lean(p.value.value) == Object([], LeanMembers(MembersSoFar(Inner(body)))))
  {
    hide Run;
    var st := Run(WantName(Top(lead), [], open), body);
    LeanRun(WantName(Top(lead), [], open), WantName(Top([]), [], []), body);
    SameAfterMember(st, Inner(body));
    BodyIsNotBlank(lead, open, body);
    if AllWs(close) && AllWs(trail) {
      PlainTail(st, close, trail);
    } else {
      StrayTail(st, close, trail);
    }
  }

  // ---------- the splice is a map update ----------

  /** Every byte trimming takes off the input is white space that JSON knows. */
  predicate OnlyJsonSpace(input: bytes)
    requires |Trimmed(input)| >= 2
  {
    AllWs(Lead(input)) && AllWs(Trail(input)) && AllWs(Lead(Inside(input))) && AllWs(Trail(Inside(input)))
  }

  predicate IsBlank(input: bytes) {
    TrimSpace(input) == []
  }

  lemma SpliceOfEmptyBody(key: bytes, value: bytes)
    requires IsKey(key) && Parse(value).Some?
    ensures Parse([LBRACE] + Quoted(key) + [COLON] + value + [RBRACE]) ==
            Some(Padded([], Object([], [Member([], key, [], Parse(value).value)]), []))
  {
    hide Run;
    ParseSound(value);
    var m := Member([], key, [], Parse(value).value);
    var p := Padded([], Object([], [m]), []);
    assert WellFormedPadded(m.field);
    assert WellFormedMember(m);
    assert WellFormedMembers([m]);
    assert WellFormed(p.value);
    assert [m][..0] == [] && PrintMembers([]) == [];
    assert PrintMember(m) == Quoted(key) + [COLON] + value;
    assert Print(p.value) == [LBRACE] + [] + PrintMember(m) + [RBRACE];
    assert PrintPadded(p) == [LBRACE] + Quoted(key) + [COLON] + value + [RBRACE];
    ParseComplete(p);
  }

  /** `input`, if not blank, is its body with trimmed white space and braces around it. */
  lemma InputParts(input: bytes)
    requires !IsBlank(input) && |Trimmed(input)| >= 2
    requires Trimmed(input)[0] == LBRACE && Trimmed(input)[|Trimmed(input)| - 1] == RBRACE
    ensures var inside := Inside(input);
      input == Lead(input) + [LBRACE] + Lead(inside) + Body(input) + Trail(inside) + [RBRACE] + Trail(input)
  {
    hide LeadingSpace, TrailingSpace;
    var inside := Inside(input);
    TrimSpaceParts(input);
    TrimSpaceParts(inside);
    BracesAround(Trimmed(input));
    Nest(input, Lead(input), TrimSpace(input), Trail(input), inside, Lead(inside), Body(input), Trail(inside));
  }

  lemma BracesAround(s: bytes)
    requires |s| >= 2 && s[0] == LBRACE && s[|s| - 1] == RBRACE
    ensures s == [LBRACE] + s[1..|s| - 1] + [RBRACE]
  {
  }

  lemma Nest(input: bytes, lead: bytes, mid: bytes, trail: bytes, inside: bytes, open: bytes, body: bytes, close: bytes)
    requires input == lead + mid + trail && mid == [LBRACE] + inside + [RBRACE] && inside == open + body + close
    ensures input == lead + [LBRACE] + open + body + close + [RBRACE] + trail
  {
    Unnest(lead, open, body, close, trail);
  }

  lemma Unnest(lead: bytes, open: bytes, body: bytes, close: bytes, trail: bytes)
    ensures lead + ([LBRACE] + (open + body + close) + [RBRACE]) + trail ==
            lead + [LBRACE] + open + body + close + [RBRACE] + trail
    ensures body == [] ==> lead + [LBRACE] + open + body + close + [RBRACE] + trail ==
                           lead + [LBRACE] + (open + close) + [RBRACE] + trail
  {
  }

  /** Up to white space, `now` is the object `before` with one more member at the end. */
  predicate AddsMember(before: Json, now: Json, m: Member) {
    before.Object? && now.Object? && LeanMembers(now.members) == LeanMembers(before.members) + [LeanMember(m)]
  }

  /**
   The splice neither breaks nor rescues an object: the input is a JSON text
   exactly when the output is and trimming removed only JSON white space. The
   members of the output are those of the input and the new one, in order.
   */
  lemma SpliceParses(input: bytes, key: bytes, value: bytes)
    requires IsKey(key) && Parse(value).Some?
    requires Splices(input, key) && !IsBlank(input)
    ensures var p, q := Parse(input), Parse(Splice(input, key, value).value);
      && (p.Some? <==> q.Some? && OnlyJsonSpace(input))
      && (p.Some? ==> AddsMember(p.value.value, q.value.value, Member([], key, [], Parse(value).value)))
  {
    hide Run, Parse, LeadingSpace, TrailingSpace;
    InputParts(input);
    TrimSpaceParts(input);
    TrimSpaceParts(Inside(input));
    SplitParses(Lead(input), Lead(Inside(input)), Body(input), Trail(Inside(input)), Trail(input), key, value);
  }

  /** The bytes of the input the splice keeps, in braces. */
  function Core(input: bytes): bytes
    requires |Trimmed(input)| >= 2
  {
    [LBRACE] + Body(input) + [RBRACE]
  }

  /** What comes out is a JSON text exactly when what is kept of the input is one. */
  lemma SpliceValidExactly(input: bytes, key: bytes, value: bytes)
    requires IsKey(key) && Parse(value).Some?
    requires Splices(input, key)
    ensures Parse(Splice(input, key, value).value).Some? <==> Parse(Core(input)).Some?
  {
    hide Run, Parse, TrimSpace, LeadingSpace, TrailingSpace, Contains;
    var body := Body(input);
    TrimSpaceParts(Inside(input));
    SplitParses([], [], body, [], [], key, value);
    assert [] + [LBRACE] + [] + body + [] + [RBRACE] + [] == Core(input);
  }

  /**
   The splice makes a JSON text of one that is none exactly when what it keeps
   is one and the input is blank or lost white space that JSON does not know.
   */
  lemma RescuesExactly(input: bytes, key: bytes, value: bytes)
    requires IsKey(key) && Parse(value).Some?
    requires Splices(input, key)
    ensures Parse(input).None? && Parse(Splice(input, key, value).value).Some? <==>
            Parse(Core(input)).Some? && (IsBlank(input) || !OnlyJsonSpace(input))
  {
    hide Run, Parse, LeadingSpace, TrailingSpace, Contains;
    SpliceValidExactly(input, key, value);
    if IsBlank(input) {
      BlankIsSpace(input);
      BlankIsNotJson(input);
    } else {
      SpliceParses(input, key, value);
    }
  }

  /** A vertical tab before {} is such an input. */
  lemma VerticalTabIsRescued(key: bytes, value: bytes)
    requires IsKey(key) && Parse(value).Some?
    ensures var input := [0x0B] + EMPTY_OBJECT;
      && Splices(input, key) && Parse(input).None? && Parse(Splice(input, key, value).value).Some?
  {
    hide Run, Parse;
    var input := [0x0B] + EMPTY_OBJECT;
    assert LeadingSpace(input) == 1 by {
      assert input[1..] == EMPTY_OBJECT;
      assert LeadingRune(EMPTY_OBJECT) == 0;
    }
    assert input[1..] == EMPTY_OBJECT;
    assert TrailingSpace(EMPTY_OBJECT) == 0;
    assert TrimSpace(input) == EMPTY_OBJECT;
    assert Inside(input) == [];
    BracesAlone(key);
    BlankObject([0x0B], [], []);
    assert [0x0B] + [LBRACE] + [] + [RBRACE] + [] == input;
    SpliceOfEmptyBody(key, value);
  }

  lemma BracesAlone(key: bytes)
    ensures !Contains(EMPTY_OBJECT, Quoted(key))
  {
    forall i | 0 <= i <= 2
      ensures !(Quoted(key) <= EMPTY_OBJECT[i..])
    {
      if i < 2 {
        assert EMPTY_OBJECT[i..][0] == EMPTY_OBJECT[i] != QUOTE;
      }
    }
  }

  /** The same for an input already cut into its body and the white space around it. */
  lemma SplitParses(lead: bytes, open: bytes, body: bytes, close: bytes, trail: bytes, key: bytes, value: bytes)
    requires IsKey(key) && Parse(value).Some?
    requires AllSpace(lead) && AllSpace(open) && AllSpace(close) && AllSpace(trail)
    requires body != [] ==> !IsWs(body[0])
    ensures var p := Parse(lead + [LBRACE] + open + body + close + [RBRACE] + trail);
      var q := Parse((if body == [] then [LBRACE] else [LBRACE] + body + [COMMA]) + Quoted(key) + [COLON] + value + [RBRACE]);
      && (p.Some? <==> q.Some? && AllWs(lead) && AllWs(open) && AllWs(close) && AllWs(trail))
      && (p.Some? ==> AddsMember(p.value.value, q.value.value, Member([], key, [], Parse(value).value)))
  {
    hide Run, Parse;
    if body == [] {
      SpliceOfEmptyBody(key, value);
      Unnest(lead, open, body, close, trail);
      BlankObject(lead, open + close, trail);
      AddsFirst(open + close, Member([], key, [], Parse(value).value));
      AllWsAppend(open, close);
    } else {
      ParseBothWays(lead, open, body, close, trail, key, value);
    }
  }

  lemma AllWsAppend(a: bytes, b: bytes)
    ensures AllWs(a + b) <==> AllWs(a) && AllWs(b)
  {
    assert forall i :: 0 <= i < |a| ==> (a + b)[i] == a[i];
    assert forall i :: 0 <= i < |b| ==> (a + b)[|a| + i] == b[i];
  }

  lemma AddsFirst(gap: bytes, m: Member)
    ensures AddsMember(Object(gap, []), Object([], [m]), m)
  {
    LeanMembersSnoc([], m);
    assert [] + [m] == [m];
  }

  lemma ParseBothWays(lead: bytes, open: bytes, body: bytes, close: bytes, trail: bytes, key: bytes, value: bytes)
    requires IsKey(key) && Parse(value).Some?
    requires AllSpace(lead) && AllSpace(open) && AllSpace(close) && AllSpace(trail)
    requires body != [] && !IsWs(body[0])
    ensures var p := Parse(lead + [LBRACE] + open + body + close + [RBRACE] + trail);
      var q := Parse([LBRACE] + body + [COMMA] + Quoted(key) + [COLON] + value + [RBRACE]);
      && (p.Some? <==> q.Some? && AllWs(lead) && AllWs(open) && AllWs(close) && AllWs(trail))
      && (p.Some? ==> AddsMember(p.value.value, q.value.value, Member([], key, [], Parse(value).value)))
  {
    hide Run, Parse;
    PlainParse(lead, open, body, close, trail);
    SplicedParse(body, key, value);
    if AfterMember(Inner(body)) {
      LeanMembersSnoc(MembersSoFar(Inner(body)), Member([], key, [], Parse(value).value));
    }
  }

  lemma SplicedParse(body: bytes, key: bytes, value: bytes)
    requires IsKey(key) && Parse(value).Some?
    ensures var q := Parse([LBRACE] + body + [COMMA] + Quoted(key) + [COLON] + value + [RBRACE]);
      && (q.Some? <==> AfterMember(Inner(body)) && Settle(Inner(body)).ctx.outer.Top?)
      && (q.Some? ==> q.value.value == Object([], MembersSoFar(Inner(body)) + [Member([], key, [], Parse(value).value)]))
  {
    hide Run;
    var tail := [COMMA] + Quoted(key) + [COLON] + value + [RBRACE];
    assert [LBRACE] + body + [COMMA] + Quoted(key) + [COLON] + value + [RBRACE] == [LBRACE] + (body + tail);
    RunCons(START, LBRACE, body + tail);
    RunAppend(WantName(Top([]), [], []), body, tail);
    SplicedTail(Inner(body), key, value);
  }

  lemma BlankObject(lead: bytes, gap: bytes, trail: bytes)
    requires AllSpace(lead) && AllSpace(gap) && AllSpace(trail)
    ensures var p := Parse(lead + [LBRACE] + gap + [RBRACE] + trail);
      && (p.Some? <==> AllWs(lead) && AllWs(gap) && AllWs(trail))
      && (p.Some? ==> p.value.value == Object(gap, []))
  {
    hide Run;
    var rest := gap + [RBRACE] + trail;
    assert lead + [LBRACE] + gap + [RBRACE] + trail == lead + ([LBRACE] + rest);
    RunAppend(START, lead, [LBRACE] + rest);
    if !AllWs(lead) {
      StraySpace(START, lead);
      RunFail([LBRACE] + rest);
    } else {
      RunWs(START, lead);
      assert [] + lead == lead;
      RunCons(WantValue(Top(lead)), LBRACE, rest);
      var st := WantName(Top(lead), [], []);
      if AllWs(gap) && AllWs(trail) {
        CloseBrace(st, gap, trail);
        assert [] + gap == gap;
      } else {
        StrayTail(st, gap, trail);
      }
    }
  }

  /** For any input the splice takes, the output decodes to what is kept of it, in braces, with the key bound to the value. */
  lemma SpliceOfCore<N, S>(d: Decoder<N, S>, input: bytes, key: bytes, value: bytes)
    requires IsKey(key) && Decode(d, value).Some?
    requires Splices(input, key)
    ensures var before, now := Decode(d, Core(input)), Decode(d, Splice(input, key, value).value);
      && (before.Some? <==> now.Some?)
      && (before.Some? ==> before.value.Dict? && now == Some(Dict(before.value.entries[d.text(key) := Decode(d, value).value])))
  {
    hide Run, Parse, TrimSpace, LeadingSpace, TrailingSpace, Contains, LeanMembers, Meaning, IsKey;
    var body := Body(input);
    TrimSpaceParts(Inside(input));
    SplitParses([], [], body, [], [], key, value);
    assert [] + [LBRACE] + [] + body + [] + [RBRACE] + [] == Core(input);
    var p, q := Parse(Core(input)), Parse(Splice(input, key, value).value);
    if p.Some? {
      AddedMeaning(d, p.value.value, q.value.value, Member([], key, [], Parse(value).value));
    }
  }

  /**
   Decoding the splice of an object gives its map with the key bound to the
   value, even when an escaped spelling of the key is already there.
   */
  lemma SpliceUpdates<N, S>(d: Decoder<N, S>, input: bytes, key: bytes, value: bytes)
    requires IsKey(key) && Decode(d, value).Some?
    requires Splices(input, key)
    ensures var before, now := Decode(d, input), Decode(d, Splice(input, key, value).value);
      && (!IsBlank(input) ==> (before.Some? <==> now.Some? && OnlyJsonSpace(input)))
      && (before.Some? ==> before.value.Dict? && now == Some(Dict(before.value.entries[d.text(key) := Decode(d, value).value])))
      && (IsBlank(input) ==> before.None? && now == Some(Dict(map[d.text(key) := Decode(d, value).value])))
  {
    hide Run, Parse, Lead, Trail, TrimSpace, LeanMembers, MeaningMembers;
    if IsBlank(input) {
      SpliceOfBlank(d, input, key, value);
    } else {
      SpliceParses(input, key, value);
      var p, q := Parse(input), Parse(Splice(input, key, value).value);
      if q.Some? && OnlyJsonSpace(input) {
        AddedMeaning(d, p.value.value, q.value.value, Member([], key, [], Parse(value).value));
      }
    }
  }

  lemma SpliceOfBlank<N, S>(d: Decoder<N, S>, input: bytes, key: bytes, value: bytes)
    requires IsKey(key) && Decode(d, value).Some?
    requires Splices(input, key) && IsBlank(input)
    ensures Decode(d, input).None?
    ensures Decode(d, Splice(input, key, value).value) == Some(Dict(map[d.text(key) := Decode(d, value).value]))
  {
    hide Run, Parse, LeadingSpace, TrailingSpace;
    SpliceOfEmptyBody(key, value);
    var m := Member([], key, [], Parse(value).value);
    assert [m][..0] == [];
    assert MeaningMembers(d, [m]) == Some(map[d.text(key) := Decode(d, value).value]);
    BlankIsSpace(input);
    BlankIsNotJson(input);
  }

  lemma BlankIsSpace(input: bytes)
    requires IsBlank(input)
    ensures AllSpace(input)
  {
    hide LeadingSpace, TrailingSpace, IsSpaceByte;
    TrimSpaceParts(input);
    assert input == Lead(input) + Trail(input);
  }

  lemma AddedMeaning<N, S>(d: Decoder<N, S>, before: Json, now: Json, m: Member)
    requires AddsMember(before, now, m) && Meaning(d, m.field.value).Some?
    ensures Meaning(d, before).Some? <==> Meaning(d, now).Some?
    ensures Meaning(d, before).Some? ==> Meaning(d, before).value.Dict?
    ensures Meaning(d, before).Some? ==>
              Meaning(d, now) == Some(Dict(Meaning(d, before).value.entries[d.text(m.name) := Meaning(d, m.field.value).value]))
  {
    LeanMeaningMembers(d, before.members);
    LeanMeaningMembers(d, now.members);
    LeanMeaning(d, m.field.value);
    var ms := LeanMembers(before.members);
    assert (ms + [LeanMember(m)])[..|ms|] == ms;
  }

  lemma BlankIsNotJson(input: bytes)
    requires AllSpace(input)
    ensures Parse(input).None?
  {
    if AllWs(input) {
      RunWs(START, input);
    } else {
      StraySpace(START, input);
    }
  }
}
