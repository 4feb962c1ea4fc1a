/** Which inputs the splice of query.go takes, and what it makes of them, told without its trimming. */
module SpliceInputs {
  import opened Prelude
  import opened JsonGrammar
  import opened SpaceTrimming
  import opened HeaderSplice

  /** White space around braces. */
  ghost predicate IsCut(input: bytes, lead: bytes, core: bytes, trail: bytes) {
    input == lead + core + trail && SpaceText(lead) && SpaceText(trail) && Braced(core)
  }

  lemma BracedEnds(core: bytes)
    requires Braced(core)
    ensures !BeginsWithSpace(core) && !EndsWithSpace(core)
  {
    LeadingRuneExactly(core);
    TrailingRuneExactly(core);
  }

  lemma CutIsTrimmed(input: bytes, lead: bytes, core: bytes, trail: bytes)
    requires IsCut(input, lead, core, trail)
    ensures Trimmed(input) == core
  {
    hide SpaceText, BeginsWithSpace, EndsWithSpace, TrimSpace;
    BracedEnds(core);
    TrimSpaceUnique(lead, core, trail);
  }

  /** The splice takes white space, and braces with white space around them that do not hold the quoted key; nothing else. */
  lemma SplicesExactly(input: bytes, key: bytes)
    ensures Splices(input, key) <==>
            || SpaceText(input)
            || exists lead, core, trail :: IsCut(input, lead, core, trail) && !Contains(core, Quoted(key))
  {
    hide SpaceText, TrimSpace, Contains, Lead, Trail, BeginsWithSpace, EndsWithSpace;
    TrimSpaceOfSpace(input);
    BracesAlone(key);
    if !SpaceText(input) && Splices(input, key) {
      TrimSpaceExactly(input);
      assert IsCut(input, Lead(input), TrimSpace(input), Trail(input));
    }
    if lead, core, trail :| IsCut(input, lead, core, trail) && !Contains(core, Quoted(key)) {
      CutIsTrimmed(input, lead, core, trail);
    }
  }

  lemma InsideBraces(inside: bytes, key: bytes)
    ensures Contains([LBRACE] + inside + [RBRACE], Quoted(key)) <==> Contains(inside, Quoted(key))
  {
    hide Contains;
    var part := Quoted(key);
    if Contains([LBRACE] + inside + [RBRACE], part) {
      ContainsDropLast([LBRACE] + inside, RBRACE, part);
      ContainsDropFirst(LBRACE, inside, part);
    }
    if Contains(inside, part) {
      ContainsWider([LBRACE], inside, [RBRACE], part);
    }
  }

  /** An object with any white space around it and no quoted key in it is taken. */
  lemma ObjectsAreTaken(lead: bytes, inside: bytes, trail: bytes, key: bytes)
    requires AllWs(lead) && AllWs(trail) && !Contains(inside, Quoted(key))
    ensures Splices(lead + [LBRACE] + inside + [RBRACE] + trail, key)
  {
    hide SpaceText, Contains;
    var core := [LBRACE] + inside + [RBRACE];
    var input := lead + [LBRACE] + inside + [RBRACE] + trail;
    assert input == lead + core + trail;
    WsIsSpace(lead);
    WsIsSpace(trail);
    InsideBraces(inside, key);
    assert IsCut(input, lead, core, trail);
    SplicesExactly(input, key);
  }

  /** What comes out: the body without white space around it, a comma if there is one, the key and the value. */
  lemma SpliceIs(lead: bytes, open: bytes, body: bytes, close: bytes, trail: bytes, key: bytes, value: bytes)
    requires SpaceText(lead) && SpaceText(open) && SpaceText(close) && SpaceText(trail)
    requires !BeginsWithSpace(body) && !EndsWithSpace(body) && !Contains(open + body + close, Quoted(key))
    ensures Splice(lead + ([LBRACE] + (open + body + close) + [RBRACE]) + trail, key, value) ==
            Some([LBRACE] + body + (if body == [] then [] else [COMMA]) + Quoted(key) + [COLON] + value + [RBRACE])
  {
    hide SpaceText, TrimSpace, Contains, BeginsWithSpace, EndsWithSpace;
    var inside := open + body + close;
    var core := [LBRACE] + inside + [RBRACE];
    var input := lead + core + trail;
    assert IsCut(input, lead, core, trail);
    InsideBraces(inside, key);
    CutIsTrimmed(input, lead, core, trail);
    assert Inside(input) == inside;
    BodyIs(open, body, close);
    assert !Contains(core, Quoted(key));
    hide Quoted;
    assert Splices(input, key) && Body(input) == body;
    assert [LBRACE] + [] + [] == [LBRACE];
  }

  lemma BodyIs(open: bytes, body: bytes, close: bytes)
    requires SpaceText(open) && SpaceText(close) && !BeginsWithSpace(body) && !EndsWithSpace(body)
    ensures TrimSpace(open + body + close) == body
  {
    hide SpaceText, TrimSpace, BeginsWithSpace, EndsWithSpace;
    if body == [] {
      SpaceTextAppend(open, close);
      assert open + body + close == open + close;
      TrimSpaceOfSpace(open + close);
    } else {
      TrimSpaceUnique(open, body, close);
    }
  }
}
