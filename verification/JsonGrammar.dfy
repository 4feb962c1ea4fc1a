/**
 JSON texts (RFC 8259) as concrete syntax trees that keep every byte, including
 the white space, so that `PrintText` recovers the text a tree stands for.
 */
module JsonGrammar {
  import opened Prelude

  const QUOTE: byte := 0x22
  const COMMA: byte := 0x2C
  const COLON: byte := 0x3A
  const BACKSLASH: byte := 0x5C
  const LBRACKET: byte := 0x5B
  const RBRACKET: byte := 0x5D
  const LBRACE: byte := 0x7B
  const RBRACE: byte := 0x7D

  /** ws of RFC 8259 section 2. */
  predicate IsWs(b: byte) {
    b == 0x20 || b == 0x09 || b == 0x0A || b == 0x0D
  }

  predicate AllWs(s: bytes) {
    forall i :: 0 <= i < |s| ==> IsWs(s[i])
  }

  predicate IsDigit(b: byte) {
    0x30 <= b <= 0x39
  }

  predicate IsHex(b: byte) {
    IsDigit(b) || 0x41 <= b <= 0x46 || 0x61 <= b <= 0x66
  }

  // ---------- numbers (section 6): [minus] int [frac] [exp] ----------

  /** How far into a number a prefix of one has got. */
  datatype NumberPart = Minus | Zero | Int | Point | Frac | E | Sign | Exp

  function NumberStart(b: byte): Option<NumberPart> {
    if b == 0x2D then Some(Minus) else NumberStep(Minus, b)
  }

  function NumberStep(part: NumberPart, b: byte): Option<NumberPart> {
    var mark := b == 0x65 || b == 0x45;
    match part
    case Minus => if b == 0x30 then Some(Zero) else if IsDigit(b) then Some(Int) else None
    case Zero => if b == 0x2E then Some(Point) else if mark then Some(E) else None
    case Int => if IsDigit(b) then Some(Int) else if b == 0x2E then Some(Point) else if mark then Some(E) else None
    case Point => if IsDigit(b) then Some(Frac) else None
    case Frac => if IsDigit(b) then Some(Frac) else if mark then Some(E) else None
    case E => if IsDigit(b) then Some(Exp) else if b == 0x2B || b == 0x2D then Some(Sign) else None
    case Sign => if IsDigit(b) then Some(Exp) else None
    case Exp => if IsDigit(b) then Some(Exp) else None
  }

  /** The part of a number that `token`, if it begins one, ends in. */
  function NumberPrefix(token: bytes): Option<NumberPart> {
    var n := |token|;
    if n == 0 then None
    else if n == 1 then NumberStart(token[0])
    else
      match NumberPrefix(token[..n - 1])
      case None => None
      case Some(part) => NumberStep(part, token[n - 1])
  }

  predicate IsNumber(token: bytes) {
    var part := NumberPrefix(token);
    part == Some(Zero) || part == Some(Int) || part == Some(Frac) || part == Some(Exp)
  }

  // ---------- strings (section 7): the bytes between the quotes ----------

  /** Plain, just after a backslash, or owing `n` hexadecimal digits. */
  datatype Escape = Plain | Slashed | Hex(n: nat)

  function EscapeStep(e: Escape, b: byte): Option<Escape> {
    match e
    case Plain =>
      if b == BACKSLASH then Some(Slashed) else if b == QUOTE || b < 0x20 then None else Some(Plain)
    case Slashed =>
      if b == 0x75 then Some(Hex(4))
      else if b in {QUOTE, BACKSLASH, 0x2F, 0x62, 0x66, 0x6E, 0x72, 0x74} then Some(Plain)
      else None
    case Hex(n) =>
      if !IsHex(b) then None else if n <= 1 then Some(Plain) else Some(Hex(n - 1))
  }

  function ContentPrefix(content: bytes): Option<Escape> {
    var n := |content|;
    if n == 0 then Some(Plain)
    else
      match ContentPrefix(content[..n - 1])
      case None => None
      case Some(e) => EscapeStep(e, content[n - 1])
  }

  predicate IsContent(content: bytes) {
    ContentPrefix(content) == Some(Plain)
  }

  // ---------- values (sections 3, 4 and 5) ----------

  datatype Word = NullWord | TrueWord | FalseWord

  function Spelling(w: Word): (s: bytes)
    ensures |s| > 0
  {
    match w
    case NullWord => [0x6E, 0x75, 0x6C, 0x6C]
    case TrueWord => [0x74, 0x72, 0x75, 0x65]
    case FalseWord => [0x66, 0x61, 0x6C, 0x73, 0x65]
  }

  /** `gap` is the white space of an empty array or object, and empty otherwise. */
  datatype Json =
    | Literal(word: Word)
    | Number(token: bytes)
    | Text(content: bytes)
    | Array(gap: bytes, items: seq<Padded>)
    | Object(gap: bytes, members: seq<Member>)

  /** A value with the white space around it: an array element or a whole JSON text. */
  datatype Padded = Padded(before: bytes, value: Json, after: bytes)

  /** before "name" colonGap : field */
  datatype Member = Member(before: bytes, name: bytes, colonGap: bytes, field: Padded)

  function Quoted(content: bytes): bytes {
    [QUOTE] + content + [QUOTE]
  }

  function Print(v: Json): bytes
    decreases v, 1
  {
    match v
    case Literal(w) => Spelling(w)
    case Number(token) => token
    case Text(content) => Quoted(content)
    case Array(gap, items) =>
      var n := |items|;
      if n == 0 then [LBRACKET] + gap + [RBRACKET]
      else [LBRACKET] + PrintItems(items[..n - 1]) + PrintPadded(items[n - 1]) + [RBRACKET]
    case Object(gap, members) =>
      var n := |members|;
      if n == 0 then [LBRACE] + gap + [RBRACE]
      else [LBRACE] + PrintMembers(members[..n - 1]) + PrintMember(members[n - 1]) + [RBRACE]
  }

  function PrintPadded(p: Padded): bytes
    decreases p, 2
  {
    p.before + Print(p.value) + p.after
  }

  function PrintMember(m: Member): bytes
    decreases m, 3
  {
    m.before + Quoted(m.name) + m.colonGap + [COLON] + PrintPadded(m.field)
  }

  /** Each element followed by a comma. */
  function PrintItems(items: seq<Padded>): bytes
    decreases items, 0
  {
    var n := |items|;
    if n == 0 then [] else PrintItems(items[..n - 1]) + PrintPadded(items[n - 1]) + [COMMA]
  }

  /** Each member followed by a comma. */
  function PrintMembers(members: seq<Member>): bytes
    decreases members, 0
  {
    var n := |members|;
    if n == 0 then [] else PrintMembers(members[..n - 1]) + PrintMember(members[n - 1]) + [COMMA]
  }

  predicate WellFormed(v: Json)
    decreases v, 1
  {
    match v
    case Literal(_) => true
    case Number(token) => IsNumber(token)
    case Text(content) => IsContent(content)
    case Array(gap, items) => AllWs(gap) && (gap == [] || items == []) && WellFormedItems(items)
    case Object(gap, members) => AllWs(gap) && (gap == [] || members == []) && WellFormedMembers(members)
  }

  predicate WellFormedPadded(p: Padded)
    decreases p, 2
  {
    AllWs(p.before) && WellFormed(p.value) && AllWs(p.after)
  }

  predicate WellFormedMember(m: Member)
    decreases m, 3
  {
    AllWs(m.before) && IsContent(m.name) && AllWs(m.colonGap) && WellFormedPadded(m.field)
  }

  predicate WellFormedItems(items: seq<Padded>)
    decreases items, 0
  {
    forall i :: 0 <= i < |items| ==> WellFormedPadded(items[i])
  }

  predicate WellFormedMembers(members: seq<Member>)
    decreases members, 0
  {
    forall i :: 0 <= i < |members| ==> WellFormedMember(members[i])
  }
}
