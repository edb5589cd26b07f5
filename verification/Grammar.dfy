/**
 The JSON grammar of RFC 8259 (sections 2 to 7) as concrete syntax trees, restricted the way the strict
 parser restricts it: numbers are plain integers of safe magnitude and the decoded keys of one object differ.
 A tree records every character, white space included. `Spell(tree, rest)` is the text of the tree followed
 by `rest`; `Meaning(tree)` is the value the text denotes. Nothing here mentions the parser.
 */
module Grammar {
  import opened Units
  import opened JsonValues

  /** One element of a string: an unescaped unit, a two-character escape, or a four-digit escape. */
  datatype Piece = Raw(u: Unit) | Escape(letter: Unit) | Hex(a: Unit, b: Unit, c: Unit, d: Unit)

  datatype Tree =
    | NullWord
    | BoolWord(b: bool)
    | Number(negative: bool, digits: Text)
    | Quoted(pieces: seq<Piece>)
    | Array(gap: Text, items: seq<Item>)
    | Object(gap: Text, members: seq<Member>)

  /** An array element with the white space around it. */
  datatype Item = Item(before: Text, value: Tree, after: Text)

  datatype Member =
    Member(before: Text, key: seq<Piece>, beforeColon: Text, afterColon: Text, value: Tree, after: Text)

  // ----- spelling

  function SpellPiece(p: Piece): (t: Text)
    ensures t != []
  {
    match p
    case Raw(u) => [u]
    case Escape(l) => [BACKSLASH, l]
    case Hex(a, b, c, d) => [BACKSLASH, LOWER_U, a, b, c, d]
  }

  /** The pieces, the closing quotation mark, then `rest`. */
  function SpellPieces(ps: seq<Piece>, rest: Text): Text {
    if ps == [] then [QUOTE] + rest else SpellPiece(ps[0]) + SpellPieces(ps[1..], rest)
  }

  function Spell(c: Tree, rest: Text): Text
    decreases c, 0
  {
    match c
    case NullWord => NULL + rest
    case BoolWord(b) => (if b then TRUE else FALSE) + rest
    case Number(negative, digits) => (if negative then [MINUS] else []) + (digits + rest)
    case Quoted(pieces) => [QUOTE] + SpellPieces(pieces, rest)
    case Array(gap, items) =>
      [LBRACKET] + (if items == [] then gap + ([RBRACKET] + rest) else SpellItems(items, rest))
    case Object(gap, members) =>
      [LBRACE] + (if members == [] then gap + ([RBRACE] + rest) else SpellMembers(members, rest))
  }

  function SpellItems(items: seq<Item>, rest: Text): Text
    requires items != []
    decreases items, 0
  {
    var tail := if |items| == 1 then [RBRACKET] + rest else [COMMA] + SpellItems(items[1..], rest);
    items[0].before + Spell(items[0].value, items[0].after + tail)
  }

  function SpellMembers(members: seq<Member>, rest: Text): Text
    requires members != []
    decreases members, 0
  {
    var m := members[0];
    var tail := if |members| == 1 then [RBRACE] + rest else [COMMA] + SpellMembers(members[1..], rest);
    m.before + ([QUOTE] + SpellPieces(m.key, m.beforeColon + ([COLON] + (m.afterColon + Spell(m.value, m.after + tail)))))
  }

  // ----- validity

  predicate ValidPiece(p: Piece) {
    match p
    case Raw(u) => u >= 0x20 && u != QUOTE && u != BACKSLASH
    case Escape(l) => IsEscapeLetter(l)
    case Hex(a, b, c, d) => IsHex(a) && IsHex(b) && IsHex(c) && IsHex(d)
  }

  predicate ValidPieces(ps: seq<Piece>) {
    forall i :: 0 <= i < |ps| ==> ValidPiece(ps[i])
  }

  predicate ValidNumber(digits: Text) {
    digits != [] && AllDigits(digits) && (digits[0] == ZERO ==> |digits| == 1) && DigitsValue(digits) <= MAX_SAFE
  }

  predicate ItemGaps(item: Item) {
    AllWs(item.before) && AllWs(item.after)
  }

  predicate MemberGaps(m: Member) {
    AllWs(m.before) && AllWs(m.beforeColon) && AllWs(m.afterColon) && AllWs(m.after)
  }

  predicate Valid(c: Tree) {
    match c
    case NullWord => true
    case BoolWord(_) => true
    case Number(_, digits) => ValidNumber(digits)
    case Quoted(pieces) => ValidPieces(pieces)
    case Array(gap, items) =>
      AllWs(gap) && forall i :: 0 <= i < |items| ==> ItemGaps(items[i]) && Valid(items[i].value)
    case Object(gap, members) =>
      AllWs(gap) &&
      (forall i :: 0 <= i < |members| ==> MemberGaps(members[i]) && ValidPieces(members[i].key) && Valid(members[i].value)) &&
      forall i, j :: 0 <= i < j < |members| ==> PiecesMeaning(members[i].key) != PiecesMeaning(members[j].key)
  }

  predicate ValidItems(items: seq<Item>) {
    forall i :: 0 <= i < |items| ==> ItemGaps(items[i]) && Valid(items[i].value)
  }

  predicate ValidMembers(members: seq<Member>) {
    forall i :: 0 <= i < |members| ==> MemberGaps(members[i]) && ValidPieces(members[i].key) && Valid(members[i].value)
  }

  // ----- meaning

  function PieceMeaning(p: Piece): Unit
    requires ValidPiece(p)
  {
    match p
    case Raw(u) => u
    case Escape(l) => EscapeMeaning(l)
    case Hex(a, b, c, d) => Hex4(a, b, c, d)
  }

  function PiecesMeaning(ps: seq<Piece>): (t: Text)
    requires ValidPieces(ps)
  {
    seq(|ps|, i requires 0 <= i < |ps| => PieceMeaning(ps[i]))
  }

  function NumberMeaning(negative: bool, digits: Text): Json
    requires ValidNumber(digits)
  {
    var n: int := DigitsValue(digits);
    if !negative then Num(n) else if n == 0 then NegZero else Num(-n)
  }

  function Meaning(c: Tree): Json
    requires Valid(c)
    decreases c, 0
  {
    match c
    case NullWord => Null
    case BoolWord(b) => Bool(b)
    case Number(negative, digits) => NumberMeaning(negative, digits)
    case Quoted(pieces) => Str(PiecesMeaning(pieces))
    case Array(_, items) => Arr(ItemsMeaning(items))
    case Object(_, members) => Obj(MembersMeaning(members))
  }

  function ItemsMeaning(items: seq<Item>): (vs: seq<Json>)
    requires ValidItems(items)
    ensures |vs| == |items|
    decreases items, 0
  {
    if items == [] then [] else [Meaning(items[0].value)] + ItemsMeaning(items[1..])
  }

  function MembersMeaning(members: seq<Member>): (es: seq<Entry>)
    requires ValidMembers(members)
    ensures |es| == |members|
    decreases members, 0
  {
    if members == [] then []
    else [Entry(PiecesMeaning(members[0].key), Meaning(members[0].value))] + MembersMeaning(members[1..])
  }

  /** `t` is the JSON text made of `c` between two runs of white space. */
  ghost predicate IsDocument(t: Text, before: Text, c: Tree, after: Text) {
    AllWs(before) && AllWs(after) && Valid(c) && t == before + Spell(c, after)
  }
}
