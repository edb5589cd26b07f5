/** The strict parser accepts exactly the language of the grammar, and returns what the text means. */
module ParserLanguage {
  import opened Units
  import opened JsonValues
  import opened Grammar
  import opened StrictParser

  /** A text that cannot prolong a number. */
  predicate EndsNumber(rest: Text) {
    rest == [] || !(IsDigit(rest[0]) || rest[0] == DOT || rest[0] == LOWER_E || rest[0] == UPPER_E)
  }

  // ----- white space

  lemma {:induction false} SkipWsOver(ws: Text, t: Text)
    requires AllWs(ws)
    ensures SkipWs(ws + t) == SkipWs(t)
  {
    if ws == [] {
      assert ws + t == t;
    } else {
      assert (ws + t)[1..] == ws[1..] + t;
      SkipWsOver(ws[1..], t);
    }
  }

  lemma {:induction false} SkipWsSplits(t: Text) returns (ws: Text)
    ensures AllWs(ws) && t == ws + SkipWs(t)
    ensures SkipWs(t) != [] ==> !IsWs(SkipWs(t)[0])
  {
    ws := [];
    if t != [] && IsWs(t[0]) {
      var tail := SkipWsSplits(t[1..]);
      ws := [t[0]] + tail;
    }
  }

  lemma SkipWsTwice(t: Text)
    ensures SkipWs(SkipWs(t)) == SkipWs(t)
  {
    var _ := SkipWsSplits(t);
  }

  // ----- strings

  lemma {:induction false} SpellPiecesSplits(ps: seq<Piece>, rest: Text)
    ensures SpellPieces(ps, rest) == SpellPieces(ps, []) + rest
  {
    if ps != [] { SpellPiecesSplits(ps[1..], rest); }
  }

  /** One step of the scan and of the decoding, on a spelled piece. */
  lemma PieceStep(p: Piece, t: Text)
    requires ValidPiece(p)
    ensures PieceLength(SpellPiece(p) + t) == Some(|SpellPiece(p)|)
    ensures (SpellPiece(p) + t)[0] != QUOTE && (SpellPiece(p) + t)[|SpellPiece(p)|..] == t
    ensures DecodeBody(SpellPiece(p) + t) == Cons(PieceMeaning(p), DecodeBody(t))
  {
    var s := SpellPiece(p) + t;
    assert s[|SpellPiece(p)|..] == t;
    match p
    case Raw(u) =>
    case Escape(l) =>
    case Hex(a, b, c, d) => assert s[2] == a && s[3] == b && s[4] == c && s[5] == d;
  }

  lemma {:induction false} PiecesComplete(ps: seq<Piece>, rest: Text)
    requires ValidPieces(ps)
    ensures BodyRest(SpellPieces(ps, rest)) == Some(rest)
    ensures DecodeBody(SpellPieces(ps, [])) == Some(PiecesMeaning(ps))
  {
    if ps == [] {
      assert ([QUOTE] + rest)[1..] == rest;
    } else {
      PieceStep(ps[0], SpellPieces(ps[1..], rest));
      PieceStep(ps[0], SpellPieces(ps[1..], []));
      PiecesComplete(ps[1..], rest);
      assert PiecesMeaning(ps) == [PieceMeaning(ps[0])] + PiecesMeaning(ps[1..]);
    }
  }

  lemma StringComplete(ps: seq<Piece>, rest: Text)
    requires ValidPieces(ps)
    ensures ParseString([QUOTE] + SpellPieces(ps, rest)) == Ok(PiecesMeaning(ps), rest)
  {
    var t := [QUOTE] + SpellPieces(ps, rest);
    PiecesComplete(ps, rest);
    SpellPiecesSplits(ps, rest);
    assert t[1..] == SpellPieces(ps, rest);
    var token := t[..|t| - |rest|];
    assert token == [QUOTE] + SpellPieces(ps, []);
    assert token[1..] == SpellPieces(ps, []);
  }

  /** The element a successful scan step has read. */
  function ReadPiece(t: Text): (p: Piece)
    requires t != [] && t[0] != QUOTE && PieceLength(t).Some?
    ensures ValidPiece(p) && t == SpellPiece(p) + t[PieceLength(t).value..]
  {
    if t[0] == BACKSLASH then
      if t[1] == LOWER_U then Hex(t[2], t[3], t[4], t[5]) else Escape(t[1])
    else Raw(t[0])
  }

  lemma {:induction false} PiecesSound(t: Text) returns (ps: seq<Piece>)
    requires BodyRest(t).Some?
    ensures ValidPieces(ps) && t == SpellPieces(ps, BodyRest(t).value)
  {
    ps := [];
    if t[0] != QUOTE {
      var k := PieceLength(t).value;
      var tail := PiecesSound(t[k..]);
      ps := [ReadPiece(t)] + tail;
      assert ps[1..] == tail;
    }
  }

  /** JSON.parse never refuses a token that the scan has accepted. */
  lemma ScannedTokenDecodes(t: Text)
    requires BodyRest(t).Some?
    ensures JsonParseString(([QUOTE] + t)[..1 + |t| - |BodyRest(t).value|]).Some?
  {
    hide BodyRest, SpellPieces, SpellPiece, DecodeBody, ValidPieces, PiecesMeaning;
    var ps := PiecesSound(t);
    var rest := BodyRest(t).value;
    PiecesComplete(ps, rest);
    SpellPiecesSplits(ps, rest);
    QuotedPrefix(t, SpellPieces(ps, []), rest);
  }

  lemma QuotedPrefix(t: Text, body: Text, rest: Text)
    requires t == body + rest
    ensures ([QUOTE] + t)[..1 + |t| - |rest|] == [QUOTE] + body
    ensures ([QUOTE] + body)[1..] == body
  {
  }

  lemma StringSound(t: Text) returns (ps: seq<Piece>)
    requires ParseString(t).Ok?
    ensures ValidPieces(ps) && t == [QUOTE] + SpellPieces(ps, ParseString(t).rest)
    ensures ParseString(t).value == PiecesMeaning(ps)
  {
    ps := PiecesSound(t[1..]);
    StringComplete(ps, ParseString(t).rest);
    assert t == [QUOTE] + t[1..];
  }

  // ----- numbers

  lemma IntegerLengthOf(digits: Text, rest: Text)
    requires digits != [] && AllDigits(digits) && (digits[0] == ZERO ==> |digits| == 1) && EndsNumber(rest)
    ensures IntegerLength(digits + rest) == |digits|
  {
    var t := digits + rest;
    var n := DigitRun(t);
    assert forall i :: 0 <= i < |digits| ==> t[i] == digits[i];
    assert forall i :: 0 <= i < n ==> t[..n][i] == t[i] && IsDigit(t[i]);
    assert |digits| < |t| ==> t[|digits|] == rest[0] && !IsDigit(t[|digits|]);
  }

  lemma IntegerComplete(negative: bool, digits: Text, rest: Text)
    requires ValidNumber(digits) && EndsNumber(rest)
    ensures ParseInteger(negative, digits + rest) == Ok(NumberMeaning(negative, digits), rest)
  {
    IntegerLengthOf(digits, rest);
    assert (digits + rest)[..|digits|] == digits && (digits + rest)[|digits|..] == rest;
  }

  lemma NumberComplete(negative: bool, digits: Text, rest: Text)
    requires ValidNumber(digits) && EndsNumber(rest)
    ensures ParseNumber(Spell(Number(negative, digits), rest)) == Ok(NumberMeaning(negative, digits), rest)
  {
    hide EndsNumber, ParseInteger, TokenValue, IntegerLength, DigitRun;
    var u := digits + rest;
    assert u[0] == digits[0];
    assert [] + u == u && ([MINUS] + u)[1..] == u;
    IntegerComplete(negative, digits, rest);
  }

  lemma IntegerSound(negative: bool, t: Text) returns (digits: Text)
    requires ParseInteger(negative, t).Ok?
    ensures ValidNumber(digits) && t == digits + ParseInteger(negative, t).rest
    ensures ParseInteger(negative, t).value == NumberMeaning(negative, digits)
  {
    var n := IntegerLength(t);
    digits := t[..n];
    assert t == digits + t[n..];
    assert digits[0] == t[0];
  }

  lemma SignSpells(negative: bool, digits: Text, rest: Text)
    ensures Spell(Number(negative, digits), rest) == if negative then [MINUS] + (digits + rest) else digits + rest
  {
    assert [] + (digits + rest) == digits + rest;
  }

  lemma NumberSound(t: Text) returns (negative: bool, digits: Text)
    requires ParseNumber(t).Ok?
    ensures ValidNumber(digits) && t == Spell(Number(negative, digits), ParseNumber(t).rest)
    ensures ParseNumber(t).value == NumberMeaning(negative, digits)
  {
    negative := t != [] && t[0] == MINUS;
    if negative {
      digits := IntegerSound(true, t[1..]);
      assert t == [MINUS] + t[1..];
    } else {
      digits := IntegerSound(false, t);
    }
    SignSpells(negative, digits, ParseNumber(t).rest);
  }

  // ----- completeness

  lemma SpellStarts(c: Tree, rest: Text)
    requires Valid(c)
    ensures Spell(c, rest) != [] && !IsWs(Spell(c, rest)[0])
  {
    if c.Number? { assert (c.digits + rest)[0] == c.digits[0]; }
  }

  lemma ValueAfterWs(ws: Text, c: Tree, rest: Text)
    requires AllWs(ws) && Valid(c)
    ensures SkipWs(ws + Spell(c, rest)) == Spell(c, rest)
  {
    SpellStarts(c, rest);
    SkipWsOver(ws, Spell(c, rest));
  }

  lemma {:induction false} ValueComplete(ws: Text, c: Tree, rest: Text)
    requires AllWs(ws) && Valid(c) && EndsNumber(rest)
    ensures ParseValue(ws + Spell(c, rest)) == Ok(Meaning(c), rest)
    decreases c, 2
  {
    ValueAfterWs(ws, c, rest);
    match c
    case NullWord => assert Spell(c, rest)[4..] == rest;
    case BoolWord(b) => assert Spell(c, rest)[if b then 4 else 5..] == rest;
    case Number(negative, digits) =>
      NumberComplete(negative, digits, rest);
      assert Spell(c, rest)[0] == if negative then MINUS else digits[0];
    case Quoted(pieces) => StringComplete(pieces, rest);
    case Array(gap, items) => ArrayComplete(gap, items, rest);
    case Object(gap, members) =>
      MembersKeys(members);
      ObjectComplete(gap, members, rest);
  }

  lemma {:induction false} ArrayComplete(gap: Text, items: seq<Item>, rest: Text)
    requires AllWs(gap) && ValidItems(items)
    ensures ParseArray(Spell(Array(gap, items), rest)) == Ok(Arr(ItemsMeaning(items)), rest)
    decreases items, 2
  {
    var t := Spell(Array(gap, items), rest);
    if items == [] {
      assert t[1..] == gap + ([RBRACKET] + rest);
      SkipWsOver(gap, [RBRACKET] + rest);
      assert ([RBRACKET] + rest)[1..] == rest;
    } else {
      assert t[1..] == SpellItems(items, rest);
      ItemsComplete(items, rest, []);
      assert [] + ItemsMeaning(items) == ItemsMeaning(items);
      ValueAfterWs(items[0].before, items[0].value, ItemTail(items, rest));
      NoBracket(items[0].value, ItemTail(items, rest));
    }
  }

  lemma {:induction false} ObjectComplete(gap: Text, members: seq<Member>, rest: Text)
    requires AllWs(gap) && ValidMembers(members) && DistinctKeys(MembersMeaning(members))
    ensures ParseObject(Spell(Object(gap, members), rest)) == Ok(Obj(MembersMeaning(members)), rest)
    decreases members, 2
  {
    var t := Spell(Object(gap, members), rest);
    if members == [] {
      assert t[1..] == gap + ([RBRACE] + rest);
      SkipWsOver(gap, [RBRACE] + rest);
      assert ([RBRACE] + rest)[1..] == rest;
    } else {
      assert t[1..] == SpellMembers(members, rest);
      assert [] + MembersMeaning(members) == MembersMeaning(members);
      MembersComplete(members, rest, []);
      SkipWsOver(members[0].before, MemberCore(members, rest));
      assert SpellMembers(members, rest) == members[0].before + MemberCore(members, rest);
    }
  }

  lemma NoBracket(c: Tree, rest: Text)
    requires Valid(c)
    ensures Spell(c, rest)[0] != RBRACKET
  {
    if c.Number? { assert (c.digits + rest)[0] == c.digits[0]; }
  }

  /** What follows the first element of a non-empty array. */
  function ItemTail(items: seq<Item>, rest: Text): Text
    requires items != []
  {
    items[0].after + (if |items| == 1 then [RBRACKET] + rest else [COMMA] + SpellItems(items[1..], rest))
  }

  lemma GapEndsNumber(ws: Text, u: Unit, rest: Text)
    requires AllWs(ws) && EndsNumber([u])
    ensures EndsNumber(ws + ([u] + rest))
  {
    if ws == [] { assert ws + ([u] + rest) == [u] + rest; }
  }

  lemma {:induction false} ItemComplete(items: seq<Item>, rest: Text)
    requires items != [] && ValidItems(items)
    ensures ParseValue(SkipWs(SpellItems(items, rest))) == Ok(Meaning(items[0].value), ItemTail(items, rest))
    decreases items, 0
  {
    var tail := ItemTail(items, rest);
    var last := if |items| == 1 then [RBRACKET] + rest else [COMMA] + SpellItems(items[1..], rest);
    GapEndsNumber(items[0].after, last[0], last[1..]);
    assert last == [last[0]] + last[1..];
    ValueAfterWs(items[0].before, items[0].value, tail);
    ValueComplete([], items[0].value, tail);
    assert [] + Spell(items[0].value, tail) == Spell(items[0].value, tail);
  }

  lemma {:induction false} ItemsComplete(items: seq<Item>, rest: Text, done: seq<Json>)
    requires items != [] && ValidItems(items)
    ensures ParseItems(SkipWs(SpellItems(items, rest)), done) == Ok(done + ItemsMeaning(items), rest)
    decreases items, 1
  {
    ItemComplete(items, rest);
    var v := Meaning(items[0].value);
    var last := if |items| == 1 then [RBRACKET] + rest else [COMMA] + SpellItems(items[1..], rest);
    SkipWsOver(items[0].after, last);
    assert ItemsMeaning(items) == [v] + ItemsMeaning(items[1..]);
    if |items| == 1 {
      assert last[1..] == rest && ItemsMeaning(items) == [v];
    } else {
      assert last[1..] == SpellItems(items[1..], rest);
      ItemsComplete(items[1..], rest, done + [v]);
      Reassociate(done, v, ItemsMeaning(items[1..]));
    }
  }

  /** A non-empty member list after its leading white space. */
  function MemberCore(members: seq<Member>, rest: Text): Text
    requires members != []
  {
    var m := members[0];
    [QUOTE] + SpellPieces(m.key, m.beforeColon + ([COLON] + (m.afterColon + Spell(m.value, MemberTail(members, rest)))))
  }

  function MemberTail(members: seq<Member>, rest: Text): Text
    requires members != []
  {
    members[0].after + (if |members| == 1 then [RBRACE] + rest else [COMMA] + SpellMembers(members[1..], rest))
  }

  lemma {:induction false} MemberComplete(members: seq<Member>, rest: Text, done: seq<Entry>)
    requires members != [] && ValidMembers(members) && !HasKey(done, PiecesMeaning(members[0].key))
    ensures ParseMember(MemberCore(members, rest), done)
         == Ok(Entry(PiecesMeaning(members[0].key), Meaning(members[0].value)), MemberTail(members, rest))
    decreases members, 0
  {
    var m := members[0];
    var tail := MemberTail(members, rest);
    var afterKey := [COLON] + (m.afterColon + Spell(m.value, tail));
    StringComplete(m.key, m.beforeColon + afterKey);
    SkipWsOver(m.beforeColon, afterKey);
    assert afterKey[1..] == m.afterColon + Spell(m.value, tail);
    var last := if |members| == 1 then [RBRACE] + rest else [COMMA] + SpellMembers(members[1..], rest);
    GapEndsNumber(m.after, last[0], last[1..]);
    assert last == [last[0]] + last[1..];
    ValueComplete(m.afterColon, m.value, tail);
  }

  lemma {:induction false} MembersComplete(members: seq<Member>, rest: Text, done: seq<Entry>)
    requires members != [] && ValidMembers(members) && DistinctKeys(done + MembersMeaning(members))
    ensures ParseMembers(SkipWs(SpellMembers(members, rest)), done) == Ok(done + MembersMeaning(members), rest)
    decreases members, 1
  {
    hide ParseMember, PiecesMeaning, Meaning, Valid, ValidPieces, AllWs, HasKey, KeySet, Spell;
    SkipWsOver(members[0].before, MemberCore(members, rest));
    assert SpellMembers(members, rest) == members[0].before + MemberCore(members, rest);
    var entry := Entry(PiecesMeaning(members[0].key), Meaning(members[0].value));
    assert MembersMeaning(members) == [entry] + MembersMeaning(members[1..]);
    Reassociate(done, entry, MembersMeaning(members[1..]));
    NewKey(done, entry, MembersMeaning(members[1..]));
    MemberComplete(members, rest, done);
    var last := if |members| == 1 then [RBRACE] + rest else [COMMA] + SpellMembers(members[1..], rest);
    SkipWsOver(members[0].after, last);
    if |members| == 1 {
      assert last[1..] == rest && done + MembersMeaning(members) == done + [entry];
    } else {
      assert last[1..] == SpellMembers(members[1..], rest);
      MembersComplete(members[1..], rest, done + [entry]);
    }
  }

  lemma NewKey(done: seq<Entry>, e: Entry, more: seq<Entry>)
    requires DistinctKeys(done + [e] + more)
    ensures !HasKey(done, e.key)
  {
    var all := done + [e] + more;
    assert all[|done|] == e && forall i :: 0 <= i < |done| ==> all[i] == done[i];
  }

  lemma {:induction false} MembersKeys(members: seq<Member>)
    requires ValidMembers(members)
    ensures forall i :: 0 <= i < |members| ==> MembersMeaning(members)[i].key == PiecesMeaning(members[i].key)
  {
    if members != [] { MembersKeys(members[1..]); }
  }

  // ----- soundness

  lemma {:induction false} ValueSound(t: Text) returns (ws: Text, c: Tree)
    requires ParseValue(t).Ok?
    ensures AllWs(ws) && Valid(c) && t == ws + Spell(c, ParseValue(t).rest) && Meaning(c) == ParseValue(t).value
    decreases |t|, 1
  {
    ws := SkipWsSplits(t);
    var u := SkipWs(t);
    if u[0] == LBRACE {
      c := ObjectSound(u);
    } else if u[0] == LBRACKET {
      c := ArraySound(u);
    } else if u[0] == QUOTE {
      var pieces := StringSound(u);
      c := Quoted(pieces);
    } else if u[0] == MINUS || IsDigit(u[0]) {
      var negative, digits := NumberSound(u);
      c := Number(negative, digits);
    } else if TRUE <= u {
      c := BoolWord(true);
    } else if FALSE <= u {
      c := BoolWord(false);
    } else {
      c := NullWord;
    }
  }

  lemma {:induction false} ArraySound(t: Text) returns (c: Tree)
    requires t != [] && t[0] == LBRACKET && ParseArray(t).Ok?
    ensures Valid(c) && t == Spell(c, ParseArray(t).rest) && Meaning(c) == ParseArray(t).value
    decreases |t|, 0
  {
    var ws := SkipWsSplits(t[1..]);
    var u := SkipWs(t[1..]);
    assert t == [LBRACKET] + (ws + u);
    if u != [] && u[0] == RBRACKET {
      c := Array(ws, []);
      assert u == [RBRACKET] + u[1..];
    } else {
      var items := ItemsSound(ws, u, []);
      c := Array([], items);
      assert [] + ItemsMeaning(items) == ItemsMeaning(items);
    }
  }

  lemma {:induction false} ItemsSound(ws: Text, t: Text, done: seq<Json>) returns (items: seq<Item>)
    requires AllWs(ws) && ParseItems(t, done).Ok?
    ensures items != [] && ValidItems(items)
    ensures ws + t == SpellItems(items, ParseItems(t, done).rest)
    ensures ParseItems(t, done).value == done + ItemsMeaning(items)
    decreases |t|, 2
  {
    hide Meaning, Valid, SkipWs, Spell;
    var rest := ParseItems(t, done).rest;
    var before, c := ValueSound(t);
    var v := Meaning(c);
    var tail := ParseValue(t).rest;
    var after := SkipWsSplits(tail);
    var u := SkipWs(tail);
    assert u == [u[0]] + u[1..];
    var item := Item(ws + before, c, after);
    assert ws + t == item.before + Spell(c, after + u);
    if u[0] == RBRACKET {
      items := [item];
      assert ItemsMeaning(items) == [v] + ItemsMeaning(items[1..]) == [v];
    } else {
      var gap := SkipWsSplits(u[1..]);
      var more := ItemsSound(gap, SkipWs(u[1..]), done + [v]);
      items := [item] + more;
      assert items[1..] == more;
      Reassociate(done, v, ItemsMeaning(more));
    }
  }

  lemma {:induction false} ObjectSound(t: Text) returns (c: Tree)
    requires t != [] && t[0] == LBRACE && ParseObject(t).Ok?
    ensures Valid(c) && t == Spell(c, ParseObject(t).rest) && Meaning(c) == ParseObject(t).value
    decreases |t|, 0
  {
    var ws := SkipWsSplits(t[1..]);
    var u := SkipWs(t[1..]);
    assert t == [LBRACE] + (ws + u);
    if u != [] && u[0] == RBRACE {
      c := Object(ws, []);
      assert u == [RBRACE] + u[1..];
    } else {
      var members := MembersSound(ws, u, []);
      MembersDistinct(u, []);
      assert [] + MembersMeaning(members) == MembersMeaning(members);
      MembersKeys(members);
      c := Object([], members);
    }
  }

  lemma {:induction false} MemberSound(ws: Text, t: Text, done: seq<Entry>) returns (m: Member)
    requires AllWs(ws) && ParseMember(t, done).Ok?
    ensures MemberGaps(m) && ValidPieces(m.key) && Valid(m.value) && m.before == ws && m.after == []
    ensures t == [QUOTE] + SpellPieces(m.key, m.beforeColon + ([COLON] + (m.afterColon + Spell(m.value, ParseMember(t, done).rest))))
    ensures ParseMember(t, done).value == Entry(PiecesMeaning(m.key), Meaning(m.value))
    decreases |t|, 2
  {
    hide ParseValue, ParseString, SkipWs, Spell, SpellPieces;
    var pieces := StringSound(t);
    var tail := ParseString(t).rest;
    var beforeColon := SkipWsSplits(tail);
    var u := SkipWs(tail);
    assert u == [COLON] + u[1..];
    var afterColon, c := ValueSound(u[1..]);
    m := Member(ws, pieces, beforeColon, afterColon, c, []);
  }

  lemma {:induction false} MembersSound(ws: Text, t: Text, done: seq<Entry>) returns (members: seq<Member>)
    requires AllWs(ws) && ParseMembers(t, done).Ok?
    ensures members != [] && ValidMembers(members)
    ensures ws + t == SpellMembers(members, ParseMembers(t, done).rest)
    ensures ParseMembers(t, done).value == done + MembersMeaning(members)
    decreases |t|, 3
  {
    var m := MemberSound(ws, t, done);
    var entry := ParseMember(t, done).value;
    var tail := ParseMember(t, done).rest;
    var after := SkipWsSplits(tail);
    var u := SkipWs(tail);
    var member := m.(after := after);
    assert ws + t == MemberText(member, u);
    if u[0] == RBRACE {
      members := [member];
      MembersCons(member, []);
      SpellOne(member, u);
    } else {
      var gap := SkipWsSplits(u[1..]);
      var next := SkipWs(u[1..]);
      assert ParseMembers(t, done) == ParseMembers(next, done + [entry]);
      var more := MembersSound(gap, next, done + [entry]);
      members := [member] + more;
      assert u[1..] == SpellMembers(more, ParseMembers(t, done).rest);
      SpellMore(member, more, u, ParseMembers(t, done).rest);
      MembersCons(member, more);
      Reassociate(done, entry, MembersMeaning(more));
    }
  }

  lemma {:induction false} MembersDistinct(t: Text, done: seq<Entry>)
    requires ParseMembers(t, done).Ok? && DistinctKeys(done)
    ensures DistinctKeys(ParseMembers(t, done).value)
    decreases |t|
  {
    var entry := ParseMember(t, done).value;
    var u := SkipWs(ParseMember(t, done).rest);
    DistinctAppend(done, entry);
    if u[0] != RBRACE {
      MembersDistinct(SkipWs(u[1..]), done + [entry]);
    }
  }

  /** The text of one member, then `u`. */
  function MemberText(m: Member, u: Text): Text {
    m.before + ([QUOTE] + SpellPieces(m.key, m.beforeColon + ([COLON] + (m.afterColon + Spell(m.value, m.after + u)))))
  }

  lemma SpellOne(m: Member, u: Text)
    requires u != [] && u[0] == RBRACE
    ensures SpellMembers([m], u[1..]) == MemberText(m, u)
  {
    assert u == [RBRACE] + u[1..];
  }

  lemma SpellMore(m: Member, more: seq<Member>, u: Text, rest: Text)
    requires more != [] && u != [] && u[0] == COMMA && u[1..] == SpellMembers(more, rest)
    ensures SpellMembers([m] + more, rest) == MemberText(m, u)
  {
    assert u == [COMMA] + u[1..];
    assert ([m] + more)[1..] == more;
  }

  lemma Reassociate<T>(a: seq<T>, x: T, b: seq<T>)
    ensures a + ([x] + b) == a + [x] + b
  {
  }

  lemma DistinctAppend(es: seq<Entry>, e: Entry)
    requires DistinctKeys(es) && !HasKey(es, e.key)
    ensures DistinctKeys(es + [e])
  {
  }

  lemma MembersCons(m: Member, more: seq<Member>)
    requires MemberGaps(m) && ValidPieces(m.key) && Valid(m.value) && ValidMembers(more)
    ensures ValidMembers([m] + more)
    ensures MembersMeaning([m] + more) == [Entry(PiecesMeaning(m.key), Meaning(m.value))] + MembersMeaning(more)
  {
    assert ([m] + more)[1..] == more;
  }

  // ----- the theorem

  /** A text is accepted with value v exactly when the grammar derives it as a document that means v. */
  lemma ExactLanguage(t: Text, v: Json)
    ensures Parse(t) == Success(v) <==>
            exists before, c, after :: IsDocument(t, before, c, after) && Meaning(c) == v
  {
    if Parse(t) == Success(v) {
      var before, c := ValueSound(t);
      var after := SkipWsSplits(ParseValue(t).rest);
      assert after + [] == after;
      assert IsDocument(t, before, c, after);
    }
    forall before, c, after | IsDocument(t, before, c, after) && Meaning(c) == v ensures Parse(t) == Success(v) {
      DocumentParses(t, before, c, after);
    }
  }

  lemma DocumentParses(t: Text, before: Text, c: Tree, after: Text)
    requires IsDocument(t, before, c, after)
    ensures Parse(t) == Success(Meaning(c))
  {
    assert EndsNumber(after) by { if after != [] { assert IsWs(after[0]); } }
    ValueComplete(before, c, after);
    SkipWsOver(after, []);
    assert after + [] == after;
  }

  /** No text has two meanings. */
  lemma Unambiguous(t: Text, b1: Text, c1: Tree, a1: Text, b2: Text, c2: Tree, a2: Text)
    requires IsDocument(t, b1, c1, a1) && IsDocument(t, b2, c2, a2)
    ensures Meaning(c1) == Meaning(c2)
  {
    DocumentParses(t, b1, c1, a1);
    DocumentParses(t, b2, c2, a2);
  }

  // ----- what the parser returns is well formed

  lemma {:induction false} MeaningWellFormed(c: Tree)
    requires Valid(c)
    ensures WellFormed(Meaning(c))
    decreases c, 0
  {
    match c
    case Array(_, items) =>
      ItemsWellFormed(items);
    case Object(_, members) =>
      MembersKeys(members);
      MembersWellFormed(members);
    case _ =>
  }

  lemma {:induction false} ItemsWellFormed(items: seq<Item>)
    requires ValidItems(items)
    ensures forall i :: 0 <= i < |items| ==> WellFormed(ItemsMeaning(items)[i])
    decreases items, 0
  {
    if items != [] {
      MeaningWellFormed(items[0].value);
      ItemsWellFormed(items[1..]);
    }
  }

  lemma {:induction false} MembersWellFormed(members: seq<Member>)
    requires ValidMembers(members)
    ensures forall i :: 0 <= i < |members| ==> WellFormed(MembersMeaning(members)[i].value)
    decreases members, 0
  {
    if members != [] {
      MeaningWellFormed(members[0].value);
      MembersWellFormed(members[1..]);
    }
  }

  lemma ParsedIsWellFormed(t: Text)
    requires Parse(t).Success?
    ensures WellFormed(Parse(t).value)
  {
    var ws, c := ValueSound(t);
    MeaningWellFormed(c);
  }
}
