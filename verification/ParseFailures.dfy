/**
 Why the strict parser refuses a text. An unfinished document is a text in which some arrays and objects have
 been opened and not yet closed, everything before the end being grammatical. A repeated key and a number that
 is not allowed are found where an unfinished document meets them; every other refusal is a syntax error.
 */
module ParseFailures {
  import opened Units
  import opened JsonValues
  import opened Grammar
  import opened StrictParser
  import opened ParserLanguage
  import opened Contracts
  import opened Preflight
  import opened Canonical

  // ----- unfinished documents

  /** An array after some elements and their commas, or an object after a key and its colon. */
  datatype Frame =
    | OpenArray(before: Text, items: seq<Item>)
    | OpenObject(before: Text, members: seq<Member>, key: Member)

  /** What an unfinished document meets where a value should follow. */
  datatype Obstacle =
    | RepeatedKey(before: Text, members: seq<Member>, gap: Text, key: seq<Piece>)
    | BadNumber(before: Text, negative: bool, digits: Text)

  /** Elements, each followed by a comma, and then `rest`. */
  function OpenItems(items: seq<Item>, rest: Text): Text {
    if items == [] then rest
    else items[0].before + Spell(items[0].value, items[0].after + ([COMMA] + OpenItems(items[1..], rest)))
  }

  /** Members, each followed by a comma, and then `rest`. */
  function OpenMembers(members: seq<Member>, rest: Text): Text {
    if members == [] then rest else MemberText(members[0], [COMMA] + OpenMembers(members[1..], rest))
  }

  /** White space, a key, white space, a colon and then `rest`. */
  function KeyText(m: Member, rest: Text): Text {
    m.before + ([QUOTE] + SpellPieces(m.key, m.beforeColon + ([COLON] + rest)))
  }

  function FrameText(f: Frame, rest: Text): Text {
    match f
    case OpenArray(before, items) => before + ([LBRACKET] + OpenItems(items, rest))
    case OpenObject(before, members, key) => before + ([LBRACE] + OpenMembers(members, KeyText(key, rest)))
  }

  /** An unfinished document, outermost frame first, and then `rest`. */
  function Unfinished(fs: seq<Frame>, rest: Text): Text {
    if fs == [] then rest else FrameText(fs[0], Unfinished(fs[1..], rest))
  }

  function ObstacleText(o: Obstacle, rest: Text): Text {
    match o
    case RepeatedKey(before, members, gap, key) =>
      before + ([LBRACE] + OpenMembers(members, gap + ([QUOTE] + SpellPieces(key, rest))))
    case BadNumber(before, negative, digits) => before + ((if negative then [MINUS] else []) + (digits + rest))
  }

  ghost predicate ValidOpenMembers(members: seq<Member>) {
    ValidMembers(members) && DistinctKeys(MembersMeaning(members))
  }

  ghost predicate ValidFrame(f: Frame) {
    match f
    case OpenArray(before, items) => AllWs(before) && ValidItems(items)
    case OpenObject(before, members, key) =>
      AllWs(before) && ValidOpenMembers(members) && AllWs(key.before) && AllWs(key.beforeColon) &&
      ValidPieces(key.key) && !HasKey(MembersMeaning(members), PiecesMeaning(key.key))
  }

  ghost predicate ValidFrames(fs: seq<Frame>) {
    forall i :: 0 <= i < |fs| ==> ValidFrame(fs[i])
  }

  /** A whole integer token: digits without a leading zero that cannot be continued. */
  predicate IntegerToken(digits: Text, rest: Text) {
    digits != [] && AllDigits(digits) &&
    (if digits[0] == ZERO then |digits| == 1 else rest == [] || !IsDigit(rest[0]))
  }

  predicate ContinuesNumber(rest: Text) {
    rest != [] && (rest[0] == DOT || rest[0] == LOWER_E || rest[0] == UPPER_E)
  }

  ghost predicate ValidObstacle(o: Obstacle, rest: Text) {
    match o
    case RepeatedKey(before, members, gap, key) =>
      AllWs(before) && AllWs(gap) && ValidOpenMembers(members) && ValidPieces(key) &&
      HasKey(MembersMeaning(members), PiecesMeaning(key))
    case BadNumber(before, negative, digits) =>
      AllWs(before) && IntegerToken(digits, rest) && (ContinuesNumber(rest) || DigitsValue(digits) > MAX_SAFE)
  }

  function KindOf(o: Obstacle): FailureReason {
    if o.RepeatedKey? then DuplicateKeys else InvalidNumber
  }

  /** `t` is an unfinished document that meets the obstacle. */
  ghost predicate Meets(t: Text, fs: seq<Frame>, o: Obstacle, rest: Text) {
    ValidFrames(fs) && ValidObstacle(o, rest) && t == Unfinished(fs, ObstacleText(o, rest))
  }

  // ----- small steps

  lemma ParseValueSkips(t: Text)
    ensures ParseValue(SkipWs(t)) == ParseValue(t)
  {
    SkipWsTwice(t);
  }

  lemma ParseAfterWs(ws: Text, t: Text)
    requires AllWs(ws)
    ensures ParseValue(ws + t) == ParseValue(t)
  {
    hide ParseArray, ParseObject, ParseString, ParseNumber;
    SkipWsOver(ws, t);
  }

  lemma HeadTail(u: Unit, t: Text)
    ensures ([u] + t)[0] == u && ([u] + t)[1..] == t && [u] + t != []
  {
  }

  lemma PrefixWs(a: Text, b: Text, t: Text)
    requires AllWs(a) && AllWs(b)
    ensures AllWs(a + b) && a + (b + t) == a + b + t
  {
  }

  /** A text that starts with what no value starts with is a syntax error. */
  lemma ClosingIsSyntax(t: Text, u: Unit)
    requires (u == RBRACKET || u == RBRACE) && SkipWs(t) != [] && SkipWs(t)[0] == u
    ensures ParseValue(t) == Fail(InvalidSyntax)
  {
    hide ParseArray, ParseObject, ParseString, ParseNumber, SkipWs;
  }

  // ----- the parser stops at the obstacle

  lemma OpenItemParses(item: Item, rest: Text)
    requires ItemGaps(item) && Valid(item.value)
    ensures var t := item.before + Spell(item.value, item.after + ([COMMA] + rest));
            ParseValue(SkipWs(t)) == Ok(Meaning(item.value), item.after + ([COMMA] + rest)) &&
            SkipWs(t) != [] && SkipWs(t)[0] != RBRACKET
  {
    hide ParseValue, Meaning, Valid, Spell, SkipWs;
    var tail := item.after + ([COMMA] + rest);
    GapEndsNumber(item.after, COMMA, rest);
    ValueComplete(item.before, item.value, tail);
    ParseValueSkips(item.before + Spell(item.value, tail));
    ValueAfterWs(item.before, item.value, tail);
    SpellStarts(item.value, tail);
    NoBracket(item.value, tail);
  }

  lemma SkipToComma(after: Text, rest: Text)
    requires AllWs(after)
    ensures SkipWs(after + ([COMMA] + rest)) == [COMMA] + rest
  {
    SkipWsOver(after, [COMMA] + rest);
  }

  lemma ItemsStep(t: Text, v: Json, after: Text, next: Text, done: seq<Json>)
    requires ParseValue(t) == Ok(v, after + ([COMMA] + next)) && AllWs(after)
    ensures ParseItems(t, done) == ParseItems(SkipWs(next), done + [v])
  {
    hide ParseValue, SkipWs;
    SkipToComma(after, next);
    HeadTail(COMMA, next);
  }

  lemma {:induction false} OpenItemsParse(items: seq<Item>, rest: Text, done: seq<Json>)
    requires ValidItems(items)
    ensures ParseItems(SkipWs(OpenItems(items, rest)), done) == ParseItems(SkipWs(rest), done + ItemsMeaning(items))
  {
    hide ParseItems, SkipWs, Spell, Valid, Meaning;
    if items == [] {
      assert done + [] == done;
    } else {
      var v := Meaning(items[0].value);
      var next := OpenItems(items[1..], rest);
      OpenItemParses(items[0], next);
      ItemsStep(SkipWs(OpenItems(items, rest)), v, items[0].after, next, done);
      OpenItemsParse(items[1..], rest, done + [v]);
      Reassociate(done, v, ItemsMeaning(items[1..]));
    }
  }

  /** A value that is refused inside an open array makes the array refused. */
  lemma ArrayFails(items: seq<Item>, rest: Text, e: FailureReason)
    requires ValidItems(items) && ParseValue(rest) == Fail(e) && e != InvalidSyntax
    ensures ParseArray([LBRACKET] + OpenItems(items, rest)) == Fail(e)
  {
    hide Spell, Valid, Meaning, ParseValue, SkipWs;
    var t := OpenItems(items, rest);
    HeadTail(LBRACKET, t);
    OpenItemsParse(items, rest, []);
    ParseValueSkips(rest);
    assert ParseItems(SkipWs(rest), [] + ItemsMeaning(items)) == Fail(e);
    if SkipWs(t) != [] && SkipWs(t)[0] == RBRACKET {
      if items == [] { ClosingIsSyntax(rest, RBRACKET); } else { OpenItemParses(items[0], OpenItems(items[1..], rest)); }
      assert false;
    }
  }

  lemma OpenMemberParses(m: Member, rest: Text, done: seq<Entry>)
    requires MemberGaps(m) && ValidPieces(m.key) && Valid(m.value) && !HasKey(done, PiecesMeaning(m.key))
    ensures var t := MemberText(m, [COMMA] + rest);
            ParseMember(SkipWs(t), done) == Ok(Entry(PiecesMeaning(m.key), Meaning(m.value)), m.after + ([COMMA] + rest)) &&
            SkipWs(t) != [] && SkipWs(t)[0] == QUOTE
  {
    hide ParseValue, Meaning, Valid, Spell, SkipWs, ParseString, SpellPieces, PiecesMeaning, HasKey;
    var tail := m.after + ([COMMA] + rest);
    var value := m.afterColon + Spell(m.value, tail);
    var colon := [COLON] + value;
    KeyStarts(m.before, m.key, m.beforeColon + colon);
    StringComplete(m.key, m.beforeColon + colon);
    SkipToColon(m.beforeColon, value);
    GapEndsNumber(m.after, COMMA, rest);
    ValueComplete(m.afterColon, m.value, tail);
    HeadTail(COLON, value);
  }

  lemma SkipToColon(ws: Text, rest: Text)
    requires AllWs(ws)
    ensures SkipWs(ws + ([COLON] + rest)) == [COLON] + rest
  {
    SkipWsOver(ws, [COLON] + rest);
  }

  lemma KeyStarts(ws: Text, key: seq<Piece>, rest: Text)
    requires AllWs(ws)
    ensures SkipWs(ws + ([QUOTE] + SpellPieces(key, rest))) == [QUOTE] + SpellPieces(key, rest)
  {
    hide SpellPieces;
    SkipWsOver(ws, [QUOTE] + SpellPieces(key, rest));
  }

  lemma MembersStep(t: Text, e: Entry, after: Text, next: Text, done: seq<Entry>)
    requires ParseMember(t, done) == Ok(e, after + ([COMMA] + next)) && AllWs(after)
    ensures ParseMembers(t, done) == ParseMembers(SkipWs(next), done + [e])
  {
    hide ParseMember, SkipWs;
    SkipToComma(after, next);
    HeadTail(COMMA, next);
  }

  lemma {:induction false} OpenMembersParse(members: seq<Member>, rest: Text, done: seq<Entry>)
    requires ValidMembers(members) && DistinctKeys(done + MembersMeaning(members))
    ensures ParseMembers(SkipWs(OpenMembers(members, rest)), done) == ParseMembers(SkipWs(rest), done + MembersMeaning(members))
  {
    hide ParseMembers, ParseMember, SkipWs, MemberText, Valid, Meaning, PiecesMeaning, DistinctKeys, HasKey;
    if members == [] {
      assert done + [] == done;
    } else {
      var m := members[0];
      var e := Entry(PiecesMeaning(m.key), Meaning(m.value));
      var next := OpenMembers(members[1..], rest);
      Reassociate(done, e, MembersMeaning(members[1..]));
      NewKey(done, e, MembersMeaning(members[1..]));
      OpenMemberParses(m, next, done);
      MembersStep(SkipWs(OpenMembers(members, rest)), e, m.after, next, done);
      OpenMembersParse(members[1..], rest, done + [e]);
    }
  }

  /** A member that is refused inside an open object makes the object refused. */
  lemma ObjectFails(members: seq<Member>, rest: Text, e: FailureReason)
    requires ValidOpenMembers(members) && SkipWs(rest) != [] && SkipWs(rest)[0] == QUOTE
    requires ParseMember(SkipWs(rest), MembersMeaning(members)) == Fail(e)
    ensures ParseObject([LBRACE] + OpenMembers(members, rest)) == Fail(e)
  {
    hide MemberText, Valid, Meaning, ParseMember, SkipWs, PiecesMeaning, HasKey;
    var t := OpenMembers(members, rest);
    HeadTail(LBRACE, t);
    assert [] + MembersMeaning(members) == MembersMeaning(members);
    OpenMembersParse(members, rest, []);
    if members != [] { FirstKeyStarts(members[0], OpenMembers(members[1..], rest)); }
    assert SkipWs(t)[0] == QUOTE;
  }

  lemma FirstKeyStarts(m: Member, rest: Text)
    requires MemberGaps(m)
    ensures SkipWs(MemberText(m, [COMMA] + rest)) != [] && SkipWs(MemberText(m, [COMMA] + rest))[0] == QUOTE
  {
    hide SpellPieces, Spell, SkipWs;
    KeyStarts(m.before, m.key, m.beforeColon + ([COLON] + (m.afterColon + Spell(m.value, m.after + ([COMMA] + rest)))));
  }

  lemma KeyThenFails(key: Member, rest: Text, done: seq<Entry>, e: FailureReason)
    requires AllWs(key.before) && AllWs(key.beforeColon) && ValidPieces(key.key) && !HasKey(done, PiecesMeaning(key.key))
    requires ParseValue(rest) == Fail(e)
    ensures SkipWs(KeyText(key, rest)) != [] && SkipWs(KeyText(key, rest))[0] == QUOTE
    ensures ParseMember(SkipWs(KeyText(key, rest)), done) == Fail(e)
  {
    hide ParseValue, SkipWs, ParseString, SpellPieces, PiecesMeaning, HasKey;
    KeyStarts(key.before, key.key, key.beforeColon + ([COLON] + rest));
    StringComplete(key.key, key.beforeColon + ([COLON] + rest));
    SkipToColon(key.beforeColon, rest);
    HeadTail(COLON, rest);
  }

  lemma FrameFails(f: Frame, rest: Text, e: FailureReason)
    requires ValidFrame(f) && ParseValue(rest) == Fail(e) && e != InvalidSyntax
    ensures ParseValue(FrameText(f, rest)) == Fail(e)
  {
    hide OpenItems, OpenMembers, KeyText, ParseArray, ParseObject, ParseMember, SkipWs;
    match f
    case OpenArray(before, items) =>
      ArrayFails(items, rest, e);
      OpensArray(before, OpenItems(items, rest));
    case OpenObject(before, members, key) =>
      KeyThenFails(key, rest, MembersMeaning(members), e);
      ObjectFails(members, KeyText(key, rest), e);
      OpensObject(before, OpenMembers(members, KeyText(key, rest)));
  }

  lemma OpensArray(before: Text, inner: Text)
    requires AllWs(before)
    ensures ParseValue(before + ([LBRACKET] + inner)) ==
            ParseArray([LBRACKET] + inner)
  {
    hide ParseArray, ParseObject, ParseString, ParseNumber;
    SkipWsOver(before, [LBRACKET] + inner);
    HeadTail(LBRACKET, inner);
  }

  lemma OpensObject(before: Text, inner: Text)
    requires AllWs(before)
    ensures ParseValue(before + ([LBRACE] + inner)) == ParseObject([LBRACE] + inner)
  {
    hide ParseArray, ParseObject, ParseString, ParseNumber;
    SkipWsOver(before, [LBRACE] + inner);
    HeadTail(LBRACE, inner);
  }

  lemma TokenLength(digits: Text, rest: Text)
    requires IntegerToken(digits, rest)
    ensures IntegerLength(digits + rest) == |digits|
    ensures (digits + rest)[..|digits|] == digits && (digits + rest)[|digits|..] == rest
  {
    var t := digits + rest;
    var n := DigitRun(t);
    assert forall i :: 0 <= i < |digits| ==> t[i] == digits[i];
    assert forall i :: 0 <= i < n ==> t[..n][i] == t[i] && IsDigit(t[i]);
    assert |digits| < |t| ==> t[|digits|] == rest[0];
  }

  lemma NumberRefused(negative: bool, digits: Text, rest: Text)
    requires IntegerToken(digits, rest) && (ContinuesNumber(rest) || DigitsValue(digits) > MAX_SAFE)
    ensures ParseNumber((if negative then [MINUS] else []) + (digits + rest)) == Fail(InvalidNumber)
  {
    hide IntegerLength;
    TokenLength(digits, rest);
    var t := digits + rest;
    assert t[0] == digits[0] && [] + t == t;
    HeadTail(MINUS, t);
    assert rest != [] ==> t[|digits|] == rest[0];
  }

  lemma ObstacleStops(o: Obstacle, rest: Text)
    requires ValidObstacle(o, rest)
    ensures ParseValue(ObstacleText(o, rest)) == Fail(KindOf(o))
  {
    match o
    case RepeatedKey(before, members, gap, key) => RepeatedStops(before, members, gap, key, rest);
    case BadNumber(before, negative, digits) => NumberStops(before, negative, digits, rest);
  }

  lemma RepeatedStops(before: Text, members: seq<Member>, gap: Text, key: seq<Piece>, rest: Text)
    requires ValidObstacle(RepeatedKey(before, members, gap, key), rest)
    ensures ParseValue(ObstacleText(RepeatedKey(before, members, gap, key), rest)) == Fail(DuplicateKeys)
  {
    hide OpenMembers, SkipWs, ParseString, SpellPieces, HasKey, ParseObject, ValidOpenMembers, ParseValue;
    var text := gap + ([QUOTE] + SpellPieces(key, rest));
    KeyStarts(gap, key, rest);
    StringComplete(key, rest);
    HeadTail(QUOTE, SpellPieces(key, rest));
    ObjectFails(members, text, DuplicateKeys);
    OpensObject(before, OpenMembers(members, text));
  }

  lemma NumberStops(before: Text, negative: bool, digits: Text, rest: Text)
    requires ValidObstacle(BadNumber(before, negative, digits), rest)
    ensures ParseValue(ObstacleText(BadNumber(before, negative, digits), rest)) == Fail(InvalidNumber)
  {
    hide ParseArray, ParseObject, ParseString, ParseNumber, ContinuesNumber;
    var t := (if negative then [MINUS] else []) + (digits + rest);
    NumberRefused(negative, digits, rest);
    assert t[0] == if negative then MINUS else digits[0];
    SkipWsOver(before, t);
  }

  lemma {:induction false} UnfinishedFails(fs: seq<Frame>, o: Obstacle, rest: Text)
    requires ValidFrames(fs) && ValidObstacle(o, rest)
    ensures ParseValue(Unfinished(fs, ObstacleText(o, rest))) == Fail(KindOf(o))
  {
    hide ParseValue, ObstacleText, ValidObstacle, ValidFrame, FrameText;
    if fs == [] {
      ObstacleStops(o, rest);
    } else {
      UnfinishedFails(fs[1..], o, rest);
      FrameFails(fs[0], Unfinished(fs[1..], ObstacleText(o, rest)), KindOf(o));
    }
  }

  // ----- the obstacle the parser stopped at

  lemma {:induction false} OpenItemsAppend(items: seq<Item>, item: Item, rest: Text)
    ensures OpenItems(items + [item], rest)
         == OpenItems(items, item.before + Spell(item.value, item.after + ([COMMA] + rest)))
  {
    hide Spell;
    if items == [] {
      assert [item][1..] == [];
    } else {
      assert (items + [item])[1..] == items[1..] + [item];
      OpenItemsAppend(items[1..], item, rest);
    }
  }

  lemma {:induction false} OpenMembersAppend(members: seq<Member>, m: Member, rest: Text)
    ensures OpenMembers(members + [m], rest) == OpenMembers(members, MemberText(m, [COMMA] + rest))
  {
    hide MemberText;
    if members == [] {
      assert [m][1..] == [];
    } else {
      assert (members + [m])[1..] == members[1..] + [m];
      OpenMembersAppend(members[1..], m, rest);
    }
  }

  lemma {:induction false} MembersMeaningAppend(members: seq<Member>, m: Member)
    requires ValidMembers(members) && MemberGaps(m) && ValidPieces(m.key) && Valid(m.value)
    ensures ValidMembers(members + [m])
    ensures MembersMeaning(members + [m]) == MembersMeaning(members) + [Entry(PiecesMeaning(m.key), Meaning(m.value))]
  {
    hide Meaning, Valid, PiecesMeaning, ValidPieces, MemberGaps;
    if members == [] {
      assert [m][1..] == [] && members + [m] == [m];
    } else {
      assert (members + [m])[1..] == members[1..] + [m];
      MembersMeaningAppend(members[1..], m);
    }
  }

  lemma FramesCons(f: Frame, fs: seq<Frame>, rest: Text)
    requires ValidFrame(f) && ValidFrames(fs)
    ensures ValidFrames([f] + fs) && Unfinished([f] + fs, rest) == FrameText(f, Unfinished(fs, rest))
  {
    hide ValidFrame, FrameText;
    assert ([f] + fs)[1..] == fs;
  }

  /** The token and what follows it, where the digits of a number are refused. */
  lemma RefusedDigits(negative: bool, d: Text) returns (digits: Text, rest: Text)
    requires ParseInteger(negative, d) == Fail(InvalidNumber)
    ensures d == digits + rest && IntegerToken(digits, rest) && (ContinuesNumber(rest) || DigitsValue(digits) > MAX_SAFE)
  {
    var n := IntegerLength(d);
    digits, rest := d[..n], d[n..];
    assert digits[0] == d[0];
    assert rest != [] ==> rest[0] == d[n];
  }

  lemma RefusedNumber(before: Text, t: Text) returns (o: Obstacle, rest: Text)
    requires AllWs(before) && t != [] && (t[0] == MINUS || IsDigit(t[0]))
    requires ParseNumber(t) == Fail(InvalidNumber)
    ensures ValidObstacle(o, rest) && KindOf(o) == InvalidNumber && before + t == ObstacleText(o, rest)
  {
    hide ParseInteger, IntegerToken, ContinuesNumber;
    var negative := t[0] == MINUS;
    var d := if negative then t[1..] else t;
    var digits;
    digits, rest := RefusedDigits(negative, d);
    o := BadNumber(before, negative, digits);
    if negative { assert t == [MINUS] + d; } else { assert [] + d == d; }
  }

  lemma StringFailsBySyntax(t: Text)
    ensures ParseString(t).Fail? ==> ParseString(t) == Fail(InvalidSyntax)
  {
  }

  lemma NumberFails(t: Text)
    ensures ParseNumber(t).Fail? && ParseNumber(t).reason != InvalidSyntax ==> ParseNumber(t) == Fail(InvalidNumber)
  {
  }

  lemma {:induction false} ValueObstacle(ws: Text, t: Text) returns (fs: seq<Frame>, o: Obstacle, rest: Text)
    requires AllWs(ws) && ParseValue(t).Fail? && ParseValue(t).reason != InvalidSyntax
    ensures Meets(ws + t, fs, o, rest) && KindOf(o) == ParseValue(t).reason
    decreases |t|, 2
  {
    hide ParseArray, ParseObject, ParseNumber, ValidObstacle, ObstacleText, ParseString, KindOf, ValidFrame, FrameText;
    var gap := SkipWsSplits(t);
    var u := SkipWs(t);
    PrefixWs(ws, gap, u);
    if u[0] == LBRACE {
      fs, o, rest := ObjectObstacle(ws + gap, u);
    } else if u[0] == LBRACKET {
      fs, o, rest := ArrayObstacle(ws + gap, u);
    } else {
      StringFailsBySyntax(u);
      assert u[0] == MINUS || IsDigit(u[0]);
      NumberFails(u);
      o, rest := RefusedNumber(ws + gap, u);
      fs := [];
    }
  }

  lemma {:induction false} ArrayObstacle(before: Text, t: Text) returns (fs: seq<Frame>, o: Obstacle, rest: Text)
    requires AllWs(before) && t != [] && t[0] == LBRACKET
    requires ParseArray(t).Fail? && ParseArray(t).reason != InvalidSyntax
    ensures Meets(before + t, fs, o, rest) && KindOf(o) == ParseArray(t).reason
    decreases |t|, 0
  {
    hide ParseItems, KindOf, Meets;
    var ws := SkipWsSplits(t[1..]);
    var u := SkipWs(t[1..]);
    assert t == [LBRACKET] + (ws + u);
    fs, o, rest := ItemsObstacle(before, [], ws, u, []);
  }

  lemma {:induction false} ItemsObstacle(before: Text, prior: seq<Item>, ws: Text, t: Text, done: seq<Json>)
    returns (fs: seq<Frame>, o: Obstacle, rest: Text)
    requires AllWs(before) && ValidItems(prior) && AllWs(ws)
    requires ParseItems(t, done).Fail? && ParseItems(t, done).reason != InvalidSyntax
    ensures Meets(before + ([LBRACKET] + OpenItems(prior, ws + t)), fs, o, rest) && KindOf(o) == ParseItems(t, done).reason
    decreases |t|, 3
  {
    hide ParseValue, KindOf, ValidObstacle, ObstacleText, OpenItems, Spell, Valid, Meaning, SkipWs;
    if ParseValue(t).Fail? {
      var inner;
      inner, o, rest := ValueObstacle(ws, t);
      var f := OpenArray(before, prior);
      fs := [f] + inner;
      FramesCons(f, inner, ObstacleText(o, rest));
    } else {
      var gap, c := ValueSound(t);
      var tail := ParseValue(t).rest;
      var after := SkipWsSplits(tail);
      var u := SkipWs(tail);
      var next := SkipWsSplits(u[1..]);
      var item := Item(ws + gap, c, after);
      assert u == [COMMA] + (next + SkipWs(u[1..]));
      assert ws + t == item.before + Spell(c, item.after + ([COMMA] + (next + SkipWs(u[1..]))));
      OpenItemsAppend(prior, item, next + SkipWs(u[1..]));
      fs, o, rest := ItemsObstacle(before, prior + [item], next, SkipWs(u[1..]), done + [ParseValue(t).value]);
    }
  }

  lemma {:induction false} ObjectObstacle(before: Text, t: Text) returns (fs: seq<Frame>, o: Obstacle, rest: Text)
    requires AllWs(before) && t != [] && t[0] == LBRACE
    requires ParseObject(t).Fail? && ParseObject(t).reason != InvalidSyntax
    ensures Meets(before + t, fs, o, rest) && KindOf(o) == ParseObject(t).reason
    decreases |t|, 0
  {
    hide ParseMembers, KindOf, Meets;
    var ws := SkipWsSplits(t[1..]);
    var u := SkipWs(t[1..]);
    assert t == [LBRACE] + (ws + u);
    fs, o, rest := MembersObstacle(before, [], ws, u);
  }

  lemma {:induction false} MembersObstacle(before: Text, prior: seq<Member>, ws: Text, t: Text)
    returns (fs: seq<Frame>, o: Obstacle, rest: Text)
    requires AllWs(before) && ValidOpenMembers(prior) && AllWs(ws)
    requires ParseMembers(t, MembersMeaning(prior)).Fail?
    requires ParseMembers(t, MembersMeaning(prior)).reason != InvalidSyntax
    ensures Meets(before + ([LBRACE] + OpenMembers(prior, ws + t)), fs, o, rest)
    ensures KindOf(o) == ParseMembers(t, MembersMeaning(prior)).reason
    decreases |t|, 4
  {
    hide ParseMember, KindOf, Meets, OpenMembers, MembersMeaning, MemberText, Spell, Valid, Meaning, SkipWs;
    var done := MembersMeaning(prior);
    if ParseMember(t, done).Fail? {
      fs, o, rest := MemberObstacle(before, prior, ws, t);
    } else {
      var m := MemberSound(ws, t, done);
      var tail := ParseMember(t, done).rest;
      var after := SkipWsSplits(tail);
      var u := SkipWs(tail);
      var next := SkipWsSplits(u[1..]);
      var member := m.(after := after);
      var x := next + SkipWs(u[1..]);
      assert u == [COMMA] + x;
      ReadMemberText(m, after, ws, t, tail, [COMMA] + x);
      NewMember(prior, member, done, t);
      OpenMembersAppend(prior, member, x);
      fs, o, rest := MembersObstacle(before, prior + [member], next, SkipWs(u[1..]));
    }
  }

  lemma ReadMemberText(m: Member, after: Text, ws: Text, t: Text, tail: Text, next: Text)
    requires m.before == ws && tail == after + next
    requires t == [QUOTE] + SpellPieces(m.key, m.beforeColon + ([COLON] + (m.afterColon + Spell(m.value, tail))))
    ensures ws + t == MemberText(m.(after := after), next)
  {
  }

  lemma NewMember(prior: seq<Member>, m: Member, done: seq<Entry>, t: Text)
    requires ValidOpenMembers(prior) && done == MembersMeaning(prior) && ParseMember(t, done).Ok?
    requires MemberGaps(m) && ValidPieces(m.key) && Valid(m.value)
    requires ParseMember(t, done).value == Entry(PiecesMeaning(m.key), Meaning(m.value))
    ensures ValidOpenMembers(prior + [m]) && MembersMeaning(prior + [m]) == done + [ParseMember(t, done).value]
  {
    hide Meaning, Valid, PiecesMeaning, ValidPieces, MemberGaps, ParseValue;
    MembersMeaningAppend(prior, m);
    DistinctAppend(done, ParseMember(t, done).value);
  }

  lemma {:induction false} MemberObstacle(before: Text, prior: seq<Member>, ws: Text, t: Text)
    returns (fs: seq<Frame>, o: Obstacle, rest: Text)
    requires AllWs(before) && ValidOpenMembers(prior) && AllWs(ws)
    requires ParseMember(t, MembersMeaning(prior)).Fail?
    requires ParseMember(t, MembersMeaning(prior)).reason != InvalidSyntax
    ensures Meets(before + ([LBRACE] + OpenMembers(prior, ws + t)), fs, o, rest)
    ensures KindOf(o) == ParseMember(t, MembersMeaning(prior)).reason
    decreases |t|, 3
  {
    hide ParseValue, ParseString, OpenMembers, MembersMeaning, Spell, SpellPieces, Valid, Meaning, SkipWs, HasKey, PiecesMeaning;
    var done := MembersMeaning(prior);
    StringFailsBySyntax(t);
    var pieces := StringSound(t);
    var tail := ParseString(t).rest;
    if HasKey(done, PiecesMeaning(pieces)) {
      o := RepeatedKey(before, prior, ws, pieces);
      fs, rest := [], tail;
    } else {
      var beforeColon := SkipWsSplits(tail);
      var u := SkipWs(tail);
      assert u == [COLON] + u[1..];
      var inner;
      inner, o, rest := ValueObstacle([], u[1..]);
      assert [] + u[1..] == u[1..];
      var key := Member(ws, pieces, beforeColon, [], NullWord, []);
      var f := OpenObject(before, prior, key);
      fs := [f] + inner;
      FramesCons(f, inner, ObstacleText(o, rest));
    }
  }

  // ----- which reason a refused text gets

  /** A repeated key is reported exactly for the unfinished documents whose next key is already in its object. */
  lemma DuplicateKeysExact(t: Text)
    ensures Parse(t) == Failure(DuplicateKeys) <==>
            exists fs, before, members, gap, key, rest :: Meets(t, fs, RepeatedKey(before, members, gap, key), rest)
  {
    hide Meets;
    if Parse(t) == Failure(DuplicateKeys) {
      var fs, o, rest := RefusalObstacle(t);
      assert o == RepeatedKey(o.before, o.members, o.gap, o.key);
    }
    forall fs, before, members, gap, key, rest | Meets(t, fs, RepeatedKey(before, members, gap, key), rest)
      ensures Parse(t) == Failure(DuplicateKeys)
    {
      MeetingFails(t, fs, RepeatedKey(before, members, gap, key), rest);
    }
  }

  /** A number is reported exactly where an integer that is too large, or goes on as a fraction or exponent, is met. */
  lemma InvalidNumberExact(t: Text)
    ensures Parse(t) == Failure(InvalidNumber) <==>
            exists fs, before, negative, digits, rest :: Meets(t, fs, BadNumber(before, negative, digits), rest)
  {
    hide Meets;
    if Parse(t) == Failure(InvalidNumber) {
      var fs, o, rest := RefusalObstacle(t);
      assert o == BadNumber(o.before, o.negative, o.digits);
    }
    forall fs, before, negative, digits, rest | Meets(t, fs, BadNumber(before, negative, digits), rest)
      ensures Parse(t) == Failure(InvalidNumber)
    {
      MeetingFails(t, fs, BadNumber(before, negative, digits), rest);
    }
  }

  /** Every other text that is no document is a syntax error. */
  lemma InvalidSyntaxExact(t: Text)
    ensures Parse(t) == Failure(InvalidSyntax) <==>
            !(exists before, c, after :: IsDocument(t, before, c, after)) &&
            !(exists fs, o, rest :: Meets(t, fs, o, rest))
  {
    hide Meets, IsDocument;
    if Parse(t) == Failure(InvalidSyntax) {
      forall before, c, after | IsDocument(t, before, c, after) ensures false { DocumentParses(t, before, c, after); }
      forall fs, o, rest | Meets(t, fs, o, rest) ensures false { MeetingFails(t, fs, o, rest); }
    } else if Parse(t).Failure? {
      var fs, o, rest := RefusalObstacle(t);
    } else {
      ExactLanguage(t, Parse(t).value);
    }
  }

  lemma RefusalObstacle(t: Text) returns (fs: seq<Frame>, o: Obstacle, rest: Text)
    requires Parse(t).Failure? && Parse(t).reason != InvalidSyntax
    ensures Meets(t, fs, o, rest) && KindOf(o) == Parse(t).reason
  {
    hide Meets, ParseValue;
    fs, o, rest := ValueObstacle([], t);
    assert [] + t == t;
  }

  lemma MeetingFails(t: Text, fs: seq<Frame>, o: Obstacle, rest: Text)
    requires Meets(t, fs, o, rest)
    ensures Parse(t) == Failure(KindOf(o))
  {
    hide ParseValue, Unfinished, ObstacleText, ValidObstacle, KindOf;
    UnfinishedFails(fs, o, rest);
  }

  // ----- the parse boundary

  ghost predicate RepeatsKey(t: Text) {
    exists fs, before, members, gap, key, rest :: Meets(t, fs, RepeatedKey(before, members, gap, key), rest)
  }

  ghost predicate HasBadNumber(t: Text) {
    exists fs, before, negative, digits, rest :: Meets(t, fs, BadNumber(before, negative, digits), rest)
  }

  ghost predicate IsText(t: Text) {
    exists before, c, after :: IsDocument(t, before, c, after)
  }

  /** What preflight reports of a text that is no document: the hash of the text itself and one of three reasons. */
  lemma BoundaryReasons(p: Platform, raw: Text)
    ensures IsText(raw) <==> Parse(raw).Success?
    ensures !IsText(raw) ==>
            RunPreflight(p, raw) == Failed(p, p.sha256(raw),
              if RepeatsKey(raw) then DuplicateJsonKeys
              else if HasBadNumber(raw) then InvalidJsonNumber else InvalidJsonSyntax)
    ensures !(RepeatsKey(raw) && HasBadNumber(raw))
    ensures IsText(raw) ==> !RepeatsKey(raw) && !HasBadNumber(raw)
  {
    hide Meets, IsDocument, Parse, Validate, Canonicalize;
    DuplicateKeysExact(raw);
    InvalidNumberExact(raw);
    if Parse(raw).Success? {
      ExactLanguage(raw, Parse(raw).value);
    } else {
      forall before, c, after | IsDocument(raw, before, c, after) ensures false { DocumentParses(raw, before, c, after); }
    }
  }
}
