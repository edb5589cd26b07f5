/** Why the second parser refuses a text: the same obstacles as the first, told apart by what follows a number. */
module BrowserFailures {
  import opened Units
  import opened JsonValues
  import opened Grammar
  import opened StrictParser
  import opened ParserLanguage
  import opened BrowserParser
  import opened ParseFailures

  /** The second parser is stuck in the middle of a text: it refuses, or it has read a number before a point or an exponent. */
  predicate Stuck(t: Text, e: FailureReason) {
    var r := BrowserValue(t);
    r == Fail(e) || (e == InvalidSyntax && r.Ok? && StartsExponent(r.rest))
  }

  /** The text does not start with a closing bracket. */
  predicate OpensValue(t: Text) {
    SkipWs(t) != [] && SkipWs(t)[0] != RBRACKET
  }

  lemma BrowserSkips(t: Text)
    ensures BrowserValue(SkipWs(t)) == BrowserValue(t)
  {
    SkipWsTwice(t);
  }

  lemma BrowserItemsStep(t: Text, v: Json, after: Text, next: Text, done: seq<Json>)
    requires BrowserValue(t) == Ok(v, after + ([COMMA] + next)) && AllWs(after)
    ensures BrowserItems(t, done) == BrowserItems(SkipWs(next), done + [v])
  {
    hide BrowserValue, SkipWs;
    SkipToComma(after, next);
    HeadTail(COMMA, next);
  }

  lemma {:induction false} BrowserOpenItems(items: seq<Item>, rest: Text, done: seq<Json>)
    requires ValidItems(items)
    ensures BrowserItems(SkipWs(OpenItems(items, rest)), StripItems(done))
         == BrowserItems(SkipWs(rest), StripItems(done + ItemsMeaning(items)))
  {
    hide BrowserItems, SkipWs, Spell, Valid, Meaning, StripItems, StripProto;
    if items == [] {
      assert done + [] == done;
    } else {
      var v := Meaning(items[0].value);
      var next := OpenItems(items[1..], rest);
      var t := SkipWs(OpenItems(items, rest));
      OpenItemParses(items[0], next);
      ValuesAgree(t);
      BrowserItemsStep(t, StripProto(v), items[0].after, next, StripItems(done));
      StripItemsAppend(done, v);
      BrowserOpenItems(items[1..], rest, done + [v]);
      Reassociate(done, v, ItemsMeaning(items[1..]));
    }
  }

  lemma PointStays(t: Text)
    requires StartsExponent(t)
    ensures t != [] && SkipWs(t) == t && t[0] != COMMA && t[0] != RBRACKET && t[0] != RBRACE
  {
  }

  lemma StuckItems(t: Text, e: FailureReason, done: seq<Json>)
    requires Stuck(t, e)
    ensures BrowserItems(SkipWs(t), done) == Fail(e)
  {
    hide BrowserValue, SkipWs, StartsExponent;
    BrowserSkips(t);
    var r := BrowserValue(t);
    if r.Ok? { PointStays(r.rest); }
  }

  lemma BrowserArrayFails(items: seq<Item>, rest: Text, e: FailureReason)
    requires ValidItems(items) && Stuck(rest, e) && OpensValue(rest)
    ensures BrowserArray([LBRACKET] + OpenItems(items, rest)) == Fail(e)
  {
    hide Spell, Valid, Meaning, BrowserValue, SkipWs, Stuck;
    var t := OpenItems(items, rest);
    HeadTail(LBRACKET, t);
    var none: seq<Json> := [];
    assert StripItems(none) == [];
    BrowserOpenItems(items, rest, none);
    StuckItems(rest, e, StripItems(none + ItemsMeaning(items)));
    assert OpensValue(t) by { if items != [] { OpenItemParses(items[0], OpenItems(items[1..], rest)); } }
  }

  lemma BrowserMembersStep(t: Text, seen: set<Text>, e: Entry, after: Text, next: Text, done: seq<Entry>)
    requires BrowserMember(t, seen) == Ok(e, after + ([COMMA] + next)) && AllWs(after)
    ensures BrowserMembers(t, seen, done) == BrowserMembers(SkipWs(next), seen + {e.key}, Assign(done, e))
  {
    hide BrowserMember, SkipWs, Assign;
    SkipToComma(after, next);
    HeadTail(COMMA, next);
  }

  lemma {:induction false} BrowserOpenMembers(members: seq<Member>, rest: Text, done: seq<Entry>)
    requires ValidMembers(members) && DistinctKeys(done + MembersMeaning(members))
    ensures var all := done + MembersMeaning(members);
            BrowserMembers(SkipWs(OpenMembers(members, rest)), KeySet(done), StripEntries(done)) ==
            BrowserMembers(SkipWs(rest), KeySet(all), StripEntries(all))
  {
    hide BrowserMembers, BrowserMember, ParseMember, SkipWs, MemberText, Valid, Meaning, PiecesMeaning, DistinctKeys, HasKey,
         StripEntries, StripProto, KeySet, Assign;
    if members == [] {
      assert done + [] == done;
    } else {
      var m := members[0];
      var e := Entry(PiecesMeaning(m.key), Meaning(m.value));
      var next := OpenMembers(members[1..], rest);
      var t := SkipWs(OpenMembers(members, rest));
      Reassociate(done, e, MembersMeaning(members[1..]));
      NewKey(done, e, MembersMeaning(members[1..]));
      OpenMemberParses(m, next, done);
      MemberAgrees(t, done);
      BrowserMembersStep(t, KeySet(done), Entry(e.key, StripProto(e.value)), m.after, next, StripEntries(done));
      StripEntriesAppend(done, e);
      KeysAppend(done, e);
      BrowserOpenMembers(members[1..], rest, done + [e]);
    }
  }

  lemma FirstIsKey(members: seq<Member>, rest: Text)
    requires ValidMembers(members) && SkipWs(rest) != [] && SkipWs(rest)[0] == QUOTE
    ensures SkipWs(OpenMembers(members, rest)) != [] && SkipWs(OpenMembers(members, rest))[0] == QUOTE
  {
    hide MemberText, SkipWs, Valid;
    if members != [] { FirstKeyStarts(members[0], OpenMembers(members[1..], rest)); }
  }

  /** A member that fails, or ends before a point or an exponent, makes the object refused. */
  lemma BrowserObjectFails(members: seq<Member>, rest: Text, e: FailureReason)
    requires ValidOpenMembers(members) && SkipWs(rest) != [] && SkipWs(rest)[0] == QUOTE
    requires var r := BrowserMember(SkipWs(rest), KeySet(MembersMeaning(members)));
             r == Fail(e) || (e == InvalidSyntax && r.Ok? && StartsExponent(r.rest))
    ensures BrowserObject([LBRACE] + OpenMembers(members, rest)) == Fail(e)
  {
    hide MemberText, Valid, Meaning, BrowserMember, PiecesMeaning, HasKey, SkipWs, StartsExponent, ValidMembers;
    var t := OpenMembers(members, rest);
    HeadTail(LBRACE, t);
    var r := BrowserMember(SkipWs(rest), KeySet(MembersMeaning(members)));
    if r.Ok? { PointStays(r.rest); }
    var none: seq<Entry> := [];
    assert none + MembersMeaning(members) == MembersMeaning(members) && KeySet(none) == {} && StripEntries(none) == [];
    BrowserOpenMembers(members, rest, none);
    FirstIsKey(members, rest);
  }

  lemma BrowserKeyFails(key: Member, rest: Text, seen: set<Text>, e: FailureReason)
    requires AllWs(key.before) && AllWs(key.beforeColon) && ValidPieces(key.key) && PiecesMeaning(key.key) !in seen
    requires Stuck(rest, e)
    ensures SkipWs(KeyText(key, rest)) != [] && SkipWs(KeyText(key, rest))[0] == QUOTE
    ensures var r := BrowserMember(SkipWs(KeyText(key, rest)), seen);
            r == Fail(e) || (e == InvalidSyntax && r.Ok? && StartsExponent(r.rest))
  {
    hide BrowserValue, SkipWs, ParseString, SpellPieces, PiecesMeaning;
    KeyStarts(key.before, key.key, key.beforeColon + ([COLON] + rest));
    StringComplete(key.key, key.beforeColon + ([COLON] + rest));
    SkipToColon(key.beforeColon, rest);
    HeadTail(COLON, rest);
  }

  lemma NotASeenKey(es: seq<Entry>, k: Text)
    ensures HasKey(es, k) <==> k in KeySet(es)
  {
  }

  lemma BrowserFrameFails(f: Frame, rest: Text, e: FailureReason)
    requires ValidFrame(f) && Stuck(rest, e) && OpensValue(rest)
    ensures BrowserValue(FrameText(f, rest)) == Fail(e) && OpensValue(FrameText(f, rest))
  {
    hide OpenItems, OpenMembers, KeyText, BrowserArray, BrowserObject, BrowserMember, SkipWs, HasKey, KeySet, Stuck;
    match f
    case OpenArray(before, items) =>
      BrowserArrayFails(items, rest, e);
      BrowserOpens(before, LBRACKET, OpenItems(items, rest));
    case OpenObject(before, members, key) =>
      NotASeenKey(MembersMeaning(members), PiecesMeaning(key.key));
      BrowserKeyFails(key, rest, KeySet(MembersMeaning(members)), e);
      BrowserObjectFails(members, KeyText(key, rest), e);
      BrowserOpens(before, LBRACE, OpenMembers(members, KeyText(key, rest)));
  }

  lemma BrowserOpens(before: Text, open: Unit, inner: Text)
    requires AllWs(before) && (open == LBRACKET || open == LBRACE)
    ensures BrowserValue(before + ([open] + inner)) ==
            (if open == LBRACKET then BrowserArray([open] + inner) else BrowserObject([open] + inner))
    ensures OpensValue(before + ([open] + inner))
  {
    hide BrowserArray, BrowserObject, ParseString, BrowserNumber;
    SkipWsOver(before, [open] + inner);
    HeadTail(open, inner);
  }

  /** What the second parser makes of an obstacle: a number that is not a longer match, and is in range, is read first. */
  function BrowserKind(o: Obstacle, rest: Text): FailureReason
    requires o.BadNumber? ==> AllDigits(o.digits)
  {
    match o
    case RepeatedKey(_, _, _, _) => DuplicateKeys
    case BadNumber(_, _, digits) => if HasFraction(rest) || DigitsValue(digits) > MAX_SAFE then InvalidNumber else InvalidSyntax
  }

  lemma BrowserRepeated(before: Text, members: seq<Member>, gap: Text, key: seq<Piece>, rest: Text)
    requires ValidObstacle(RepeatedKey(before, members, gap, key), rest)
    ensures Stuck(ObstacleText(RepeatedKey(before, members, gap, key), rest), DuplicateKeys)
    ensures OpensValue(ObstacleText(RepeatedKey(before, members, gap, key), rest))
  {
    hide OpenMembers, SkipWs, ParseString, SpellPieces, HasKey, KeySet, BrowserObject, ValidOpenMembers, BrowserValue, OpensValue;
    var text := gap + ([QUOTE] + SpellPieces(key, rest));
    KeyStarts(gap, key, rest);
    StringComplete(key, rest);
    HeadTail(QUOTE, SpellPieces(key, rest));
    MeaningOfOpen(members);
    NotASeenKey(MembersMeaning(members), PiecesMeaning(key));
    BrowserObjectFails(members, text, DuplicateKeys);
    BrowserOpens(before, LBRACE, OpenMembers(members, text));
  }

  lemma MeaningOfOpen(members: seq<Member>)
    requires ValidOpenMembers(members)
    ensures ValidMembers(members)
  {
  }

  lemma IntegerStuck(negative: bool, digits: Text, rest: Text)
    requires IntegerToken(digits, rest) && (ContinuesNumber(rest) || DigitsValue(digits) > MAX_SAFE)
    ensures var r := BrowserInteger(negative, digits + rest);
            if HasFraction(rest) || DigitsValue(digits) > MAX_SAFE then r == Fail(InvalidNumber)
            else r.Ok? && StartsExponent(r.rest)
  {
    hide IntegerLength, HasFraction, IntegerToken;
    NotNothing(digits, rest);
    TokenLength(digits, rest);
  }

  lemma NotNothing(digits: Text, rest: Text)
    requires IntegerToken(digits, rest)
    ensures digits != [] && AllDigits(digits) && IsDigit(digits[0])
  {
  }

  lemma NumberStuck(negative: bool, digits: Text, rest: Text)
    requires IntegerToken(digits, rest) && (ContinuesNumber(rest) || DigitsValue(digits) > MAX_SAFE)
    ensures var t, r := SignedText(negative, digits + rest), BrowserNumber(SignedText(negative, digits + rest));
            && t != [] && (t[0] == MINUS || IsDigit(t[0]))
            && if HasFraction(rest) || DigitsValue(digits) > MAX_SAFE then r == Fail(InvalidNumber)
               else r.Ok? && StartsExponent(r.rest)
  {
    hide BrowserInteger, HasFraction, IntegerToken, StartsExponent;
    var d := digits + rest;
    NotNothing(digits, rest);
    IntegerStuck(negative, digits, rest);
    assert d[0] == digits[0];
    HeadTail(MINUS, d);
  }

  function SignedText(negative: bool, d: Text): Text {
    if negative then [MINUS] + d else d
  }

  lemma NumberDispatch(before: Text, t: Text)
    requires AllWs(before) && t != [] && (t[0] == MINUS || IsDigit(t[0]))
    ensures BrowserValue(before + t) == BrowserNumber(t) && OpensValue(before + t)
  {
    hide BrowserArray, BrowserObject, ParseString, BrowserNumber;
    SkipWsOver(before, t);
  }

  lemma BrowserBadNumber(before: Text, negative: bool, digits: Text, rest: Text)
    requires ValidObstacle(BadNumber(before, negative, digits), rest)
    ensures Stuck(ObstacleText(BadNumber(before, negative, digits), rest), BrowserKind(BadNumber(before, negative, digits), rest))
    ensures OpensValue(ObstacleText(BadNumber(before, negative, digits), rest))
  {
    hide BrowserValue, BrowserNumber, HasFraction, ContinuesNumber, IntegerToken, StartsExponent, OpensValue;
    var d := digits + rest;
    assert [] + d == d;
    NotNothing(digits, rest);
    NumberStuck(negative, digits, rest);
    NumberDispatch(before, SignedText(negative, d));
  }

  lemma {:induction false} BrowserUnfinished(fs: seq<Frame>, o: Obstacle, rest: Text)
    requires ValidFrames(fs) && ValidObstacle(o, rest)
    ensures var t := Unfinished(fs, ObstacleText(o, rest)); Stuck(t, BrowserKind(o, rest)) && OpensValue(t)
  {
    hide BrowserValue, ObstacleText, ValidFrame, FrameText, OpensValue, HasFraction, ValidOpenMembers;
    if fs == [] {
      match o
      case RepeatedKey(before, members, gap, key) => BrowserRepeated(before, members, gap, key, rest);
      case BadNumber(before, negative, digits) => BrowserBadNumber(before, negative, digits, rest);
    } else {
      BrowserUnfinished(fs[1..], o, rest);
      BrowserFrameFails(fs[0], Unfinished(fs[1..], ObstacleText(o, rest)), BrowserKind(o, rest));
    }
  }

  /**
   The second parser meets the obstacle the first one meets, and reports it alike, except that a number in range before a
   point or an exponent without digits is a syntax error to it.
   */
  lemma BrowserReasonExact(t: Text, fs: seq<Frame>, o: Obstacle, rest: Text)
    requires Meets(t, fs, o, rest)
    ensures BrowserParse(t) == Failure(BrowserKind(o, rest))
  {
    hide BrowserValue, Unfinished, ObstacleText, ValidFrames, HasFraction, OpensValue;
    BrowserUnfinished(fs, o, rest);
    var r := BrowserValue(t);
    if r.Ok? { PointStays(r.rest); }
  }

  /** A text that meets no obstacle and is no document is a syntax error to both. */
  lemma BrowserSyntaxExact(t: Text)
    requires Parse(t) == Failure(InvalidSyntax)
    ensures BrowserParse(t) == Failure(InvalidSyntax)
  {
    hide Parse, BrowserParse;
    ReasonsAgree(t);
  }
}
