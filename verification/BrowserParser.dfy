/**
 The second strict parser, in main.js. It throws where shared/json.ts returns a failure, matches numbers with
 a longer pattern, and stores members by plain assignment, so a `__proto__` member sets the prototype instead
 of becoming a property. Its results are described on the text left to read, as in StrictParser.
 */
module BrowserParser {
  import opened Units
  import opened JsonValues
  import opened StrictParser
  import opened ParserLanguage

  const PROTO: Text := Ascii("__proto__")

  // ----- the result of each function

  predicate StartsExponent(t: Text) {
    t != [] && (t[0] == DOT || t[0] == LOWER_E || t[0] == UPPER_E)
  }

  /** Does [.eE][+\-]?\d+ match here? */
  predicate HasFraction(t: Text) {
    StartsExponent(t) &&
    var u := if |t| > 1 && (t[1] == 0x2B || t[1] == MINUS) then t[2..] else t[1..];
    DigitRun(u) > 0
  }

  function BrowserInteger(negative: bool, t: Text): (r: Outcome<Json>)
    ensures r.Ok? ==> |r.rest| < |t|
  {
    var n := IntegerLength(t);
    if n == 0 then Fail(InvalidSyntax)
    else if HasFraction(t[n..]) then Fail(InvalidNumber)
    else if DigitsValue(t[..n]) > MAX_SAFE then Fail(InvalidNumber)
    else Ok(TokenValue(negative, t[..n]), t[n..])
  }

  function BrowserNumber(t: Text): (r: Outcome<Json>)
    ensures r.Ok? ==> |r.rest| < |t|
  {
    if t != [] && t[0] == MINUS then BrowserInteger(true, t[1..]) else BrowserInteger(false, t)
  }

  function BrowserValue(t: Text): (r: Outcome<Json>)
    ensures r.Ok? ==> |r.rest| < |t|
    decreases |t|, 1
  {
    var u := SkipWs(t);
    if u == [] then Fail(InvalidSyntax)
    else if u[0] == LBRACE then BrowserObject(u)
    else if u[0] == LBRACKET then BrowserArray(u)
    else if u[0] == QUOTE then
      (match ParseString(u) case Ok(s, rest) => Ok(Str(s), rest) case Fail(e) => Fail(e))
    else if u[0] == MINUS || IsDigit(u[0]) then BrowserNumber(u)
    else if TRUE <= u then Ok(Bool(true), u[4..])
    else if FALSE <= u then Ok(Bool(false), u[5..])
    else if NULL <= u then Ok(Null, u[4..])
    else Fail(InvalidSyntax)
  }

  function BrowserArray(t: Text): (r: Outcome<Json>)
    requires t != []
    ensures r.Ok? ==> |r.rest| < |t|
    decreases |t|, 0
  {
    var u := SkipWs(t[1..]);
    if u != [] && u[0] == RBRACKET then Ok(Arr([]), u[1..])
    else match BrowserItems(u, []) case Ok(vs, rest) => Ok(Arr(vs), rest) case Fail(e) => Fail(e)
  }

  function BrowserItems(t: Text, items: seq<Json>): (r: Outcome<seq<Json>>)
    ensures r.Ok? ==> |r.rest| < |t|
    decreases |t|, 2
  {
    match BrowserValue(t)
    case Fail(e) => Fail(e)
    case Ok(v, rest) =>
      var u := SkipWs(rest);
      if u != [] && u[0] == RBRACKET then Ok(items + [v], u[1..])
      else if u == [] || u[0] != COMMA then Fail(InvalidSyntax)
      else BrowserItems(SkipWs(u[1..]), items + [v])
  }

  function BrowserObject(t: Text): (r: Outcome<Json>)
    requires t != []
    ensures r.Ok? ==> |r.rest| < |t|
    decreases |t|, 0
  {
    var u := SkipWs(t[1..]);
    if u != [] && u[0] == RBRACE then Ok(Obj([]), u[1..])
    else match BrowserMembers(u, {}, []) case Ok(es, rest) => Ok(Obj(es), rest) case Fail(e) => Fail(e)
  }

  function BrowserMember(t: Text, seen: set<Text>): (r: Outcome<Entry>)
    ensures r.Ok? ==> |r.rest| < |t|
    decreases |t|, 2
  {
    match ParseString(t)
    case Fail(e) => Fail(e)
    case Ok(key, rest) =>
      if key in seen then Fail(DuplicateKeys) else
      var u := SkipWs(rest);
      if u == [] || u[0] != COLON then Fail(InvalidSyntax) else
      match BrowserValue(u[1..]) case Ok(v, after) => Ok(Entry(key, v), after) case Fail(e) => Fail(e)
  }

  function BrowserMembers(t: Text, seen: set<Text>, es: seq<Entry>): (r: Outcome<seq<Entry>>)
    ensures r.Ok? ==> |r.rest| < |t|
    decreases |t|, 3
  {
    match BrowserMember(t, seen)
    case Fail(e) => Fail(e)
    case Ok(entry, rest) =>
      var u := SkipWs(rest);
      if u != [] && u[0] == RBRACE then Ok(Assign(es, entry), u[1..])
      else if u == [] || u[0] != COMMA then Fail(InvalidSyntax)
      else BrowserMembers(SkipWs(u[1..]), seen + {entry.key}, Assign(es, entry))
  }

  /** value[key] = v for a key not assigned before: an own property, unless the key is `__proto__`. */
  function Assign(es: seq<Entry>, e: Entry): seq<Entry> {
    if e.key == PROTO then es else es + [e]
  }

  function BrowserParse(source: Text): ParseResult {
    match BrowserValue(source)
    case Fail(e) => Failure(e)
    case Ok(v, rest) => if SkipWs(rest) == [] then Success(v) else Failure(InvalidSyntax)
  }

  // ----- the parser as it runs

  class BrowserState {
    const source: Text
    var index: nat

    constructor (source: Text)
      ensures this.source == source && index == 0
    {
      this.source := source;
      index := 0;
    }

    function Rest(): Text
      reads this
    {
      if index <= |source| then source[index..] else []
    }

    predicate At(u: Unit)
      reads this
    {
      index < |source| && source[index] == u
    }

    method Advance()
      requires index < |source|
      modifies this
      ensures index == old(index) + 1 && Rest() == old(Rest())[1..]
    {
      index := index + 1;
    }

    method SkipWhitespace()
      requires index <= |source|
      modifies this
      ensures old(index) <= index <= |source| && Rest() == SkipWs(old(Rest()))
    {
      while index < |source| && IsWs(source[index])
        invariant old(index) <= index <= |source|
        invariant SkipWs(Rest()) == SkipWs(old(Rest()))
      {
        Advance();
      }
    }

    /** A lone backslash at the very end steps past the source, which ends the scan without a string. */
    method ScanPiece() returns (ok: bool)
      requires index < |source| && source[index] != QUOTE
      modifies this
      ensures ok && index <= |source| ==> PieceLength(old(Rest())) == Some(index - old(index))
      ensures !ok || index > |source| ==> PieceLength(old(Rest())).None?
      ensures index > old(index) || !ok
    {
      if source[index] == BACKSLASH {
        index := index + 1;
        if index < |source| && source[index] == LOWER_U {
          if !(index + 4 < |source| && IsHex(source[index + 1]) && IsHex(source[index + 2])
               && IsHex(source[index + 3]) && IsHex(source[index + 4])) {
            return false;
          }
          index := index + 5;
        } else if index >= |source| || IsEscapeLetter(source[index]) {
          index := index + 1;
        } else {
          return false;
        }
      } else {
        if source[index] < 0x20 {
          return false;
        }
        index := index + 1;
      }
      return true;
    }

    method ScanBody() returns (ok: bool)
      requires index <= |source|
      modifies this
      ensures ok == BodyRest(old(Rest())).Some?
      ensures ok ==> old(index) < index <= |source| && Rest() == BodyRest(old(Rest())).value
    {
      ghost var left := Rest();
      while index < |source|
        invariant old(index) <= index
        invariant index <= |source| ==> left == Rest() && BodyRest(old(Rest())) == BodyRest(left)
        invariant index > |source| ==> BodyRest(old(Rest())).None?
      {
        if source[index] == QUOTE {
          index := index + 1;
          assert Rest() == left[1..];
          return true;
        }
        ok := ScanPiece();
        if !ok {
          return;
        }
        if index <= |source| { left := left[PieceLength(left).value..]; }
      }
      return false;
    }

    method ScanString() returns (r: Outcome<Text>)
      requires index <= |source|
      modifies this
      ensures r == ParseString(old(Rest()))
      ensures r.Ok? ==> old(index) < index <= |source| && Rest() == r.rest
    {
      hide BodyRest, DecodeBody;
      var start := index;
      if !At(QUOTE) {
        return Fail(InvalidSyntax);
      }
      ghost var whole := Rest();
      Advance();
      var ok := ScanBody();
      if !ok {
        return Fail(InvalidSyntax);
      }
      var token := source[start..index];
      assert token == whole[..|whole| - |Rest()|];
      match JsonParseString(token) {
        case None => return Fail(InvalidSyntax);
        case Some(s) => return Ok(s, Rest());
      }
    }

    method ScanNumber() returns (r: Outcome<Json>)
      requires index <= |source|
      modifies this
      ensures r == BrowserNumber(old(Rest()))
      ensures r.Ok? ==> old(index) < index <= |source| && Rest() == r.rest
    {
      var remaining := source[index..];
      var negative := remaining != [] && remaining[0] == MINUS;
      var digits := if negative then remaining[1..] else remaining;
      var length := IntegerLength(digits);
      if length == 0 {
        return Fail(InvalidSyntax);
      }
      if HasFraction(digits[length..]) || DigitsValue(digits[..length]) > MAX_SAFE {
        return Fail(InvalidNumber);
      }
      index := index + (if negative then 1 else 0) + length;
      assert Rest() == digits[length..];
      return Ok(TokenValue(negative, digits[..length]), Rest());
    }

    method ScanArray() returns (r: Outcome<Json>)
      requires index < |source|
      modifies this
      ensures r == BrowserArray(old(Rest()))
      ensures r.Ok? ==> old(index) < index <= |source| && Rest() == r.rest
      decreases |source| - index, 0
    {
      var value: seq<Json> := [];
      ghost var before := index;
      Advance();
      SkipWhitespace();
      ghost var first := Rest();
      if At(RBRACKET) {
        Advance();
        return Ok(Arr([]), Rest());
      }
      while index < |source|
        invariant before < index <= |source|
        invariant BrowserItems(first, []) == BrowserItems(Rest(), value)
        decreases |source| - index
      {
        var item := ScanValue();
        if item.Fail? {
          return Fail(item.reason);
        }
        value := value + [item.value];
        SkipWhitespace();
        if At(RBRACKET) {
          Advance();
          return Ok(Arr(value), Rest());
        }
        if !At(COMMA) {
          return Fail(InvalidSyntax);
        }
        Advance();
        SkipWhitespace();
      }
      return Fail(InvalidSyntax);
    }

    method ScanMember(seen: set<Text>) returns (r: Outcome<Entry>)
      requires index <= |source|
      modifies this
      ensures r == BrowserMember(old(Rest()), seen)
      ensures r.Ok? ==> old(index) < index <= |source| && Rest() == r.rest
      decreases |source| - index, 2
    {
      var key := ScanString();
      if key.Fail? {
        return Fail(key.reason);
      }
      if key.value in seen {
        return Fail(DuplicateKeys);
      }
      SkipWhitespace();
      if !At(COLON) {
        return Fail(InvalidSyntax);
      }
      Advance();
      var v := ScanValue();
      r := match v case Ok(w, rest) => Ok(Entry(key.value, w), rest) case Fail(e) => Fail(e);
    }

    method ScanObject() returns (r: Outcome<Json>)
      requires index < |source|
      modifies this
      ensures r == BrowserObject(old(Rest()))
      ensures r.Ok? ==> old(index) < index <= |source| && Rest() == r.rest
      decreases |source| - index, 0
    {
      var value: seq<Entry> := [];
      var seen: set<Text> := {};
      ghost var before := index;
      Advance();
      SkipWhitespace();
      ghost var first := Rest();
      if At(RBRACE) {
        Advance();
        return Ok(Obj([]), Rest());
      }
      while index < |source|
        invariant before < index <= |source|
        invariant BrowserMembers(first, {}, []) == BrowserMembers(Rest(), seen, value)
        decreases |source| - index
      {
        var member := ScanMember(seen);
        if member.Fail? {
          return Fail(member.reason);
        }
        seen := seen + {member.value.key};
        value := Assign(value, member.value);
        SkipWhitespace();
        if At(RBRACE) {
          Advance();
          return Ok(Obj(value), Rest());
        }
        if !At(COMMA) {
          return Fail(InvalidSyntax);
        }
        Advance();
        SkipWhitespace();
      }
      return Fail(InvalidSyntax);
    }

    method ScanValue() returns (r: Outcome<Json>)
      requires index <= |source|
      modifies this
      ensures r == BrowserValue(old(Rest()))
      ensures r.Ok? ==> old(index) < index <= |source| && Rest() == r.rest
      decreases |source| - index, 1
    {
      SkipWhitespace();
      ghost var left := Rest();
      if At(LBRACE) {
        r := ScanObject();
      } else if At(LBRACKET) {
        r := ScanArray();
      } else if At(QUOTE) {
        var s := ScanString();
        r := match s case Ok(text, rest) => Ok(Str(text), rest) case Fail(e) => Fail(e);
      } else if index < |source| && (source[index] == MINUS || IsDigit(source[index])) {
        r := ScanNumber();
      } else if TRUE <= source[index..] {
        index := index + 4;
        assert Rest() == left[4..];
        r := Ok(Bool(true), Rest());
      } else if FALSE <= source[index..] {
        index := index + 5;
        assert Rest() == left[5..];
        r := Ok(Bool(false), Rest());
      } else if NULL <= source[index..] {
        index := index + 4;
        assert Rest() == left[4..];
        r := Ok(Null, Rest());
      } else {
        r := Fail(InvalidSyntax);
      }
    }
  }

  method StrictParseJson(source: Text) returns (r: ParseResult)
    ensures r == BrowserParse(source)
  {
    var state := new BrowserState(source);
    assert state.Rest() == source;
    var value := state.ScanValue();
    if value.Fail? {
      return Failure(value.reason);
    }
    state.SkipWhitespace();
    if state.index != |source| {
      return Failure(InvalidSyntax);
    }
    return Success(value.value);
  }

  // ----- agreement

  /** The value without the `__proto__` property of any object in it. */
  function StripProto(v: Json): Json
    decreases v, 0
  {
    match v
    case Arr(items) => Arr(StripItems(items))
    case Obj(es) => Obj(StripEntries(es))
    case _ => v
  }

  function StripItems(items: seq<Json>): (r: seq<Json>)
    ensures |r| == |items|
    decreases items, 0
  {
    if items == [] then [] else [StripProto(items[0])] + StripItems(items[1..])
  }

  function StripEntries(es: seq<Entry>): seq<Entry>
    decreases es, 0
  {
    if es == [] then []
    else (if es[0].key == PROTO then [] else [Entry(es[0].key, StripProto(es[0].value))]) + StripEntries(es[1..])
  }

  lemma {:induction false} StripItemsAppend(items: seq<Json>, v: Json)
    ensures StripItems(items + [v]) == StripItems(items) + [StripProto(v)]
  {
    if items != [] {
      StripItemsAppend(items[1..], v);
      assert (items + [v])[1..] == items[1..] + [v];
    } else {
      assert [v][1..] == [] && [] + [v] == [v];
    }
  }

  lemma AssignBehind(head: seq<Entry>, es: seq<Entry>, e: Entry)
    ensures Assign(head + es, e) == head + Assign(es, e)
  {
  }

  function Stripped(e: Entry): seq<Entry> {
    if e.key == PROTO then [] else [Entry(e.key, StripProto(e.value))]
  }

  lemma StripFirst(es: seq<Entry>)
    requires es != []
    ensures StripEntries(es) == Stripped(es[0]) + StripEntries(es[1..])
  {
    hide StripProto;
  }

  lemma StripNothing()
    ensures StripEntries([]) == []
  {
  }

  lemma {:induction false} StripEntriesAppend(es: seq<Entry>, e: Entry)
    ensures StripEntries(es + [e]) == Assign(StripEntries(es), Entry(e.key, StripProto(e.value)))
  {
    hide StripProto, StripEntries, PROTO;
    StripFirst(es + [e]);
    if es == [] {
      StripNothing();
      assert [] + [e] == [e] && [e][1..] == [];
    } else {
      StripFirst(es);
      StripEntriesAppend(es[1..], e);
      assert (es + [e])[1..] == es[1..] + [e];
      AssignBehind(Stripped(es[0]), StripEntries(es[1..]), Entry(e.key, StripProto(e.value)));
    }
  }

  /**
   How the second parser answers a refusal of the first: with the same reason, or, where the first refuses a number that
   goes on with a point or an exponent, perhaps with a syntax error, at once or at that point.
   */
  predicate Answers<T>(reason: FailureReason, browser: Outcome<T>) {
    match browser
    case Fail(e) => e == reason || (reason == InvalidNumber && e == InvalidSyntax)
    case Ok(_, rest) => reason == InvalidNumber && StartsExponent(rest)
  }

  lemma IntegersAgree(negative: bool, t: Text)
    ensures match ParseInteger(negative, t)
            case Ok(v, rest) => BrowserInteger(negative, t) == Ok(v, rest)
            case Fail(e) => Answers(e, BrowserInteger(negative, t))
  {
  }

  /** Either parser's value, or a failure that the other shares or is about to run into. */
  ghost predicate Agrees(strict: Outcome<Json>, browser: Outcome<Json>) {
    match strict
    case Ok(v, rest) => browser == Ok(StripProto(v), rest)
    case Fail(e) => Answers(e, browser)
  }

  lemma {:induction false} ValuesAgree(t: Text)
    ensures Agrees(ParseValue(t), BrowserValue(t))
    decreases |t|, 1
  {
    var u := SkipWs(t);
    if u != [] {
      if u[0] == LBRACE {
        ObjectsAgree(u);
      } else if u[0] == LBRACKET {
        ArraysAgree(u);
      } else if u[0] == MINUS || IsDigit(u[0]) {
        IntegersAgree(u[0] == MINUS, if u[0] == MINUS then u[1..] else u);
      }
    }
  }

  lemma {:induction false} ArraysAgree(t: Text)
    requires t != []
    ensures Agrees(ParseArray(t), BrowserArray(t))
    decreases |t|, 0
  {
    ItemsAgree(SkipWs(t[1..]), []);
  }

  lemma {:induction false} ItemsAgree(t: Text, items: seq<Json>)
    ensures match ParseItems(t, items)
            case Ok(vs, rest) => BrowserItems(t, StripItems(items)) == Ok(StripItems(vs), rest)
            case Fail(e) => BrowserItems(t, StripItems(items)).Fail? && Answers(e, BrowserItems(t, StripItems(items)))
    decreases |t|, 2
  {
    ValuesAgree(t);
    if ParseValue(t).Ok? {
      StripItemsAppend(items, ParseValue(t).value);
      var u := SkipWs(ParseValue(t).rest);
      if u != [] && u[0] == COMMA {
        ItemsAgree(SkipWs(u[1..]), items + [ParseValue(t).value]);
      }
    }
  }

  lemma {:induction false} ObjectsAgree(t: Text)
    requires t != []
    ensures Agrees(ParseObject(t), BrowserObject(t))
    decreases |t|, 0
  {
    assert KeySet([]) == {};
    MembersAgree(SkipWs(t[1..]), []);
  }

  lemma {:induction false} MemberAgrees(t: Text, es: seq<Entry>)
    ensures match ParseMember(t, es)
            case Ok(e, rest) => BrowserMember(t, KeySet(es)) == Ok(Entry(e.key, StripProto(e.value)), rest)
            case Fail(e) => Answers(e, BrowserMember(t, KeySet(es)))
    decreases |t|, 2
  {
    if ParseString(t).Ok? {
      var u := SkipWs(ParseString(t).rest);
      if u != [] { ValuesAgree(u[1..]); }
    }
  }

  lemma {:induction false} MembersAgree(t: Text, es: seq<Entry>)
    ensures match ParseMembers(t, es)
            case Ok(all, rest) => BrowserMembers(t, KeySet(es), StripEntries(es)) == Ok(StripEntries(all), rest)
            case Fail(e) =>
              var r := BrowserMembers(t, KeySet(es), StripEntries(es));
              r.Fail? && Answers(e, r)
    decreases |t|, 3
  {
    MemberAgrees(t, es);
    if ParseMember(t, es).Ok? {
      var e := ParseMember(t, es).value;
      StripEntriesAppend(es, e);
      KeysAppend(es, e);
      var u := SkipWs(ParseMember(t, es).rest);
      if u != [] && u[0] == COMMA {
        MembersAgree(SkipWs(u[1..]), es + [e]);
      }
    }
  }

  /** Both parsers accept the same texts, and the second returns the first one's value without `__proto__`. */
  lemma ParsersAgree(source: Text)
    ensures Parse(source).Success? <==> BrowserParse(source).Success?
    ensures Parse(source).Success? ==> BrowserParse(source).value == StripProto(Parse(source).value)
  {
    ValuesAgree(source);
  }

  /**
   Where both refuse, the reasons agree, except that the second parser may report a syntax error for a number the first
   reports: repeated keys and syntax errors of the first are reported alike.
   */
  lemma ReasonsAgree(source: Text)
    requires Parse(source).Failure?
    ensures BrowserParse(source).Failure?
    ensures var strict, browser := Parse(source).reason, BrowserParse(source).reason;
            browser == strict || (strict == InvalidNumber && browser == InvalidSyntax)
    ensures Parse(source) == Failure(DuplicateKeys) <==> BrowserParse(source) == Failure(DuplicateKeys)
  {
    ValuesAgree(source);
  }

  /** Does some object in the value have a `__proto__` property? */
  predicate MentionsProto(v: Json) {
    match v
    case Arr(items) => exists i :: 0 <= i < |items| && MentionsProto(items[i])
    case Obj(es) => exists i :: 0 <= i < |es| && (es[i].key == PROTO || MentionsProto(es[i].value))
    case _ => false
  }

  /** Stripping changes exactly the values that mention `__proto__`. */
  lemma {:induction false} StripUnchanged(v: Json)
    ensures StripProto(v) == v <==> !MentionsProto(v)
    decreases v, 0
  {
    match v
    case Arr(items) => StripItemsUnchanged(items);
    case Obj(es) => StripEntriesUnchanged(es);
    case _ =>
  }

  lemma {:induction false} StripItemsUnchanged(items: seq<Json>)
    ensures StripItems(items) == items <==> forall i :: 0 <= i < |items| ==> !MentionsProto(items[i])
    decreases items, 0
  {
    if items != [] {
      StripUnchanged(items[0]);
      StripItemsUnchanged(items[1..]);
      assert items == [items[0]] + items[1..];
      assert forall i :: 0 <= i < |items[1..]| ==> items[1..][i] == items[i + 1];
    }
  }

  lemma {:induction false} StripEntriesUnchanged(es: seq<Entry>)
    ensures |StripEntries(es)| <= |es|
    ensures StripEntries(es) == es <==> forall i :: 0 <= i < |es| ==> es[i].key != PROTO && !MentionsProto(es[i].value)
    decreases es, 0
  {
    if es != [] {
      StripUnchanged(es[0].value);
      StripEntriesUnchanged(es[1..]);
      assert es == [es[0]] + es[1..];
      assert forall i :: 0 <= i < |es[1..]| ==> es[1..][i] == es[i + 1];
      var head := if es[0].key == PROTO then [] else [Entry(es[0].key, StripProto(es[0].value))];
      assert StripEntries(es) == head + StripEntries(es[1..]);
      if StripEntries(es) == es && head != [] {
        assert StripEntries(es)[0] == head[0] && StripEntries(es)[1..] == StripEntries(es[1..]);
      }
    }
  }

  /** The two parsers return the same result exactly on the accepted texts without a `__proto__` key. */
  lemma SameValueIffNoProto(source: Text)
    requires Parse(source).Success?
    ensures BrowserParse(source) == Parse(source) <==> !MentionsProto(Parse(source).value)
  {
    ParsersAgree(source);
    StripUnchanged(Parse(source).value);
  }
}
