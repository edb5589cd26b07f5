/**
 The strict parser of shared/json.ts. The functions say what each parse function returns on the text that
 is left to read; the methods of `ParserState` move an index over the source with loops, as the code does.
 */
module StrictParser {
  import opened Units
  import opened JsonValues

  datatype FailureReason = InvalidSyntax | DuplicateKeys | InvalidNumber

  /** A parsed value together with the text that follows it. */
  datatype Outcome<+T> = Ok(value: T, rest: Text) | Fail(reason: FailureReason)

  datatype ParseResult = Success(value: Json) | Failure(reason: FailureReason)

  // ----- tokens

  function SkipWs(t: Text): (r: Text)
    ensures |r| <= |t|
  {
    if t != [] && IsWs(t[0]) then SkipWs(t[1..]) else t
  }

  /** Length of the string element at the start of `t`; None when the scan refuses it. */
  function PieceLength(t: Text): (n: Option<nat>)
    requires t != []
    ensures n.Some? ==> 0 < n.value <= |t|
  {
    if t[0] == BACKSLASH then
      if |t| < 2 then None
      else if t[1] == LOWER_U then
        if |t| >= 6 && IsHex(t[2]) && IsHex(t[3]) && IsHex(t[4]) && IsHex(t[5]) then Some(6) else None
      else if IsEscapeLetter(t[1]) then Some(2) else None
    else if t[0] < 0x20 then None
    else Some(1)
  }

  /** What follows the closing quotation mark of a string body. */
  function BodyRest(t: Text): (rest: Option<Text>)
    ensures rest.Some? ==> |rest.value| < |t|
  {
    if t == [] then None
    else if t[0] == QUOTE then Some(t[1..])
    else match PieceLength(t) case None => None case Some(k) => BodyRest(t[k..])
  }

  /** What JSON.parse makes of the part of a string token that follows the opening quotation mark. */
  function DecodeBody(t: Text): Option<Text> {
    if t == [] then None
    else if t[0] == QUOTE then if |t| == 1 then Some([]) else None
    else if t[0] == BACKSLASH then
      if |t| < 2 then None
      else if t[1] == LOWER_U then
        if |t| >= 6 && IsHex(t[2]) && IsHex(t[3]) && IsHex(t[4]) && IsHex(t[5])
        then Cons(Hex4(t[2], t[3], t[4], t[5]), DecodeBody(t[6..])) else None
      else if IsEscapeLetter(t[1]) then Cons(EscapeMeaning(t[1]), DecodeBody(t[2..])) else None
    else if t[0] < 0x20 then None
    else Cons(t[0], DecodeBody(t[1..]))
  }

  function Cons(u: Unit, t: Option<Text>): Option<Text> {
    if t.None? then None else Some([u] + t.value)
  }

  /** JSON.parse applied to a token that should be a string. */
  function JsonParseString(token: Text): Option<Text> {
    if token == [] || token[0] != QUOTE then None else DecodeBody(token[1..])
  }

  function ParseString(t: Text): (r: Outcome<Text>)
    ensures r.Ok? ==> |r.rest| < |t|
  {
    if t == [] || t[0] != QUOTE then Fail(InvalidSyntax)
    else match BodyRest(t[1..])
      case None => Fail(InvalidSyntax)
      case Some(rest) =>
        match JsonParseString(t[..|t| - |rest|])
        case None => Fail(InvalidSyntax)
        case Some(s) => Ok(s, rest)
  }

  /** The longest run of digits at the start. */
  function DigitRun(t: Text): (n: nat)
    ensures n <= |t| && AllDigits(t[..n]) && (n < |t| ==> !IsDigit(t[n]))
  {
    if t != [] && IsDigit(t[0]) then
      var n := DigitRun(t[1..]);
      assert forall i :: 0 < i < 1 + n ==> t[i] == t[1..][..n][i - 1];
      1 + n
    else 0
  }

  /** Length of the match of 0|[1-9]\d*, or 0 when there is none. */
  function IntegerLength(t: Text): (n: nat)
    ensures n <= |t| && AllDigits(t[..n])
  {
    if t == [] || !IsDigit(t[0]) then 0 else if t[0] == ZERO then 1 else DigitRun(t)
  }

  /** Number(token) for a matched integer token. */
  function TokenValue(negative: bool, digits: Text): Json
    requires AllDigits(digits) && DigitsValue(digits) <= MAX_SAFE
  {
    var n: int := DigitsValue(digits);
    if negative && n == 0 then NegZero else Num(if negative then -n else n)
  }

  function ParseNumber(t: Text): (r: Outcome<Json>)
    ensures r.Ok? ==> |r.rest| < |t|
  {
    if t != [] && t[0] == MINUS then ParseInteger(true, t[1..]) else ParseInteger(false, t)
  }

  /** The part of a number that follows its sign. */
  function ParseInteger(negative: bool, t: Text): (r: Outcome<Json>)
    ensures r.Ok? ==> |r.rest| < |t|
  {
    var n := IntegerLength(t);
    if n == 0 then Fail(InvalidSyntax)
    else if n < |t| && (t[n] == DOT || t[n] == LOWER_E || t[n] == UPPER_E) then Fail(InvalidNumber)
    else if DigitsValue(t[..n]) > MAX_SAFE then Fail(InvalidNumber)
    else Ok(TokenValue(negative, t[..n]), t[n..])
  }

  // ----- values

  function ParseValue(t: Text): (r: Outcome<Json>)
    ensures r.Ok? ==> |r.rest| < |t|
    decreases |t|, 1
  {
    var u := SkipWs(t);
    if u == [] then Fail(InvalidSyntax)
    else if u[0] == LBRACE then ParseObject(u)
    else if u[0] == LBRACKET then ParseArray(u)
    else if u[0] == QUOTE then
      (match ParseString(u) case Ok(s, rest) => Ok(Str(s), rest) case Fail(e) => Fail(e))
    else if u[0] == MINUS || IsDigit(u[0]) then ParseNumber(u)
    else if TRUE <= u then Ok(Bool(true), u[4..])
    else if FALSE <= u then Ok(Bool(false), u[5..])
    else if NULL <= u then Ok(Null, u[4..])
    else Fail(InvalidSyntax)
  }

  function ParseArray(t: Text): (r: Outcome<Json>)
    requires t != []
    ensures r.Ok? ==> |r.rest| < |t|
    decreases |t|, 0
  {
    var u := SkipWs(t[1..]);
    if u != [] && u[0] == RBRACKET then Ok(Arr([]), u[1..])
    else match ParseItems(u, []) case Ok(vs, rest) => Ok(Arr(vs), rest) case Fail(e) => Fail(e)
  }

  /** The rest of an array, after the elements `items`, up to the closing bracket. */
  function ParseItems(t: Text, items: seq<Json>): (r: Outcome<seq<Json>>)
    ensures r.Ok? ==> |r.rest| < |t|
    decreases |t|, 2
  {
    match ParseValue(t)
    case Fail(e) => Fail(e)
    case Ok(v, rest) =>
      var u := SkipWs(rest);
      if u != [] && u[0] == RBRACKET then Ok(items + [v], u[1..])
      else if u == [] || u[0] != COMMA then Fail(InvalidSyntax)
      else ParseItems(SkipWs(u[1..]), items + [v])
  }

  function ParseObject(t: Text): (r: Outcome<Json>)
    requires t != []
    ensures r.Ok? ==> |r.rest| < |t|
    decreases |t|, 0
  {
    var u := SkipWs(t[1..]);
    if u != [] && u[0] == RBRACE then Ok(Obj([]), u[1..])
    else match ParseMembers(u, []) case Ok(es, rest) => Ok(Obj(es), rest) case Fail(e) => Fail(e)
  }

  /** One member of an object that already has the entries `es`. */
  function ParseMember(t: Text, es: seq<Entry>): (r: Outcome<Entry>)
    ensures r.Ok? ==> |r.rest| < |t|
    decreases |t|, 2
  {
    match ParseString(t)
    case Fail(e) => Fail(e)
    case Ok(key, rest) =>
      if HasKey(es, key) then Fail(DuplicateKeys) else
      var u := SkipWs(rest);
      if u == [] || u[0] != COLON then Fail(InvalidSyntax) else
      match ParseValue(u[1..]) case Ok(v, after) => Ok(Entry(key, v), after) case Fail(e) => Fail(e)
  }

  /** The rest of an object, after the entries `es`, up to the closing brace. */
  function ParseMembers(t: Text, es: seq<Entry>): (r: Outcome<seq<Entry>>)
    ensures r.Ok? ==> |r.rest| < |t|
    decreases |t|, 3
  {
    match ParseMember(t, es)
    case Fail(e) => Fail(e)
    case Ok(entry, rest) =>
      var u := SkipWs(rest);
      if u != [] && u[0] == RBRACE then Ok(es + [entry], u[1..])
      else if u == [] || u[0] != COMMA then Fail(InvalidSyntax)
      else ParseMembers(SkipWs(u[1..]), es + [entry])
  }

  /** The whole text must be one value. */
  function Parse(source: Text): ParseResult {
    match ParseValue(source)
    case Fail(e) => Failure(e)
    case Ok(v, rest) => if SkipWs(rest) == [] then Success(v) else Failure(InvalidSyntax)
  }

  // ----- the parser as it runs

  class ParserState {
    const source: Text
    var index: nat

    constructor (source: Text)
      ensures this.source == source && index == 0
    {
      this.source := source;
      index := 0;
    }

    /** What is left to read. */
    function Rest(): Text
      reads this
    {
      if index <= |source| then source[index..] else []
    }

    predicate At(u: Unit)
      reads this
    {
      index < |source| && source[index] == u
    }

    method Advance()
      requires index < |source|
      modifies this
      ensures index == old(index) + 1 && Rest() == old(Rest())[1..]
    {
      index := index + 1;
    }

    method SkipWhitespace()
      requires index <= |source|
      modifies this
      ensures old(index) <= index <= |source|
      ensures Rest() == SkipWs(old(Rest()))
    {
      while index < |source|
        invariant old(index) <= index <= |source|
        invariant SkipWs(Rest()) == SkipWs(old(Rest()))
      {
        if IsWs(source[index]) {
          Advance();
        } else {
          return;
        }
      }
    }

    /** One turn of the string scan past anything but a closing quotation mark. */
    method ScanPiece() returns (ok: bool)
      requires index < |source| && source[index] != QUOTE
      modifies this
      ensures ok == PieceLength(old(Rest())).Some?
      ensures ok ==> index <= |source| && index == old(index) + PieceLength(old(Rest())).value
    {
      if source[index] == BACKSLASH {
        index := index + 1;
        if index >= |source| {
          return false;
        }
        if source[index] == LOWER_U {
          if !(index + 4 < |source| && IsHex(source[index + 1]) && IsHex(source[index + 2])
               && IsHex(source[index + 3]) && IsHex(source[index + 4])) {
            return false;
          }
          index := index + 5;
          return true;
        }
        if !IsEscapeLetter(source[index]) {
          return false;
        }
        index := index + 1;
        return true;
      }
      if source[index] < 0x20 {
        return false;
      }
      index := index + 1;
      return true;
    }

    /** The scan past the closing quotation mark. */
    method ScanBody() returns (ok: bool)
      requires index <= |source|
      modifies this
      ensures ok == BodyRest(old(Rest())).Some?
      ensures ok ==> old(index) < index <= |source| && Rest() == BodyRest(old(Rest())).value
    {
      ghost var left := Rest();
      while index < |source|
        invariant old(index) <= index <= |source|
        invariant left == Rest()
        invariant BodyRest(old(Rest())) == BodyRest(left)
      {
        if source[index] == QUOTE {
          Advance();
          return true;
        }
        ok := ScanPiece();
        if !ok {
          return;
        }
        left := left[PieceLength(left).value..];
      }
      return false;
    }

    method ScanString() returns (r: Outcome<Text>)
      requires index <= |source|
      modifies this
      ensures r == ParseString(old(Rest()))
      ensures r.Ok? ==> old(index) < index <= |source| && Rest() == r.rest
    {
      hide BodyRest, DecodeBody;
      var start := index;
      if !At(QUOTE) {
        return Fail(InvalidSyntax);
      }
      ghost var whole := Rest();
      Advance();
      var ok := ScanBody();
      if !ok {
        return Fail(InvalidSyntax);
      }
      var token := source[start..index];
      assert token == whole[..|whole| - |Rest()|];
      match JsonParseString(token) {
        case None => return Fail(InvalidSyntax);
        case Some(s) => return Ok(s, Rest());
      }
    }

    method ScanNumber() returns (r: Outcome<Json>)
      requires index <= |source|
      modifies this
      ensures r == ParseNumber(old(Rest()))
      ensures r.Ok? ==> old(index) < index <= |source| && Rest() == r.rest
    {
      var remaining := source[index..];
      var negative := remaining != [] && remaining[0] == MINUS;
      var digits := if negative then remaining[1..] else remaining;
      var length := IntegerLength(digits);
      if length == 0 {
        return Fail(InvalidSyntax);
      }
      if length < |digits| && (digits[length] == DOT || digits[length] == LOWER_E || digits[length] == UPPER_E) {
        return Fail(InvalidNumber);
      }
      if DigitsValue(digits[..length]) > MAX_SAFE {
        return Fail(InvalidNumber);
      }
      index := index + (if negative then 1 else 0) + length;
      assert Rest() == digits[length..];
      return Ok(TokenValue(negative, digits[..length]), Rest());
    }

    method ScanArray() returns (r: Outcome<Json>)
      requires index < |source|
      modifies this
      ensures r == ParseArray(old(Rest()))
      ensures r.Ok? ==> old(index) < index <= |source| && Rest() == r.rest
      decreases |source| - index, 0
    {
      var items: seq<Json> := [];
      ghost var before := index;
      Advance();
      SkipWhitespace();
      ghost var first := Rest();
      if At(RBRACKET) {
        Advance();
        return Ok(Arr([]), Rest());
      }
      while index < |source|
        invariant before < index <= |source|
        invariant ParseItems(first, []) == ParseItems(Rest(), items)
        decreases |source| - index
      {
        var item := ScanValue();
        if item.Fail? {
          return Fail(item.reason);
        }
        items := items + [item.value];
        SkipWhitespace();
        if At(RBRACKET) {
          Advance();
          return Ok(Arr(items), Rest());
        }
        if !At(COMMA) {
          return Fail(InvalidSyntax);
        }
        Advance();
        SkipWhitespace();
      }
      return Fail(InvalidSyntax);
    }

    /** Key, colon and value of one member. */
    method ScanMember(seen: set<Text>, ghost entries: seq<Entry>) returns (r: Outcome<Entry>)
      requires index <= |source|
      requires seen == KeySet(entries)
      modifies this
      ensures r == ParseMember(old(Rest()), entries)
      ensures r.Ok? ==> old(index) < index <= |source| && Rest() == r.rest
      decreases |source| - index, 2
    {
      var key := ScanString();
      if key.Fail? {
        return Fail(key.reason);
      }
      if key.value in seen {
        return Fail(DuplicateKeys);
      }
      SkipWhitespace();
      if !At(COLON) {
        return Fail(InvalidSyntax);
      }
      Advance();
      var value := ScanValue();
      r := match value case Ok(v, rest) => Ok(Entry(key.value, v), rest) case Fail(e) => Fail(e);
    }

    method ScanObject() returns (r: Outcome<Json>)
      requires index < |source|
      modifies this
      ensures r == ParseObject(old(Rest()))
      ensures r.Ok? ==> old(index) < index <= |source| && Rest() == r.rest
      decreases |source| - index, 0
    {
      var entries: seq<Entry> := [];
      var seen: set<Text> := {};
      ghost var before := index;
      Advance();
      SkipWhitespace();
      ghost var first := Rest();
      if At(RBRACE) {
        Advance();
        return Ok(Obj([]), Rest());
      }
      while index < |source|
        invariant before < index <= |source|
        invariant seen == KeySet(entries)
        invariant ParseMembers(first, []) == ParseMembers(Rest(), entries)
        decreases |source| - index
      {
        var member := ScanMember(seen, entries);
        if member.Fail? {
          return Fail(member.reason);
        }
        KeysAppend(entries, member.value);
        seen := seen + {member.value.key};
        entries := entries + [member.value];
        SkipWhitespace();
        if At(RBRACE) {
          Advance();
          return Ok(Obj(entries), Rest());
        }
        if !At(COMMA) {
          return Fail(InvalidSyntax);
        }
        Advance();
        SkipWhitespace();
      }
      return Fail(InvalidSyntax);
    }

    method ScanValue() returns (r: Outcome<Json>)
      requires index <= |source|
      modifies this
      ensures r == ParseValue(old(Rest()))
      ensures r.Ok? ==> old(index) < index <= |source| && Rest() == r.rest
      decreases |source| - index, 1
    {
      SkipWhitespace();
      ghost var left := Rest();
      if At(LBRACE) {
        r := ScanObject();
      } else if At(LBRACKET) {
        r := ScanArray();
      } else if At(QUOTE) {
        var s := ScanString();
        r := match s case Ok(text, rest) => Ok(Str(text), rest) case Fail(e) => Fail(e);
      } else if index < |source| && (source[index] == MINUS || IsDigit(source[index])) {
        r := ScanNumber();
      } else if TRUE <= source[index..] {
        index := index + 4;
        assert Rest() == left[4..];
        r := Ok(Bool(true), Rest());
      } else if FALSE <= source[index..] {
        index := index + 5;
        assert Rest() == left[5..];
        r := Ok(Bool(false), Rest());
      } else if NULL <= source[index..] {
        index := index + 4;
        assert Rest() == left[4..];
        r := Ok(Null, Rest());
      } else {
        r := Fail(InvalidSyntax);
      }
    }
  }

  method ParseStrictJson(source: Text) returns (r: ParseResult)
    ensures r == Parse(source)
  {
    var state := new ParserState(source);
    assert state.Rest() == source;
    var value := state.ScanValue();
    if value.Fail? {
      return Failure(value.reason);
    }
    state.SkipWhitespace();
    if state.index != |source| {
      return Failure(InvalidSyntax);
    }
    return Success(value.value);
  }
}
