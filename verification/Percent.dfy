/** Percent and form coding and the reading of an OIDC callback: mnde-sidecar-ui/src-tauri/src/main.rs. */
module Percent {
  import opened Units
  import opened Bytes
  import opened Sequences

  /** A Rust string: Unicode scalar values, with UTF-8 as its bytes. */
  type Str = seq<Scalar>

  const PERCENT: Byte := 0x25
  const PLUS: Byte := 0x2B
  const SPACE: Scalar := 0x20
  const AMPERSAND: Scalar := 0x26
  const EQUALS: Scalar := 0x3D
  const QUESTION: Scalar := 0x3F
  const CODE: Str := [0x63, 0x6F, 0x64, 0x65]
  const STATE: Str := [0x73, 0x74, 0x61, 0x74, 0x65]

  // ----- Encoding -----

  /** Letters, digits and - . _ ~ stand for themselves (section 2.3 of RFC 3986). */
  predicate Unreserved(b: Byte) {
    0x30 <= b <= 0x39 || 0x41 <= b <= 0x5A || 0x61 <= b <= 0x7A || b == 0x2D || b == 0x2E || b == 0x5F || b == 0x7E
  }

  function UpperDigit(d: nat): (u: Byte)
    requires d < 16
    ensures IsHex(u) && HexValue(u) == d
    ensures Unreserved(u)
  {
    if d < 10 then 0x30 + d else 0x37 + d
  }

  /** One byte: itself, or a percent sign and two upper-case digits. */
  function EncodeByte(b: Byte): (t: seq<Byte>)
    ensures |t| == 1 || |t| == 3
  {
    if Unreserved(b) then [b] else [PERCENT, UpperDigit(b / 16), UpperDigit(b % 16)]
  }

  function EncodeBytes(bytes: seq<Byte>): seq<Byte> {
    if bytes == [] then [] else EncodeByte(bytes[0]) + EncodeBytes(bytes[1..])
  }

  /** Each byte as the character with its number. */
  function Chars(bytes: seq<Byte>): (s: Str)
    ensures |s| == |bytes|
  {
    seq(|bytes|, i requires 0 <= i < |bytes| => bytes[i] as int)
  }

  function PercentEncode(s: Str): Str {
    Chars(EncodeBytes(Utf8(s)))
  }

  lemma {:induction false} EncodeBytesAppend(a: seq<Byte>, b: seq<Byte>)
    ensures EncodeBytes(a + b) == EncodeBytes(a) + EncodeBytes(b)
  {
    if a == [] {
      assert a + b == b;
    } else {
      EncodeBytesAppend(a[1..], b);
      assert (a + b)[1..] == a[1..] + b;
      Assoc(EncodeByte(a[0]), EncodeBytes(a[1..]), EncodeBytes(b));
    }
  }

  lemma CharsAppend(a: seq<Byte>, b: seq<Byte>)
    ensures Chars(a + b) == Chars(a) + Chars(b)
  {
  }

  /** percent_encode: a loop over the bytes of the value. */
  method PercentEncodeLoop(value: Str) returns (out: Str)
    ensures out == PercentEncode(value)
  {
    hide EncodeBytes, Chars;
    var bytes := Utf8(value);
    out := [];
    assert Chars(EncodeBytes([])) == [] by { NoBytes(); }
    var i := 0;
    while i < |bytes|
      invariant 0 <= i <= |bytes|
      invariant out == Chars(EncodeBytes(bytes[..i]))
    {
      var byte := bytes[i];
      EncodeNext(bytes, i);
      if Unreserved(byte) {
        out := out + Chars([byte]);
      } else {
        out := out + Chars([PERCENT, UpperDigit(byte / 16), UpperDigit(byte % 16)]);
      }
      i := i + 1;
    }
    assert bytes[..i] == bytes;
  }

  lemma NoBytes()
    ensures Chars(EncodeBytes([])) == []
  {
  }

  lemma EncodeNext(bytes: seq<Byte>, i: nat)
    requires i < |bytes|
    ensures Chars(EncodeBytes(bytes[..i + 1])) == Chars(EncodeBytes(bytes[..i])) + Chars(EncodeByte(bytes[i]))
  {
    assert bytes[..i + 1] == bytes[..i] + [bytes[i]];
    EncodeBytesAppend(bytes[..i], [bytes[i]]);
    assert EncodeBytes([bytes[i]]) == EncodeByte(bytes[i]) by { assert [bytes[i]][1..] == []; }
    CharsAppend(EncodeBytes(bytes[..i]), EncodeByte(bytes[i]));
  }

  // ----- Decoding -----

  /** u8::from_str_radix(text, 16) on two bytes: two hexadecimal digits, or a plus sign and one. */
  function Radix16(hi: Byte, lo: Byte): Option<Byte> {
    if !IsHex(lo) then None
    else if IsHex(hi) then Some(HexValue(hi) * 16 + HexValue(lo))
    else if hi == PLUS then Some(HexValue(lo))
    else None
  }

  function Least(a: nat, b: nat): nat { if a < b then a else b }

  /** The characters of a percent-coded byte string. A percent sign uses up to two more bytes, also when they are no digits. */
  function DecodeBytes(b: seq<Byte>): Str
    decreases |b|
  {
    if b == [] then []
    else if b[0] == PERCENT then
      if |b| >= 3 && Radix16(b[1], b[2]).Some? then [Radix16(b[1], b[2]).value as int] + DecodeBytes(b[3..])
      else [PERCENT as int] + DecodeBytes(b[Least(3, |b|)..])
    else if b[0] == PLUS then [SPACE] + DecodeBytes(b[1..])
    else [b[0] as int] + DecodeBytes(b[1..])
  }

  function PercentDecode(s: Str): Str {
    DecodeBytes(Utf8(s))
  }

  /** Where the next character starts, and the character itself. */
  function Step(b: seq<Byte>, i: nat): (r: (Scalar, nat))
    requires i < |b|
    ensures i < r.1 <= |b|
  {
    if b[i] == PERCENT then
      if i + 2 < |b| && Radix16(b[i + 1], b[i + 2]).Some? then (Radix16(b[i + 1], b[i + 2]).value as int, i + 3)
      else (PERCENT as int, Least(i + 3, |b|))
    else if b[i] == PLUS then (SPACE, i + 1)
    else (b[i] as int, i + 1)
  }

  lemma DecodeNext(out: Str, b: seq<Byte>, i: nat)
    requires i < |b|
    ensures out + DecodeBytes(b[i..]) == (out + [Step(b, i).0]) + DecodeBytes(b[Step(b, i).1..])
  {
    hide Radix16;
    var t, n := b[i..], Step(b, i).1 - i;
    assert t[0] == b[i] && (|t| >= 3 ==> t[1] == b[i + 1] && t[2] == b[i + 2]);
    DropTwice(b, i, n);
    Grow(out, Step(b, i).0, DecodeBytes(t[n..]));
  }

  lemma Grow(out: Str, c: Scalar, rest: Str)
    ensures out + ([c] + rest) == (out + [c]) + rest
  {
  }

  lemma DropTwice(b: seq<Byte>, i: nat, n: nat)
    requires i + n <= |b|
    ensures b[i..][n..] == b[i + n..]
  {
  }

  /** percent_decode: a loop that takes one byte, and after a percent sign up to two more. */
  method PercentDecodeLoop(value: Str) returns (out: Str)
    ensures out == PercentDecode(value)
  {
    hide DecodeBytes, Radix16;
    var bytes := Utf8(value);
    out := [];
    assert bytes[0..] == bytes && [] + DecodeBytes(bytes) == DecodeBytes(bytes);
    var i := 0;
    while i < |bytes|
      invariant 0 <= i <= |bytes|
      invariant DecodeBytes(bytes) == out + DecodeBytes(bytes[i..])
    {
      DecodeNext(out, bytes, i);
      var byte := bytes[i];
      i := i + 1;
      if byte == PERCENT {
        var hi: Option<Byte> := None;
        if i < |bytes| { hi := Some(bytes[i]); i := i + 1; }
        var lo: Option<Byte> := None;
        if i < |bytes| { lo := Some(bytes[i]); i := i + 1; }
        var decoded := if hi.Some? && lo.Some? then Radix16(hi.value, lo.value) else None;
        if decoded.Some? {
          out := out + [decoded.value as int];
        } else {
          out := out + [PERCENT as int];
        }
      } else if byte == PLUS {
        out := out + [SPACE];
      } else {
        out := out + [byte as int];
      }
    }
    assert DecodeBytes(bytes[i..]) == [] by { NothingLeft(bytes[i..]); }
    assert out + [] == out;
  }

  lemma NothingLeft(b: seq<Byte>)
    requires b == []
    ensures DecodeBytes(b) == []
  {
  }

  lemma {:induction false} DecodeEncodeBytes(bytes: seq<Byte>)
    ensures DecodeBytes(EncodeBytes(bytes)) == Chars(bytes)
  {
    if bytes != [] {
      var b, rest := bytes[0], EncodeBytes(bytes[1..]);
      DecodeEncodeBytes(bytes[1..]);
      var t := EncodeByte(b) + rest;
      assert t[|EncodeByte(b)|..] == rest;
      assert Chars(bytes) == [b as int] + Chars(bytes[1..]);
    }
  }

  // ----- The round trip -----

  predicate AsciiBytes(b: seq<Byte>) {
    forall i :: 0 <= i < |b| ==> b[i] < 0x80
  }

  predicate IsAscii(s: Str) {
    forall i :: 0 <= i < |s| ==> s[i] < 0x80
  }

  lemma {:induction false} EncodedIsAscii(bytes: seq<Byte>)
    ensures AsciiBytes(EncodeBytes(bytes))
    ensures forall i :: 0 <= i < |EncodeBytes(bytes)| ==> Unreserved(EncodeBytes(bytes)[i]) || EncodeBytes(bytes)[i] == PERCENT
  {
    if bytes != [] { EncodedIsAscii(bytes[1..]); }
  }

  /** ASCII bytes read as characters have themselves as UTF-8. */
  lemma {:induction false} AsciiUtf8(b: seq<Byte>)
    requires AsciiBytes(b)
    ensures Utf8(Chars(b)) == b
  {
    if b != [] {
      AsciiUtf8(b[1..]);
      assert Chars(b)[1..] == Chars(b[1..]);
      assert b == [b[0]] + b[1..];
    }
  }

  /** A string is the characters numbered by its bytes exactly when it is ASCII. */
  lemma {:induction false} CharsOfUtf8(s: Str)
    ensures |Utf8(s)| >= |s|
    ensures |Utf8(s)| == |s| <==> IsAscii(s)
    ensures Chars(Utf8(s)) == s <==> IsAscii(s)
  {
    if s != [] {
      CharsOfUtf8(s[1..]);
      assert IsAscii(s) <==> s[0] < 0x80 && IsAscii(s[1..]);
      if IsAscii(s) {
        assert Utf8(s) == [s[0] as int] + Utf8(s[1..]);
        assert Chars(Utf8(s)) == [s[0]] + Chars(Utf8(s[1..]));
        assert s == [s[0]] + s[1..];
      } else {
        assert |Chars(Utf8(s))| != |s|;
      }
    }
  }

  /** Decoding an encoded string gives the characters numbered by its UTF-8 bytes: the string itself exactly when it is ASCII. */
  lemma DecodeEncode(s: Str)
    ensures PercentDecode(PercentEncode(s)) == Chars(Utf8(s))
    ensures PercentDecode(PercentEncode(s)) == s <==> IsAscii(s)
  {
    hide Chars, Utf8, EncodeBytes, DecodeBytes;
    EncodedIsAscii(Utf8(s));
    AsciiUtf8(EncodeBytes(Utf8(s)));
    DecodeEncodeBytes(Utf8(s));
    CharsOfUtf8(s);
  }

  /** Different strings have different encodings. */
  lemma EncodeInjective(s: Str, t: Str)
    requires PercentEncode(s) == PercentEncode(t)
    ensures s == t
  {
    hide PercentEncode, PercentDecode, Chars;
    DecodeEncode(s);
    DecodeEncode(t);
    CharsInjective(Utf8(s), Utf8(t));
    Utf8Injective(s, t);
  }

  lemma CharsInjective(a: seq<Byte>, b: seq<Byte>)
    requires Chars(a) == Chars(b)
    ensures a == b
  {
    assert |a| == |Chars(a)| == |b|;
    forall i | 0 <= i < |a| ensures a[i] == b[i] {
      assert Chars(a)[i] == Chars(b)[i];
    }
  }

  // ----- Splitting and joining -----

  /** split_once: the text before and after the first occurrence of a character. */
  function SplitOnce(s: Str, c: Scalar): Option<(Str, Str)> {
    if s == [] then None
    else if s[0] == c then Some(([], s[1..]))
    else
      match SplitOnce(s[1..], c)
      case None => None
      case Some((before, after)) => Some(([s[0]] + before, after))
  }

  /** split: the pieces between occurrences of a character; always at least one. */
  function Split(s: Str, c: Scalar): (pieces: seq<Str>)
    ensures pieces != []
  {
    if s == [] then [[]]
    else if s[0] == c then [[]] + Split(s[1..], c)
    else
      var rest := Split(s[1..], c);
      [[s[0]] + rest[0]] + rest[1..]
  }

  function Join(pieces: seq<Str>, c: Scalar): Str {
    if pieces == [] then [] else if |pieces| == 1 then pieces[0] else pieces[0] + ([c] + Join(pieces[1..], c))
  }

  lemma {:induction false} SplitOnceJoined(a: Str, c: Scalar, b: Str)
    requires c !in a
    ensures SplitOnce(a + ([c] + b), c) == Some((a, b))
  {
    var s := a + ([c] + b);
    if a == [] {
      assert s[1..] == b;
    } else {
      SplitOnceJoined(a[1..], c, b);
      assert s[1..] == a[1..] + ([c] + b);
      assert a == [a[0]] + a[1..];
    }
  }

  lemma {:induction false} SplitJoined(a: Str, c: Scalar, b: Str)
    requires c !in a
    ensures Split(a, c) == [a]
    ensures Split(a + ([c] + b), c) == [a] + Split(b, c)
  {
    var s := a + ([c] + b);
    if a == [] {
      assert s[1..] == b;
    } else {
      SplitJoined(a[1..], c, b);
      assert s[1..] == a[1..] + ([c] + b);
      assert a == [a[0]] + a[1..];
    }
  }

  lemma {:induction false} SplitJoin(pieces: seq<Str>, c: Scalar)
    requires pieces != [] && forall p :: p in pieces ==> c !in p
    ensures Split(Join(pieces, c), c) == pieces
  {
    SplitJoined(pieces[0], c, Join(pieces[1..], c));
    if |pieces| > 1 {
      SplitJoin(pieces[1..], c);
      assert pieces == [pieces[0]] + pieces[1..];
    } else {
      assert pieces == [pieces[0]];
    }
  }

  // ----- Forms and callbacks -----

  function EncodePair(p: (Str, Str)): Str {
    PercentEncode(p.0) + ([EQUALS] + PercentEncode(p.1))
  }

  function EncodePairs(params: seq<(Str, Str)>): (pieces: seq<Str>)
    ensures |pieces| == |params|
    ensures forall i :: 0 <= i < |params| ==> pieces[i] == EncodePair(params[i])
  {
    seq(|params|, i requires 0 <= i < |params| => EncodePair(params[i]))
  }

  function FormEncode(params: seq<(Str, Str)>): Str {
    Join(EncodePairs(params), AMPERSAND)
  }

  datatype CallbackError = QueryMissing | StateMissing | StateMismatch | CodeMissing

  datatype Callback = Answer(code: Str, state: Str) | Refused(error: CallbackError)

  /** The key and the value of one pair of a query; without an equals sign the value is empty. */
  function PairOf(piece: Str): (Str, Str) {
    match SplitOnce(piece, EQUALS)
    case None => (piece, [])
    case Some(p) => p
  }

  /** The decoded value of the last pair with a key. */
  function LastField(pieces: seq<Str>, key: Str): Option<Str> {
    if pieces == [] then None
    else
      var last := PairOf(pieces[|pieces| - 1]);
      if last.0 == key then Some(PercentDecode(last.1)) else LastField(pieces[..|pieces| - 1], key)
  }

  /** The answer, given what was found: the state is checked before the code. */
  function Answered(code: Option<Str>, state: Option<Str>, expected: Str): Callback {
    if state.None? then Refused(StateMissing)
    else if state.value != expected then Refused(StateMismatch)
    else if code.None? then Refused(CodeMissing)
    else Answer(code.value, state.value)
  }

  function ParseCallback(url: Str, expected: Str): Callback {
    match SplitOnce(url, QUESTION)
    case None => Refused(QueryMissing)
    case Some((_, query)) =>
      var pieces := Split(query, AMPERSAND);
      Answered(LastField(pieces, CODE), LastField(pieces, STATE), expected)
  }

  /** parse_oidc_callback_url: a loop over the pairs in which later values replace earlier ones. */
  method ParseOidcCallbackUrl(url: Str, expected: Str) returns (result: Callback)
    ensures result == ParseCallback(url, expected)
  {
    var parts := SplitOnce(url, QUESTION);
    if parts.None? { return Refused(QueryMissing); }
    var pieces := Split(parts.value.1, AMPERSAND);
    var code: Option<Str> := None;
    var state: Option<Str> := None;
    var i := 0;
    while i < |pieces|
      invariant 0 <= i <= |pieces|
      invariant code == LastField(pieces[..i], CODE) && state == LastField(pieces[..i], STATE)
    {
      assert pieces[..i + 1][..i] == pieces[..i];
      var (key, value) := PairOf(pieces[i]);
      if key == CODE {
        var decoded := PercentDecodeLoop(value);
        code := Some(decoded);
      }
      if key == STATE {
        var decoded := PercentDecodeLoop(value);
        state := Some(decoded);
      }
      i := i + 1;
    }
    assert pieces[..i] == pieces;
    if state.None? { return Refused(StateMissing); }
    if state.value != expected { return Refused(StateMismatch); }
    if code.None? { return Refused(CodeMissing); }
    result := Answer(code.value, state.value);
  }

  /** The value a parameter list gives a key last. */
  function LastValue(params: seq<(Str, Str)>, key: Str): Option<Str> {
    if params == [] then None
    else if params[|params| - 1].0 == key then Some(params[|params| - 1].1)
    else LastValue(params[..|params| - 1], key)
  }

  /** What a value becomes on its way through a form and back. */
  function Carried(v: Option<Str>): Option<Str> {
    match v
    case None => None
    case Some(s) => Some(Chars(Utf8(s)))
  }

  lemma EncodedHasNo(s: Str, c: Scalar)
    requires c == EQUALS || c == AMPERSAND
    ensures c !in PercentEncode(s)
  {
    hide EncodeBytes, Utf8;
    EncodedIsAscii(Utf8(s));
  }

  lemma PairReadsBack(p: (Str, Str))
    ensures PairOf(EncodePair(p)) == (PercentEncode(p.0), PercentEncode(p.1))
    ensures AMPERSAND !in EncodePair(p)
  {
    hide PercentEncode, SplitOnce;
    EncodedHasNo(p.0, EQUALS);
    EncodedHasNo(p.0, AMPERSAND);
    EncodedHasNo(p.1, AMPERSAND);
    SplitOnceJoined(PercentEncode(p.0), EQUALS, PercentEncode(p.1));
  }

  lemma PlainKeys()
    ensures PercentEncode(CODE) == CODE && PercentEncode(STATE) == STATE
  {
    hide PercentEncode;
    var code: seq<Byte>, state: seq<Byte> := [0x63, 0x6F, 0x64, 0x65], [0x73, 0x74, 0x61, 0x74, 0x65];
    assert Chars(code) == CODE && Chars(state) == STATE;
    PlainIsItself(code);
    PlainIsItself(state);
  }

  lemma PlainIsItself(b: seq<Byte>)
    requires forall i :: 0 <= i < |b| ==> Unreserved(b[i])
    ensures PercentEncode(Chars(b)) == Chars(b)
  {
    AsciiUtf8(b);
    PlainBytes(b);
  }

  lemma {:induction false} PlainBytes(b: seq<Byte>)
    requires forall i :: 0 <= i < |b| ==> Unreserved(b[i])
    ensures EncodeBytes(b) == b
  {
    if b != [] {
      PlainBytes(b[1..]);
      assert b == [b[0]] + b[1..];
    }
  }

  lemma {:induction false} FieldsReadBack(params: seq<(Str, Str)>, key: Str)
    requires PercentEncode(key) == key
    ensures LastField(EncodePairs(params), key) == Carried(LastValue(params, key))
  {
    hide PercentEncode, PercentDecode, PairOf, Chars, Utf8;
    if params != [] {
      var n := |params| - 1;
      FieldsReadBack(params[..n], key);
      assert EncodePairs(params)[..n] == EncodePairs(params[..n]);
      PairReadsBack(params[n]);
      DecodeEncode(params[n].1);
      if PercentEncode(params[n].0) == key { EncodeInjective(params[n].0, key); }
    }
  }

  /**
   * A callback whose query is a form-encoded list of parameters, any list and any strings, is read as the last code and the
   * last state of that list, each as the characters numbered by its UTF-8 bytes.
   */
  lemma CallbackReadsForm(base: Str, params: seq<(Str, Str)>, expected: Str)
    requires QUESTION !in base
    ensures ParseCallback(base + ([QUESTION] + FormEncode(params)), expected) ==
            Answered(Carried(LastValue(params, CODE)), Carried(LastValue(params, STATE)), expected)
  {
    hide EncodePairs, Split, SplitOnce, LastField, LastValue, PercentEncode, Carried, Answered;
    SplitOnceJoined(base, QUESTION, FormEncode(params));
    PlainKeys();
    FieldsReadBack(params, CODE);
    FieldsReadBack(params, STATE);
    var pieces := EncodePairs(params);
    if params == [] {
      assert Split([], AMPERSAND) == [[]] by { NoPieces(); }
      EmptyQuery(CODE);
      EmptyQuery(STATE);
      assert pieces == [];
    } else {
      forall p | p in pieces ensures AMPERSAND !in p {
        var i :| 0 <= i < |pieces| && pieces[i] == p;
        PairReadsBack(params[i]);
      }
      SplitJoin(pieces, AMPERSAND);
    }
  }

  lemma NoPieces()
    ensures Split([], AMPERSAND) == [[]]
  {
  }

  lemma EmptyQuery(key: Str)
    requires key != []
    ensures LastField([[]], key) == LastField([], key)
  {
    assert PairOf([]) == ([], []);
    var none: seq<Str> := [[]];
    assert none[..0] == [];
  }

  /** The code and the state that were sent come back exactly when both are ASCII, if the sent state is the expected one. */
  lemma CallbackRoundTrip(base: Str, params: seq<(Str, Str)>, code: Str, state: Str)
    requires QUESTION !in base
    requires LastValue(params, CODE) == Some(code) && LastValue(params, STATE) == Some(state)
    ensures ParseCallback(base + ([QUESTION] + FormEncode(params)), state) == Answer(code, state) <==>
            IsAscii(code) && IsAscii(state)
    ensures !IsAscii(state) ==>
              ParseCallback(base + ([QUESTION] + FormEncode(params)), state) == Refused(StateMismatch)
  {
    hide ParseCallback, LastValue, Chars, Utf8;
    CallbackReadsForm(base, params, state);
    CharsOfUtf8(code);
    CharsOfUtf8(state);
  }
}
