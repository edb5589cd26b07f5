/** What percent decoding, splitting and the reading of a callback do with any text, encoded or not. */
module PercentExact {
  import opened Units
  import opened Bytes
  import opened Percent

  // ----- digits and bare characters

  const LOWER_DIGITS: string := "0123456789abcdef"
  const UPPER_DIGITS: string := "0123456789ABCDEF"

  /** The character is a hexadecimal digit of this value, in either case. */
  predicate DigitOf(u: Unit, d: nat) {
    d < 16 && (u == LOWER_DIGITS[d] as int || u == UPPER_DIGITS[d] as int)
  }

  lemma DigitsExact(u: Unit, d: nat)
    ensures IsHex(u) && HexValue(u) == d <==> DigitOf(u, d)
    ensures d < 16 ==> HexDigit(d) == LOWER_DIGITS[d] as int
  {
  }

  lemma UpperDigitExact(d: nat)
    requires d < 16
    ensures UpperDigit(d) == UPPER_DIGITS[d] as int
  {
  }

  predicate IsBetween(b: Byte, first: char, last: char) {
    first as int <= b <= last as int
  }

  /** The bytes left bare are the unreserved characters of section 2.3 of RFC 3986; the others take two upper-case digits. */
  lemma EncodeByteExact(b: Byte)
    ensures EncodeByte(b) ==
            if IsBetween(b, 'A', 'Z') || IsBetween(b, 'a', 'z') || IsBetween(b, '0', '9') || b in [0x2D, 0x2E, 0x5F, 0x7E] then [b]
            else ['%' as int, UPPER_DIGITS[b / 16] as int, UPPER_DIGITS[b % 16] as int]
    ensures '-' as int == 0x2D && '.' as int == 0x2E && '_' as int == 0x5F && '~' as int == 0x7E
  {
    UpperDigitExact(b / 16);
    UpperDigitExact(b % 16);
  }

  // ----- decoding as a language

  /**
   What a decoder meets: a byte that stands for itself, a plus sign for a space, an escape, an escape with a sign before
   its digit, an escape that is none and whose two bytes are lost, and one cut short by the end of the text.
   */
  datatype Piece =
    | Plain(b: Byte)
    | Space
    | Escape(hi: Byte, lo: Byte)
    | Signed(lo: Byte)
    | Broken(hi: Byte, lo: Byte)
    | Cut(tail: seq<Byte>)

  predicate IsDigitByte(b: Byte) {
    exists d: nat :: d < 16 && DigitOf(b, d)
  }

  predicate ValidPiece(p: Piece) {
    match p
    case Plain(b) => b != '%' as int && b != '+' as int
    case Space => true
    case Escape(hi, lo) => IsDigitByte(hi) && IsDigitByte(lo)
    case Signed(lo) => IsDigitByte(lo)
    case Broken(hi, lo) => !IsDigitByte(lo) || (!IsDigitByte(hi) && hi != '+' as int)
    case Cut(tail) => |tail| <= 1
  }

  /** Only the last piece may be cut short. */
  predicate ValidPieces(ps: seq<Piece>) {
    forall i :: 0 <= i < |ps| ==> ValidPiece(ps[i]) && (ps[i].Cut? ==> i == |ps| - 1)
  }

  function PieceText(p: Piece): (t: seq<Byte>)
    ensures t != []
  {
    match p
    case Plain(b) => [b]
    case Space => ['+' as int]
    case Escape(hi, lo) => ['%' as int, hi, lo]
    case Signed(lo) => ['%' as int, '+' as int, lo]
    case Broken(hi, lo) => ['%' as int, hi, lo]
    case Cut(tail) => ['%' as int] + tail
  }

  function PiecesText(ps: seq<Piece>): seq<Byte> {
    if ps == [] then [] else PieceText(ps[0]) + PiecesText(ps[1..])
  }

  ghost function DigitValue(b: Byte): (d: nat)
    requires IsDigitByte(b)
    ensures DigitOf(b, d)
  {
    var d :| DigitOf(b, d);
    d
  }

  ghost function PieceChar(p: Piece): Scalar
    requires ValidPiece(p)
  {
    match p
    case Plain(b) => b as int
    case Space => ' ' as int
    case Escape(hi, lo) => DigitValue(hi) * 16 + DigitValue(lo)
    case Signed(lo) => DigitValue(lo)
    case Broken(_, _) => '%' as int
    case Cut(_) => '%' as int
  }

  ghost function PiecesChars(ps: seq<Piece>): Str
    requires ValidPieces(ps)
  {
    if ps == [] then [] else [PieceChar(ps[0])] + PiecesChars(ps[1..])
  }

  lemma DigitByteExact(b: Byte)
    ensures IsDigitByte(b) <==> IsHex(b)
    ensures IsDigitByte(b) ==> DigitValue(b) == HexValue(b)
  {
    hide DigitOf;
    if IsHex(b) { DigitsExact(b, HexValue(b)); }
    if IsDigitByte(b) { DigitsExact(b, DigitValue(b)); }
  }

  lemma RadixExact(hi: Byte, lo: Byte)
    ensures Radix16(hi, lo) ==
            if IsDigitByte(hi) && IsDigitByte(lo) then Some(DigitValue(hi) * 16 + DigitValue(lo))
            else if hi == '+' as int && IsDigitByte(lo) then Some(DigitValue(lo))
            else None
  {
    hide IsDigitByte, DigitValue;
    DigitByteExact(hi);
    DigitByteExact(lo);
  }

  /** One piece is decoded to its character, and the rest goes on behind it. */
  lemma PieceDecodes(p: Piece, rest: seq<Byte>)
    requires ValidPiece(p) && (p.Cut? ==> rest == [])
    ensures DecodeBytes(PieceText(p) + rest) == [PieceChar(p)] + DecodeBytes(rest)
  {
    hide IsDigitByte, DigitValue, Radix16;
    var t := PieceText(p) + rest;
    assert t[|PieceText(p)|..] == rest;
    match p
    case Escape(hi, lo) => RadixExact(hi, lo);
    case Signed(lo) => SignedRadix(lo);
    case Broken(hi, lo) => RadixExact(hi, lo);
    case Cut(tail) => assert t[Least(3, |t|)..] == [];
    case _ =>
  }

  lemma SignedRadix(lo: Byte)
    requires IsDigitByte(lo)
    ensures Radix16('+' as int, lo) == Some(DigitValue(lo))
  {
    hide DigitValue;
    RadixExact('+' as int, lo);
    DigitByteExact('+' as int);
  }

  lemma {:induction false} PiecesDecode(ps: seq<Piece>)
    requires ValidPieces(ps)
    ensures DecodeBytes(PiecesText(ps)) == PiecesChars(ps)
  {
    hide PieceText, PieceChar, ValidPiece;
    if ps != [] {
      if ps[0].Cut? { assert ps[1..] == []; }
      PiecesDecode(ps[1..]);
      PieceDecodes(ps[0], PiecesText(ps[1..]));
    }
  }

  /** The piece at the start of a text. */
  lemma FirstPiece(b: seq<Byte>) returns (p: Piece, rest: seq<Byte>)
    requires b != []
    ensures ValidPiece(p) && b == PieceText(p) + rest && (p.Cut? ==> rest == [])
  {
    hide IsDigitByte;
    if b[0] == '+' as int {
      p, rest := Space, b[1..];
    } else if b[0] != '%' as int {
      p, rest := Plain(b[0]), b[1..];
    } else if |b| < 3 {
      p, rest := Cut(b[1..]), [];
    } else {
      rest := b[3..];
      p := if IsDigitByte(b[1]) && IsDigitByte(b[2]) then Escape(b[1], b[2])
           else if b[1] == '+' as int && IsDigitByte(b[2]) then Signed(b[2])
           else Broken(b[1], b[2]);
    }
  }

  lemma {:induction false} TextHasPieces(b: seq<Byte>) returns (ps: seq<Piece>)
    ensures ValidPieces(ps) && PiecesText(ps) == b
    decreases |b|
  {
    hide ValidPiece;
    ps := [];
    if b != [] {
      var p, rest := FirstPiece(b);
      var more := TextHasPieces(rest);
      if p.Cut? { NoPieces(more); }
      ps := [p] + more;
      assert ps[1..] == more;
    }
  }

  lemma NoPieces(ps: seq<Piece>)
    requires PiecesText(ps) == []
    ensures ps == []
  {
  }

  /** Decoding gives the characters of the pieces a text is made of, and every text is made of pieces. */
  lemma DecodeExact(value: Str, s: Str)
    ensures PercentDecode(value) == s <==> exists ps :: ValidPieces(ps) && PiecesText(ps) == Utf8(value) && PiecesChars(ps) == s
  {
    hide ValidPieces, DecodeBytes, Utf8;
    var ps := TextHasPieces(Utf8(value));
    PiecesDecode(ps);
    forall qs | ValidPieces(qs) && PiecesText(qs) == Utf8(value) && PiecesChars(qs) == s ensures PercentDecode(value) == s {
      PiecesDecode(qs);
    }
  }

  // ----- splitting

  /** The text before the first occurrence has none, and the two parts with the character between them are the text. */
  lemma {:induction false} SplitOnceExact(s: Str, c: Scalar, a: Str, b: Str)
    ensures SplitOnce(s, c) == Some((a, b)) <==> c !in a && s == a + ([c] + b)
    ensures SplitOnce(s, c) == None <==> c !in s
  {
    if c !in a && s == a + ([c] + b) { SplitOnceJoined(a, c, b); }
    SplitOnceParts(s, c);
  }

  lemma {:induction false} SplitOnceParts(s: Str, c: Scalar)
    ensures match SplitOnce(s, c)
            case None => c !in s
            case Some((a, b)) => c !in a && s == a + ([c] + b)
  {
    if s != [] && s[0] != c {
      SplitOnceParts(s[1..], c);
      assert s == [s[0]] + s[1..];
    }
  }

  lemma {:induction false} SplitParts(s: Str, c: Scalar)
    ensures Percent.Join(Split(s, c), c) == s
    ensures forall i :: 0 <= i < |Split(s, c)| ==> c !in Split(s, c)[i]
  {
    if s != [] {
      var rest := Split(s[1..], c);
      SplitParts(s[1..], c);
      assert s == [s[0]] + s[1..];
      if s[0] == c {
        assert ([[]] + rest)[1..] == rest;
      } else {
        var pieces := [[s[0]] + rest[0]] + rest[1..];
        assert pieces[1..] == rest[1..];
        JoinHead(rest, [s[0]], c);
      }
    }
  }

  lemma JoinHead(pieces: seq<Str>, head: Str, c: Scalar)
    requires pieces != []
    ensures Percent.Join([head + pieces[0]] + pieces[1..], c) == head + Percent.Join(pieces, c)
  {
    assert ([head + pieces[0]] + pieces[1..])[1..] == pieces[1..];
  }

  /** Splitting is the one way to write a text as pieces without the separator, joined by it. */
  lemma SplitExact(s: Str, c: Scalar, pieces: seq<Str>)
    ensures Split(s, c) == pieces <==> pieces != [] && (forall p :: p in pieces ==> c !in p) && Percent.Join(pieces, c) == s
  {
    SplitParts(s, c);
    if pieces != [] && (forall p :: p in pieces ==> c !in p) && Percent.Join(pieces, c) == s { SplitJoin(pieces, c); }
    if Split(s, c) == pieces {
      forall p | p in pieces ensures c !in p { var i :| 0 <= i < |pieces| && pieces[i] == p; }
    }
  }

  // ----- callbacks

  /** The piece is the key, an equals sign and the value, or the key alone with an empty value. */
  predicate IsPair(piece: Str, key: Str, value: Str) {
    EQUALS !in key && (piece == key + ([EQUALS] + value) || (piece == key && value == []))
  }

  lemma PairExact(piece: Str, key: Str, value: Str)
    ensures PairOf(piece) == (key, value) <==> IsPair(piece, key, value)
  {
    SplitOnceExact(piece, EQUALS, key, value);
    SplitOnceParts(piece, EQUALS);
    if piece == key && EQUALS !in key { assert SplitOnce(piece, EQUALS) == None; }
  }

  /** Some pair of the list has the key. */
  ghost predicate HasField(pieces: seq<Str>, key: Str) {
    exists i, value :: 0 <= i < |pieces| && IsPair(pieces[i], key, value)
  }

  /** The pairs behind one of them. */
  function Behind(pieces: seq<Str>, i: nat): seq<Str>
    requires i < |pieces|
  {
    pieces[i + 1..]
  }

  /** A pair of the list has the key and decodes to the value, and no later pair has the key. */
  ghost predicate IsLastField(pieces: seq<Str>, key: Str, v: Str) {
    exists i, value :: 0 <= i < |pieces| && IsPair(pieces[i], key, value) && PercentDecode(value) == v && !HasField(Behind(pieces, i), key)
  }

  lemma {:induction false} LastFieldExact(pieces: seq<Str>, key: Str, v: Str)
    ensures LastField(pieces, key) == Some(v) <==> IsLastField(pieces, key, v)
    ensures LastField(pieces, key) == None <==> !HasField(pieces, key)
  {
    hide PercentDecode, IsPair, PairOf;
    if pieces != [] {
      var n := |pieces| - 1;
      var front, last := pieces[..n], PairOf(pieces[n]);
      LastFieldExact(front, key, v);
      PairExact(pieces[n], last.0, last.1);
      forall value ensures IsPair(pieces[n], key, value) <==> last == (key, value) { PairExact(pieces[n], key, value); }
      if last.0 == key {
        assert pieces[n + 1..] == [];
        assert IsPair(pieces[n], key, last.1);
        LastWins(pieces, key, v);
      } else {
        FrontDecides(pieces, key, v);
      }
    }
  }

  lemma LaterHas(pieces: seq<Str>, i: nat, n: nat, key: Str, value: Str)
    requires i < n < |pieces| && IsPair(pieces[n], key, value)
    ensures HasField(Behind(pieces, i), key)
  {
    hide IsPair;
    assert Behind(pieces, i)[n - i - 1] == pieces[n];
  }

  lemma LastWins(pieces: seq<Str>, key: Str, v: Str)
    requires pieces != [] && PairOf(pieces[|pieces| - 1]).0 == key
    ensures IsLastField(pieces, key, v) <==> PercentDecode(PairOf(pieces[|pieces| - 1]).1) == v
  {
    hide PercentDecode, IsPair, PairOf;
    var n := |pieces| - 1;
    var last := PairOf(pieces[n]);
    PairExact(pieces[n], last.0, last.1);
    assert pieces[n + 1..] == [];
    forall i, value | 0 <= i < |pieces| && IsPair(pieces[i], key, value) && !HasField(Behind(pieces, i), key)
      ensures i == n && value == last.1
    {
      PairExact(pieces[i], key, value);
      if i < n { LaterHas(pieces, i, n, key, last.1); }
    }
  }

  lemma FrontDecides(pieces: seq<Str>, key: Str, v: Str)
    requires pieces != [] && PairOf(pieces[|pieces| - 1]).0 != key
    ensures HasField(pieces, key) <==> HasField(pieces[..|pieces| - 1], key)
    ensures IsLastField(pieces, key, v) <==> IsLastField(pieces[..|pieces| - 1], key, v)
  {
    hide PercentDecode, IsPair, PairOf;
    var n := |pieces| - 1;
    var front := pieces[..n];
    forall value ensures !IsPair(pieces[n], key, value) { PairExact(pieces[n], key, value); }
    forall i | 0 <= i < n ensures HasField(Behind(pieces, i), key) <==> HasField(Behind(front, i), key) {
      SameFields(Behind(pieces, i), Behind(front, i), pieces[n], key);
    }
    SameFields(pieces, front, pieces[n], key);
  }

  /** A last piece without the key makes no difference. */
  lemma SameFields(pieces: seq<Str>, front: seq<Str>, last: Str, key: Str)
    requires pieces == front + [last]
    requires forall value :: !IsPair(last, key, value)
    ensures HasField(pieces, key) <==> HasField(front, key)
  {
    hide IsPair;
    if HasField(front, key) {
      var i, value :| 0 <= i < |front| && IsPair(front[i], key, value);
      assert pieces[i] == front[i];
    }
  }

  /** The pairs of the query of a URL: what follows the first question mark, split at ampersands. */
  ghost predicate HasQuery(url: Str, pieces: seq<Str>) {
    exists base, query :: QUESTION !in base && url == base + ([QUESTION] + query) && pieces == Split(query, AMPERSAND)
  }

  lemma QueryExact(url: Str)
    ensures QUESTION in url <==> SplitOnce(url, QUESTION).Some?
    ensures forall pieces :: HasQuery(url, pieces) <==>
              SplitOnce(url, QUESTION).Some? && pieces == Split(SplitOnce(url, QUESTION).value.1, AMPERSAND)
  {
    hide Split;
    SplitOnceParts(url, QUESTION);
    forall base, query | QUESTION !in base && url == base + ([QUESTION] + query) ensures SplitOnce(url, QUESTION) == Some((base, query)) {
      SplitOnceJoined(base, QUESTION, query);
    }
  }

  /**
   A callback is read for any URL whatever: refused without a query, then without a state, then with a last state other
   than the expected one, then without a code; and otherwise answered with the last code and that state.
   */
  lemma CallbackExact(url: Str, expected: Str, pieces: seq<Str>)
    ensures ParseCallback(url, expected) == Refused(QueryMissing) <==> QUESTION !in url
    ensures HasQuery(url, pieces) ==>
              var r := ParseCallback(url, expected);
              && (r == Refused(StateMissing) <==> !HasField(pieces, STATE))
              && (r == Refused(StateMismatch) <==> HasField(pieces, STATE) && !IsLastField(pieces, STATE, expected))
              && (r == Refused(CodeMissing) <==> IsLastField(pieces, STATE, expected) && !HasField(pieces, CODE))
              && (forall code, state :: r == Answer(code, state) <==>
                    state == expected && IsLastField(pieces, STATE, expected) && IsLastField(pieces, CODE, code))
  {
    hide Split, SplitOnce, LastField, HasField, IsLastField, HasQuery;
    QueryExact(url);
    if HasQuery(url, pieces) {
      LastFieldExact(pieces, STATE, expected);
      forall code ensures LastField(pieces, CODE) == Some(code) <==> IsLastField(pieces, CODE, code) {
        LastFieldExact(pieces, CODE, code);
      }
      LastFieldExact(pieces, CODE, []);
    }
  }
}
