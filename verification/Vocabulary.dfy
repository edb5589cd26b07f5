/** The characters of JSON text, the numbers JavaScript keeps exactly, and the order in which it enumerates keys. */
module Vocabulary {
  import opened Units
  import opened JsonValues
  import opened Canonical
  import opened CanonicalForm
  import opened Preflight
  import Bytes

  // ----- characters

  const WHITE: string := " \t\n\r"
  const ESCAPES: string := "\"\\/bfnrt"
  const ESCAPED: string := "\"\\/\U{8}\U{C}\n\r\t"

  /** The unit is the character at some place of the literal. */
  predicate IsIn(u: Unit, s: string) {
    exists i :: 0 <= i < |s| && u == s[i] as int
  }

  /** White space, digits and escapes are those of sections 2, 6 and 7 of RFC 8259. */
  lemma CharacterClasses(u: Unit)
    ensures IsWs(u) <==> IsIn(u, WHITE)
    ensures IsDigit(u) <==> '0' as int <= u <= '9' as int
    ensures IsEscapeLetter(u) <==> IsIn(u, ESCAPES)
    ensures forall i :: 0 <= i < |ESCAPES| && u == ESCAPES[i] as int ==> EscapeMeaning(u) == ESCAPED[i] as int
  {
    assert IsWs(u) ==> u == WHITE[0] as int || u == WHITE[1] as int || u == WHITE[2] as int || u == WHITE[3] as int;
    if IsEscapeLetter(u) {
      assert u == ESCAPES[0] as int || u == ESCAPES[1] as int || u == ESCAPES[2] as int || u == ESCAPES[3] as int ||
             u == ESCAPES[4] as int || u == ESCAPES[5] as int || u == ESCAPES[6] as int || u == ESCAPES[7] as int;
    }
  }

  /** A name as text has the code of each of its characters. */
  lemma NameUnits(s: Name, i: nat)
    requires i < |s|
    ensures |Ascii(s)| == |s| && Ascii(s)[i] == s[i] as int
  {
  }

  lemma Punctuation()
    ensures [LBRACE, RBRACE, LBRACKET, RBRACKET, COLON, COMMA, QUOTE, BACKSLASH, SLASH, MINUS, DOT, ZERO]
         == ['{' as int, '}' as int, '[' as int, ']' as int, ':' as int, ',' as int, '\"' as int, '\\' as int, '/' as int,
             '-' as int, '.' as int, '0' as int]
    ensures [LOWER_E, UPPER_E, LOWER_U] == ['e' as int, 'E' as int, 'u' as int]
    ensures NULL == ['n' as int, 'u' as int, 'l' as int, 'l' as int]
    ensures TRUE == ['t' as int, 'r' as int, 'u' as int, 'e' as int]
    ensures FALSE == ['f' as int, 'a' as int, 'l' as int, 's' as int, 'e' as int]
    ensures MAX_SAFE == 9_007_199_254_740_991 && Bytes.REPLACEMENT == 65_533
  {
  }

  // ----- the enumeration of keys

  /** An array index is the decimal spelling of a number below 2^32 - 1. */
  lemma ArrayIndexExact(k: Text)
    ensures IsArrayIndex(k) <==> exists n: nat :: n < 4_294_967_295 && k == NatText(n)
  {
    if IsArrayIndex(k) {
      DigitsText(k);
      assert k == NatText(DigitsValue(k));
    }
    forall n: nat | n < 4_294_967_295 && k == NatText(n) ensures IsArrayIndex(k) { NatTextValue(n); }
  }

  /** Where a key stands among the keys kept. */
  function Kept(ks: seq<Text>, index: bool, i: nat): (p: nat)
    requires i <= |ks|
  {
    |Filter(ks[..i], index)|
  }

  lemma {:induction false} FilterAppend(a: seq<Text>, b: seq<Text>, index: bool)
    ensures Filter(a + b, index) == Filter(a, index) + Filter(b, index)
  {
    hide IsArrayIndex;
    if a == [] {
      assert a + b == b;
    } else {
      assert (a + b)[1..] == a[1..] + b;
      FilterAppend(a[1..], b, index);
    }
  }

  lemma KeptAt(ks: seq<Text>, index: bool, i: nat)
    requires i < |ks| && IsArrayIndex(ks[i]) == index
    ensures Kept(ks, index, i) < |Filter(ks, index)| && Filter(ks, index)[Kept(ks, index, i)] == ks[i]
    ensures Kept(ks, index, i + 1) == Kept(ks, index, i) + 1
  {
    hide IsArrayIndex;
    var k := [ks[i]];
    assert ks == ks[..i] + (k + ks[i + 1..]) && ks[..i + 1] == ks[..i] + k;
    FilterAppend(ks[..i], k + ks[i + 1..], index);
    FilterAppend(k, ks[i + 1..], index);
    FilterAppend(ks[..i], k, index);
    OneKept(k, index);
  }

  lemma OneKept(k: seq<Text>, index: bool)
    requires |k| == 1 && IsArrayIndex(k[0]) == index
    ensures Filter(k, index) == k
  {
    hide IsArrayIndex;
    assert k[1..] == [];
  }

  lemma {:induction false} KeptGrows(ks: seq<Text>, index: bool, i: nat, j: nat)
    requires i <= j <= |ks|
    ensures Kept(ks, index, i) <= Kept(ks, index, j)
  {
    hide IsArrayIndex;
    assert ks[..j] == ks[..i] + ks[i..j];
    FilterAppend(ks[..i], ks[i..j], index);
  }

  /** The place of a key in the enumeration of an object: array indices first, the others in the order of insertion. */
  function Place(es: seq<Entry>, i: nat): nat
    requires i < |es|
  {
    if IsArrayIndex(es[i].key) then Kept(Keys(es), true, i) else |Filter(Keys(es), true)| + Kept(Keys(es), false, i)
  }

  /** Every key is enumerated at its place; an index comes before a key that is none, and of two of those the earlier one. */
  lemma EnumerationOrder(es: seq<Entry>, i: nat, j: nat)
    requires i < |es| && j < |es|
    ensures Place(es, i) < |ObjectKeys(es)| && ObjectKeys(es)[Place(es, i)] == es[i].key
    ensures IsArrayIndex(es[i].key) && !IsArrayIndex(es[j].key) ==> Place(es, i) < Place(es, j)
    ensures !IsArrayIndex(es[i].key) && !IsArrayIndex(es[j].key) && i < j ==> Place(es, i) < Place(es, j)
  {
    hide IsArrayIndex, Filter, Kept;
    var ks := Keys(es);
    KeptAt(ks, IsArrayIndex(es[i].key), i);
    KeptAt(ks, IsArrayIndex(es[j].key), j);
    if i < j { KeptGrows(ks, false, i + 1, j); }
  }
}
