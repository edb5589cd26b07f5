/**
 Canonical text described without the printer: the one JSON text for a value that has no white space, object keys
 in ascending code-unit order, no minus zero, and every code unit of a string in its prescribed spelling.
 */
module CanonicalForm {
  import opened Units
  import opened JsonValues
  import opened Sequences
  import opened Grammar
  import opened StrictParser
  import opened ParserLanguage
  import opened Canonical

  // ----- the order of keys

  /** Every two neighbours are in order. */
  ghost predicate Ascending(ks: seq<Text>) {
    forall i :: 0 < i < |ks| ==> Before(ks[i - 1], ks[i])
  }

  lemma {:induction false} AscendingPair(ks: seq<Text>, i: nat, j: nat)
    requires Ascending(ks) && i < j < |ks|
    ensures Less(ks[i], ks[j])
    decreases j
  {
    hide Less, Before;
    LessExact(ks[j - 1], ks[j]);
    if i < j - 1 {
      AscendingPair(ks, i, j - 1);
      LessTransitive(ks[i], ks[j - 1], ks[j]);
    }
  }

  lemma AscendingIsSorted(ks: seq<Text>)
    ensures Ascending(ks) <==> StrictlySorted(ks)
  {
    hide Less, Before;
    if Ascending(ks) {
      forall i, j | 0 <= i < j < |ks| ensures Less(ks[i], ks[j]) { AscendingPair(ks, i, j); }
    }
    if StrictlySorted(ks) {
      forall i | 0 < i < |ks| ensures Before(ks[i - 1], ks[i]) { LessExact(ks[i - 1], ks[i]); }
    }
  }

  // ----- the spelling of strings

  /** Half of a surrogate pair without the other half. */
  predicate Lone(t: Text, i: nat)
    requires i < |t|
  {
    (IsHigh(t[i]) && !(i + 1 < |t| && IsLow(t[i + 1]))) || (IsLow(t[i]) && !(i > 0 && IsHigh(t[i - 1])))
  }

  predicate IsLowerHex(u: Unit) {
    IsDigit(u) || 0x61 <= u <= 0x66
  }

  /** The control characters with a two-character escape. */
  predicate HasShortEscape(u: Unit) {
    u == 0x08 || u == 0x09 || u == 0x0A || u == 0x0C || u == 0x0D
  }

  /** A unit stands for itself unless that is not allowed; it is escaped in two characters where there is such an
      escape, and otherwise in lower-case hexadecimal. A slash is never escaped. */
  predicate Prescribed(p: Piece, lone: bool) {
    ValidPiece(p) &&
    match p
    case Raw(u) => !lone
    case Escape(l) => l != SLASH
    case Hex(a, b, c, d) =>
      IsLowerHex(a) && IsLowerHex(b) && IsLowerHex(c) && IsLowerHex(d) &&
      (lone || (PieceMeaning(p) < 0x20 && !HasShortEscape(PieceMeaning(p))))
  }

  predicate PrescribedPieces(ps: seq<Piece>) {
    ValidPieces(ps) && forall i :: 0 <= i < |ps| ==> Prescribed(ps[i], Lone(PiecesMeaning(ps), i))
  }

  lemma LowerHexUnique(a: Unit, b: Unit)
    requires IsLowerHex(a) && IsLowerHex(b) && HexValue(a) == HexValue(b)
    ensures a == b
  {
  }

  lemma SixteenUnique(a: nat, b: nat, c: nat, d: nat, e: nat, f: nat, g: nat, h: nat)
    requires a < 16 && b < 16 && c < 16 && d < 16 && e < 16 && f < 16 && g < 16 && h < 16
    requires a * 0x1000 + b * 0x100 + c * 0x10 + d == e * 0x1000 + f * 0x100 + g * 0x10 + h
    ensures a == e && b == f && c == g && d == h
  {
  }

  lemma Hex4Unique(p: Piece, q: Piece)
    requires p.Hex? && q.Hex? && Prescribed(p, true) && Prescribed(q, true) && PieceMeaning(p) == PieceMeaning(q)
    ensures p == q
  {
    SixteenUnique(HexValue(p.a), HexValue(p.b), HexValue(p.c), HexValue(p.d),
                  HexValue(q.a), HexValue(q.b), HexValue(q.c), HexValue(q.d));
    LowerHexUnique(p.a, q.a);
    LowerHexUnique(p.b, q.b);
    LowerHexUnique(p.c, q.c);
    LowerHexUnique(p.d, q.d);
  }

  /** One unit has one prescribed spelling. */
  lemma PrescribedUnique(p: Piece, q: Piece, lone: bool)
    requires Prescribed(p, lone) && Prescribed(q, lone) && PieceMeaning(p) == PieceMeaning(q)
    requires lone ==> IsHigh(PieceMeaning(p)) || IsLow(PieceMeaning(p))
    ensures p == q
  {
    hide Hex4;
    if p.Hex? && q.Hex? { Hex4Unique(p, q); }
  }

  lemma PieceOfPrescribed(u: Unit, lone: bool)
    requires lone == (IsHigh(u) || IsLow(u))
    ensures Prescribed(PieceOf(u), lone)
  {
    PieceOfMeaning(u);
  }

  /** The printer gives every unit its prescribed spelling. */
  lemma {:induction false} PiecesPrescribed(t: Text, i: nat)
    requires i < |t|
    ensures |Pieces(t)| == |t| && Prescribed(Pieces(t)[i], Lone(t, i))
    decreases |t|
  {
    hide Prescribed, PieceOf;
    PiecesOfMeaning(t);
    if |t| >= 2 && IsHigh(t[0]) && IsLow(t[1]) {
      PiecesOfMeaning(t[2..]);
      if i >= 2 { PiecesPrescribed(t[2..], i - 2); } else { RawPrescribed(t[i]); }
    } else {
      PiecesOfMeaning(t[1..]);
      if i == 0 {
        PieceOfPrescribed(t[0], Lone(t, 0));
      } else {
        PiecesPrescribed(t[1..], i - 1);
      }
    }
  }

  lemma RawPrescribed(u: Unit)
    requires IsHigh(u) || IsLow(u)
    ensures Prescribed(Raw(u), false)
  {
  }

  lemma PiecesExact(t: Text, ps: seq<Piece>)
    ensures ps == Pieces(t) <==> PrescribedPieces(ps) && PiecesMeaning(ps) == t
  {
    hide Prescribed, Pieces, PieceMeaning;
    PiecesOfMeaning(t);
    forall i | 0 <= i < |t| ensures |Pieces(t)| == |t| && Prescribed(Pieces(t)[i], Lone(t, i)) { PiecesPrescribed(t, i); }
    if PrescribedPieces(ps) && PiecesMeaning(ps) == t {
      forall i | 0 <= i < |t| ensures ps[i] == Pieces(t)[i] {
        assert PieceMeaning(ps[i]) == t[i] == PiecesMeaning(Pieces(t))[i];
        PrescribedUnique(ps[i], Pieces(t)[i], Lone(t, i));
      }
    }
  }

  // ----- canonical form

  /** The keys of the members as they are spelled. */
  function MemberKeys(members: seq<Member>): (ks: seq<Text>)
    requires ValidMembers(members)
    ensures |ks| == |members|
  {
    seq(|members|, i requires 0 <= i < |members| => PiecesMeaning(members[i].key))
  }

  ghost predicate InCanonicalForm(c: Tree)
    requires Valid(c)
  {
    match c
    case NullWord => true
    case BoolWord(_) => true
    case Number(negative, digits) => !(negative && digits == [ZERO])
    case Quoted(pieces) => PrescribedPieces(pieces)
    case Array(gap, items) =>
      gap == [] &&
      forall i :: 0 <= i < |items| ==> items[i].before == [] && items[i].after == [] && InCanonicalForm(items[i].value)
    case Object(gap, members) =>
      gap == [] && Ascending(MemberKeys(members)) &&
      forall i :: 0 <= i < |members| ==>
        Tight(members[i]) && PrescribedPieces(members[i].key) && InCanonicalForm(members[i].value)
  }

  predicate Tight(m: Member) {
    m.before == [] && m.beforeColon == [] && m.afterColon == [] && m.after == []
  }

  lemma {:induction false} TreeItemsAt(items: seq<Json>, i: nat)
    requires i < |items|
    ensures TreeItems(items)[i] == Item([], CanonicalTree(items[i]), [])
  {
    if i > 0 { TreeItemsAt(items[1..], i - 1); }
  }

  lemma {:induction false} TreeMembersAt(es: seq<Entry>, ks: seq<Text>, i: nat)
    requires (forall k :: k in ks ==> HasKey(es, k)) && i < |ks|
    ensures HasKey(es, ks[i])
    ensures TreeMembers(es, ks)[i] == Member([], Pieces(ks[i]), [], [], CanonicalTree(es[IndexOf(es, ks[i])].value), [])
    decreases i
  {
    if i > 0 { TreeMembersAt(es, ks[1..], i - 1); }
  }

  lemma {:induction false} ItemsMeaningAt(items: seq<Item>, i: nat)
    requires ValidItems(items) && i < |items|
    ensures ItemsMeaning(items)[i] == Meaning(items[i].value)
  {
    if i > 0 { ItemsMeaningAt(items[1..], i - 1); }
  }

  lemma {:induction false} MembersMeaningAt(members: seq<Member>, i: nat)
    requires ValidMembers(members) && i < |members|
    ensures MembersMeaning(members)[i] == Entry(PiecesMeaning(members[i].key), Meaning(members[i].value))
  {
    if i > 0 { MembersMeaningAt(members[1..], i - 1); }
  }

  // ----- the printer produces canonical form

  lemma {:induction false} PrinterIsCanonical(v: Json)
    requires WellFormed(v)
    ensures Valid(CanonicalTree(v)) && InCanonicalForm(CanonicalTree(v))
  {
    hide PrescribedPieces, Ascending, Pieces;
    TreeMeaning(v);
    match v
    case Num(n) => NumberIsCanonical(n);
    case Str(s) => PiecesExact(s, Pieces(s));
    case Arr(items) =>
      forall i | 0 <= i < |items|
        ensures TreeItems(items)[i] == Item([], CanonicalTree(items[i]), [])
        ensures Valid(CanonicalTree(items[i])) && InCanonicalForm(CanonicalTree(items[i]))
      {
        TreeItemsAt(items, i);
        PrinterIsCanonical(items[i]);
      }
    case Obj(es) => ObjectIsCanonical(es);
    case _ =>
  }

  lemma NumberIsCanonical(n: SafeInt)
    ensures Valid(NumberTree(n)) && InCanonicalForm(NumberTree(n))
  {
    NumberTreeMeaning(n);
    var m: int := n;
    if m < 0 { NatTextValue(-m); }
  }

  lemma {:induction false} ObjectIsCanonical(es: seq<Entry>)
    requires WellFormed(Obj(es))
    ensures Valid(CanonicalTree(Obj(es))) && InCanonicalForm(CanonicalTree(Obj(es)))
    decreases Obj(es), 0
  {
    hide PrescribedPieces, Ascending, Pieces, PiecesMeaning;
    TreeMeaning(Obj(es));
    var ks := Sort(Keys(es));
    SortedKeys(es);
    var members := TreeMembers(es, ks);
    MembersTreeMeaning(es, ks);
    forall i | 0 <= i < |ks|
      ensures Tight(members[i]) && PrescribedPieces(members[i].key)
      ensures Valid(members[i].value) && InCanonicalForm(members[i].value)
    {
      TreeMembersAt(es, ks, i);
      PiecesExact(ks[i], Pieces(ks[i]));
      PrinterIsCanonical(es[IndexOf(es, ks[i])].value);
    }
    assert MemberKeys(members) == ks;
    AscendingIsSorted(ks);
  }

  // ----- nothing else is in canonical form

  lemma {:induction false} DigitsText(digits: Text)
    requires digits != [] && AllDigits(digits) && (digits[0] == ZERO ==> |digits| == 1)
    ensures NatText(DigitsValue(digits)) == digits
    ensures digits[0] != ZERO ==> DigitsValue(digits) > 0
  {
    var n := |digits| - 1;
    var front := digits[..n];
    assert digits == front + [digits[n]];
    if n == 0 {
      assert DigitsValue(front) == 0;
    } else {
      assert front[0] == digits[0];
      DigitsText(front);
    }
  }

  lemma NumberFormUnique(negative: bool, digits: Text)
    requires ValidNumber(digits) && !(negative && digits == [ZERO])
    ensures NumberMeaning(negative, digits).Num? && NumberTree(NumberMeaning(negative, digits).n) == Number(negative, digits)
  {
    DigitsText(digits);
    if DigitsValue(digits) == 0 { assert digits == [ZERO]; }
  }

  /** A tree in canonical form is the one the printer makes of its meaning. */
  lemma {:induction false} FormIsPrinted(c: Tree)
    requires Valid(c) && InCanonicalForm(c)
    ensures CanonicalTree(Meaning(c)) == c
  {
    hide PrescribedPieces, Ascending, Pieces, PiecesMeaning, NumberTree, NumberMeaning;
    match c
    case Number(negative, digits) => NumberFormUnique(negative, digits);
    case Quoted(pieces) => PiecesExact(PiecesMeaning(pieces), pieces);
    case Array(gap, items) =>
      var vs := ItemsMeaning(items);
      forall i | 0 <= i < |items| ensures TreeItems(vs)[i] == items[i] {
        ItemsMeaningAt(items, i);
        TreeItemsAt(vs, i);
        FormIsPrinted(items[i].value);
      }
    case Object(gap, members) => ObjectFormIsPrinted(gap, members);
    case _ =>
  }

  lemma MembersSorted(members: seq<Member>)
    requires ValidMembers(members) && Ascending(MemberKeys(members))
    ensures DistinctKeys(MembersMeaning(members))
    ensures Sort(Keys(MembersMeaning(members))) == MemberKeys(members)
  {
    hide Ascending, Less;
    var es, ks := MembersMeaning(members), MemberKeys(members);
    MembersKeys(members);
    assert Keys(es) == ks;
    AscendingIsSorted(ks);
    forall i, j | 0 <= i < j < |es| ensures es[i].key != es[j].key {
      LessIrreflexive(ks[i]);
      assert es[i].key == ks[i] && es[j].key == ks[j];
    }
    SortedKeys(es);
    SortedUnique(Sort(ks), ks);
  }

  lemma {:induction false} ObjectFormIsPrinted(gap: Text, members: seq<Member>)
    requires Valid(Object(gap, members)) && InCanonicalForm(Object(gap, members))
    ensures CanonicalTree(Obj(MembersMeaning(members))) == Object(gap, members)
    decreases Object(gap, members), 0
  {
    hide PrescribedPieces, Ascending, Pieces, PiecesMeaning, Sort;
    var es, ks := MembersMeaning(members), MemberKeys(members);
    MembersSorted(members);
    forall i | 0 <= i < |members| ensures TreeMembers(es, ks)[i] == members[i] {
      MembersMeaningAt(members, i);
      TreeMembersAt(es, ks, i);
      IndexUnique(es, i);
      PiecesExact(ks[i], members[i].key);
      FormIsPrinted(members[i].value);
    }
  }

  // ----- what canonical text is

  /** Canonical text is the one text in canonical form for the value, up to key order and the sign of zero. */
  lemma CanonicalTextExact(t: Text, v: Json)
    requires WellFormed(v)
    ensures t == Canonicalize(v) <==>
            exists c :: Valid(c) && InCanonicalForm(c) && t == Spell(c, []) && Equivalent(Meaning(c), v)
  {
    hide Valid, InCanonicalForm, Meaning, Spell, Equivalent, Canonicalize;
    if t == Canonicalize(v) {
      var c := CanonicalTree(v);
      PrinterIsCanonical(v);
      TreeMeaning(v);
      TreeSpells(v, []);
      assert t + [] == t;
      NormIdempotent(v);
      CompleteInvariant(Norm(v), v);
    }
    forall c | Valid(c) && InCanonicalForm(c) && t == Spell(c, []) && Equivalent(Meaning(c), v) ensures t == Canonicalize(v) {
      FormIsPrinted(c);
      MeaningWellFormed(c);
      TreeSpells(Meaning(c), []);
      assert Canonicalize(Meaning(c)) + [] == Canonicalize(Meaning(c));
      CompleteInvariant(Meaning(c), v);
    }
  }

  /** Keys ascend in every object of the value. */
  ghost predicate KeysAscend(v: Json) {
    match v
    case Arr(items) => forall i :: 0 <= i < |items| ==> KeysAscend(items[i])
    case Obj(es) => Ascending(Keys(es)) && forall i :: 0 <= i < |es| ==> KeysAscend(es[i].value)
    case _ => true
  }

  lemma {:induction false} NormAscends(v: Json)
    requires WellFormed(v)
    ensures KeysAscend(Norm(v))
  {
    hide Ascending, Less;
    match v
    case Arr(items) =>
      forall i | 0 <= i < |items| ensures KeysAscend(NormItems(items)[i]) {
        NormItemsAt(items, i);
        NormAscends(items[i]);
      }
    case Obj(es) =>
      var ks := Sort(Keys(es));
      SortedKeys(es);
      var fs := NormEntries(es, ks);
      forall i | 0 <= i < |ks| ensures fs[i].key == ks[i] && KeysAscend(fs[i].value) {
        NormEntriesAt(es, ks, i);
        NormAscends(es[IndexOf(es, ks[i])].value);
      }
      assert Keys(fs) == ks;
      AscendingIsSorted(ks);
    case _ =>
  }

  /** The members of canonical text, read in the order they are written, have ascending keys in every object. */
  lemma PrintedKeysAscend(v: Json, before: Text, c: Tree, after: Text)
    requires WellFormed(v) && IsDocument(Canonicalize(v), before, c, after)
    ensures KeysAscend(Meaning(c))
  {
    RoundTrip(v);
    DocumentParses(Canonicalize(v), before, c, after);
    NormAscends(v);
  }
}
