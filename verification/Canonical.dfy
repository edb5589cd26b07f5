/** The canonical printer of shared/json.ts, and what makes its output a canonical form. */
module Canonical {
  import opened Units
  import opened JsonValues
  import opened Sequences
  import opened Grammar
  import opened StrictParser
  import opened ParserLanguage

  // ----- strings and numbers

  function HexEscape(u: Unit): (t: Text)
    ensures |t| == 6
  {
    [BACKSLASH, LOWER_U, HexDigit(u / 0x1000), HexDigit(u / 0x100 % 0x10), HexDigit(u / 0x10 % 0x10), HexDigit(u % 0x10)]
  }

  /** How JSON.stringify writes one code unit that is not part of a surrogate pair. */
  function QuoteUnit(u: Unit): Text {
    if u == 0x08 then [BACKSLASH, 0x62]
    else if u == 0x09 then [BACKSLASH, 0x74]
    else if u == 0x0A then [BACKSLASH, 0x6E]
    else if u == 0x0C then [BACKSLASH, 0x66]
    else if u == 0x0D then [BACKSLASH, 0x72]
    else if u == QUOTE || u == BACKSLASH then [BACKSLASH, u]
    else if u < 0x20 || IsHigh(u) || IsLow(u) then HexEscape(u)
    else [u]
  }

  function QuoteBody(t: Text): Text {
    if t == [] then []
    else if |t| >= 2 && IsHigh(t[0]) && IsLow(t[1]) then t[..2] + QuoteBody(t[2..])
    else QuoteUnit(t[0]) + QuoteBody(t[1..])
  }

  /** JSON.stringify of a string. */
  function Stringify(t: Text): Text {
    [QUOTE] + QuoteBody(t) + [QUOTE]
  }

  /** JSON.stringify of a safe integer. */
  function IntText(n: SafeInt): Text {
    var m: int := n;
    if m < 0 then [MINUS] + NatText(-m) else NatText(m)
  }

  // ----- sorting keys

  function Keys(es: seq<Entry>): seq<Text> {
    seq(|es|, i requires 0 <= i < |es| => es[i].key)
  }

  function Insert(k: Text, ks: seq<Text>): (r: seq<Text>)
    ensures forall x :: x in r <==> x in ks || x == k
  {
    if ks == [] || Less(k, ks[0]) then [k] + ks else [ks[0]] + Insert(k, ks[1..])
  }

  /** Array.prototype.sort with the default comparison. */
  function Sort(ks: seq<Text>): (r: seq<Text>)
    ensures forall x :: x in r <==> x in ks
  {
    if ks == [] then [] else Insert(ks[0], Sort(ks[1..]))
  }

  predicate StrictlySorted(ks: seq<Text>) {
    forall i, j :: 0 <= i < j < |ks| ==> Less(ks[i], ks[j])
  }

  lemma {:induction false} InsertSorted(k: Text, ks: seq<Text>)
    requires StrictlySorted(ks) && k !in ks
    ensures StrictlySorted(Insert(k, ks)) && |Insert(k, ks)| == |ks| + 1
  {
    var r := Insert(k, ks);
    if ks == [] {
    } else if Less(k, ks[0]) {
      forall j | 1 <= j < |ks| ensures Less(k, ks[j]) { LessTransitive(k, ks[0], ks[j]); }
    } else {
      LessConnected(k, ks[0]);
      InsertSorted(k, ks[1..]);
      var tail := Insert(k, ks[1..]);
      forall j | 0 <= j < |tail| ensures Less(ks[0], tail[j]) {
        assert tail[j] in tail;
        if tail[j] != k {
          var i :| 0 <= i < |ks[1..]| && ks[1..][i] == tail[j];
          assert ks[i + 1] == tail[j];
        }
      }
    }
  }

  lemma {:induction false} SortSorts(ks: seq<Text>)
    requires forall i, j :: 0 <= i < j < |ks| ==> ks[i] != ks[j]
    ensures StrictlySorted(Sort(ks)) && |Sort(ks)| == |ks|
    ensures forall i :: 0 < i < |ks| ==> Before(Sort(ks)[i - 1], Sort(ks)[i])
  {
    hide Before;
    if ks != [] {
      SortSorts(ks[1..]);
      InsertSorted(ks[0], Sort(ks[1..]));
    }
    forall i | 0 < i < |Sort(ks)| ensures Before(Sort(ks)[i - 1], Sort(ks)[i]) { LessExact(Sort(ks)[i - 1], Sort(ks)[i]); }
  }

  /** A set of keys has one sorted listing. */
  lemma {:induction false} SortedUnique(a: seq<Text>, b: seq<Text>)
    requires StrictlySorted(a) && StrictlySorted(b) && |a| == |b| && forall x :: x in a <==> x in b
    ensures a == b
  {
    if a != [] {
      FirstIsLeast(a, b);
      FirstIsLeast(b, a);
      if a[0] != b[0] {
        LessTransitive(a[0], b[0], a[0]);
        LessIrreflexive(a[0]);
      }
      forall x ensures x in a[1..] <==> x in b[1..] {
        TailMembers(a, x);
        TailMembers(b, x);
      }
      SortedUnique(a[1..], b[1..]);
      assert a == [a[0]] + a[1..] && b == [b[0]] + b[1..];
    }
  }

  lemma FirstIsLeast(a: seq<Text>, b: seq<Text>)
    requires a != [] && StrictlySorted(b) && a[0] in b
    ensures b != [] && (a[0] == b[0] || Less(b[0], a[0]))
  {
  }

  lemma TailMembers(a: seq<Text>, x: Text)
    requires a != [] && StrictlySorted(a)
    ensures x in a[1..] <==> x in a && x != a[0]
  {
    LessIrreflexive(a[0]);
    assert a == [a[0]] + a[1..];
    assert forall i :: 0 <= i < |a[1..]| ==> a[1..][i] == a[i + 1];
  }

  // ----- the printer

  /** Array.prototype.join with a comma. */
  function Join(ts: seq<Text>): Text {
    if ts == [] then [] else if |ts| == 1 then ts[0] else ts[0] + [COMMA] + Join(ts[1..])
  }

  function Canonicalize(v: Json): Text
    decreases v, 0
  {
    match v
    case Null => NULL
    case Bool(b) => if b then TRUE else FALSE
    case Num(n) => IntText(n)
    case NegZero => [ZERO]
    case Str(s) => Stringify(s)
    case Arr(items) => [LBRACKET] + Join(CanonicalItems(items)) + [RBRACKET]
    case Obj(es) => [LBRACE] + Join(CanonicalPairs(es, Sort(Keys(es)))) + [RBRACE]
  }

  function CanonicalItems(items: seq<Json>): (ts: seq<Text>)
    ensures |ts| == |items|
    decreases items, 0
  {
    if items == [] then [] else [Canonicalize(items[0])] + CanonicalItems(items[1..])
  }

  /** "key":value for each of the given keys. */
  function CanonicalPairs(es: seq<Entry>, ks: seq<Text>): (ts: seq<Text>)
    requires forall k :: k in ks ==> HasKey(es, k)
    ensures |ts| == |ks|
    decreases es, |ks|
  {
    if ks == [] then []
    else [Stringify(ks[0]) + [COLON] + Canonicalize(es[IndexOf(es, ks[0])].value)] + CanonicalPairs(es, ks[1..])
  }

  // ----- normal forms

  /** Keys sorted at every level and negative zero replaced by zero. */
  function Norm(v: Json): Json
    decreases v, 0
  {
    match v
    case NegZero => Num(0)
    case Arr(items) => Arr(NormItems(items))
    case Obj(es) => Obj(NormEntries(es, Sort(Keys(es))))
    case _ => v
  }

  function NormItems(items: seq<Json>): (vs: seq<Json>)
    ensures |vs| == |items|
    decreases items, 0
  {
    if items == [] then [] else [Norm(items[0])] + NormItems(items[1..])
  }

  function NormEntries(es: seq<Entry>, ks: seq<Text>): (r: seq<Entry>)
    requires forall k :: k in ks ==> HasKey(es, k)
    ensures |r| == |ks|
    decreases es, |ks|
  {
    if ks == [] then []
    else [Entry(ks[0], Norm(es[IndexOf(es, ks[0])].value))] + NormEntries(es, ks[1..])
  }

  // ----- the canonical text as a syntax tree

  function PieceOf(u: Unit): (p: Piece)
    ensures ValidPiece(p) && SpellPiece(p) == QuoteUnit(u)
  {
    if u == 0x08 then Escape(0x62)
    else if u == 0x09 then Escape(0x74)
    else if u == 0x0A then Escape(0x6E)
    else if u == 0x0C then Escape(0x66)
    else if u == 0x0D then Escape(0x72)
    else if u == QUOTE || u == BACKSLASH then Escape(u)
    else if u < 0x20 || IsHigh(u) || IsLow(u) then
      Hex(HexDigit(u / 0x1000), HexDigit(u / 0x100 % 0x10), HexDigit(u / 0x10 % 0x10), HexDigit(u % 0x10))
    else Raw(u)
  }

  lemma HexDigits(u: Unit)
    ensures u == u / 0x1000 * 0x1000 + u / 0x100 % 0x10 * 0x100 + u / 0x10 % 0x10 * 0x10 + u % 0x10
  {
    assert u / 0x10 / 0x10 == u / 0x100 && u / 0x100 / 0x10 == u / 0x1000;
  }

  lemma PieceOfMeaning(u: Unit)
    ensures PieceMeaning(PieceOf(u)) == u
  {
    HexDigits(u);
  }

  function Pieces(t: Text): (ps: seq<Piece>)
    ensures ValidPieces(ps)
  {
    if t == [] then []
    else if |t| >= 2 && IsHigh(t[0]) && IsLow(t[1]) then [Raw(t[0])] + ([Raw(t[1])] + Pieces(t[2..]))
    else [PieceOf(t[0])] + Pieces(t[1..])
  }

  lemma {:induction false} PiecesOfMeaning(t: Text)
    ensures PiecesMeaning(Pieces(t)) == t
  {
    if t == [] {
    } else if |t| >= 2 && IsHigh(t[0]) && IsLow(t[1]) {
      PiecesOfMeaning(t[2..]);
    } else {
      PieceOfMeaning(t[0]);
      PiecesOfMeaning(t[1..]);
    }
  }

  lemma SpellFirst(p: Piece, ps: seq<Piece>, rest: Text)
    ensures SpellPieces([p] + ps, rest) == SpellPiece(p) + SpellPieces(ps, rest)
  {
    assert ([p] + ps)[1..] == ps;
  }

  lemma {:induction false} PiecesSpell(t: Text, rest: Text)
    ensures SpellPieces(Pieces(t), rest) == QuoteBody(t) + ([QUOTE] + rest)
  {
    var close := [QUOTE] + rest;
    if t == [] {
      assert [] + close == close;
    } else if |t| >= 2 && IsHigh(t[0]) && IsLow(t[1]) {
      PiecesSpell(t[2..], rest);
      SpellFirst(Raw(t[0]), [Raw(t[1])] + Pieces(t[2..]), rest);
      SpellFirst(Raw(t[1]), Pieces(t[2..]), rest);
      Assoc([t[0]], [t[1]], QuoteBody(t[2..]) + close);
      assert [t[0]] + [t[1]] == t[..2];
      Assoc(t[..2], QuoteBody(t[2..]), close);
    } else {
      PiecesSpell(t[1..], rest);
      SpellFirst(PieceOf(t[0]), Pieces(t[1..]), rest);
      Assoc(QuoteUnit(t[0]), QuoteBody(t[1..]), close);
    }
  }

  lemma StringifySpells(t: Text, rest: Text)
    ensures [QUOTE] + SpellPieces(Pieces(t), rest) == Stringify(t) + rest
  {
    PiecesSpell(t, rest);
  }

  function NumberTree(n: SafeInt): Tree {
    var m: int := n;
    if m < 0 then Number(true, NatText(-m)) else Number(false, NatText(m))
  }

  function CanonicalTree(v: Json): Tree
    decreases v, 0
  {
    match v
    case Null => NullWord
    case Bool(b) => BoolWord(b)
    case Num(n) => NumberTree(n)
    case NegZero => Number(false, [ZERO])
    case Str(s) => Quoted(Pieces(s))
    case Arr(items) => Array([], TreeItems(items))
    case Obj(es) => Object([], TreeMembers(es, Sort(Keys(es))))
  }

  function TreeItems(items: seq<Json>): (r: seq<Item>)
    ensures |r| == |items|
    decreases items, 0
  {
    if items == [] then [] else [Item([], CanonicalTree(items[0]), [])] + TreeItems(items[1..])
  }

  function TreeMembers(es: seq<Entry>, ks: seq<Text>): (r: seq<Member>)
    requires forall k :: k in ks ==> HasKey(es, k)
    ensures |r| == |ks|
    decreases es, |ks|
  {
    if ks == [] then []
    else [Member([], Pieces(ks[0]), [], [], CanonicalTree(es[IndexOf(es, ks[0])].value), [])] + TreeMembers(es, ks[1..])
  }

  lemma NumberSpells(n: SafeInt, rest: Text)
    ensures Spell(NumberTree(n), rest) == IntText(n) + rest
  {
    var m: int := n;
    if m < 0 { Assoc([MINUS], NatText(-m), rest); } else { assert [] + (NatText(m) + rest) == NatText(m) + rest; }
  }

  lemma Bracket(open: Unit, inner: Text, close: Unit, rest: Text)
    ensures [open] + (inner + [close] + rest) == [open] + inner + [close] + rest
  {
  }

  lemma {:induction false} TreeSpells(v: Json, rest: Text)
    ensures Spell(CanonicalTree(v), rest) == Canonicalize(v) + rest
    decreases v, 0
  {
    match v
    case Null =>
    case Bool(_) =>
    case Num(n) => NumberSpells(n, rest);
    case NegZero => assert [] + ([ZERO] + rest) == [ZERO] + rest;
    case Str(s) => StringifySpells(s, rest);
    case Arr(items) =>
      var inner := Join(CanonicalItems(items));
      Bracket(LBRACKET, inner, RBRACKET, rest);
      if items == [] { assert [] + ([RBRACKET] + rest) == [] + [RBRACKET] + rest; } else { ItemsSpell(items, rest); }
    case Obj(es) =>
      var ks := Sort(Keys(es));
      var inner := Join(CanonicalPairs(es, ks));
      Bracket(LBRACE, inner, RBRACE, rest);
      if ks == [] { assert [] + ([RBRACE] + rest) == [] + [RBRACE] + rest; } else { MembersSpell(es, ks, rest); }
  }

  lemma JoinCons(t: Text, ts: seq<Text>, close: Text)
    requires ts != []
    ensures Join([t] + ts) + close == t + ([COMMA] + (Join(ts) + close))
  {
    assert ([t] + ts)[1..] == ts;
  }

  lemma {:induction false} ItemsSpell(items: seq<Json>, rest: Text)
    requires items != []
    ensures SpellItems(TreeItems(items), rest) == Join(CanonicalItems(items)) + [RBRACKET] + rest
    decreases items, 0
  {
    var more := TreeItems(items[1..]);
    var ts := CanonicalItems(items[1..]);
    var close := [RBRACKET] + rest;
    assert TreeItems(items)[1..] == more;
    var tail := if |items| == 1 then close else [COMMA] + SpellItems(more, rest);
    assert [] + tail == tail;
    TreeSpells(items[0], tail);
    Assoc(Join(CanonicalItems(items)), [RBRACKET], rest);
    if |items| > 1 {
      ItemsSpell(items[1..], rest);
      Assoc(Join(ts), [RBRACKET], rest);
      JoinCons(Canonicalize(items[0]), ts, close);
    }
    assert [] + (Canonicalize(items[0]) + tail) == Canonicalize(items[0]) + tail;
  }

  lemma {:induction false} MembersSpell(es: seq<Entry>, ks: seq<Text>, rest: Text)
    requires ks != [] && forall k :: k in ks ==> HasKey(es, k)
    ensures SpellMembers(TreeMembers(es, ks), rest) == Join(CanonicalPairs(es, ks)) + [RBRACE] + rest
    decreases es, |ks|
  {
    var v := es[IndexOf(es, ks[0])].value;
    var m := Member([], Pieces(ks[0]), [], [], CanonicalTree(v), []);
    var more := TreeMembers(es, ks[1..]);
    var ts := CanonicalPairs(es, ks[1..]);
    var close := [RBRACE] + rest;
    assert TreeMembers(es, ks) == [m] + more;
    Assoc(Join(CanonicalPairs(es, ks)), [RBRACE], rest);
    var tail := if |ks| == 1 then close else [COMMA] + SpellMembers(more, rest);
    TreeSpells(v, tail);
    MemberTextPlain(m, tail, Canonicalize(v), ks[0]);
    var t := Stringify(ks[0]) + [COLON] + Canonicalize(v);
    if |ks| == 1 {
      SpellOne(m, tail);
      assert tail[1..] == rest && [m] + more == [m];
    } else {
      MembersSpell(es, ks[1..], rest);
      Assoc(Join(ts), [RBRACE], rest);
      JoinCons(t, ts, close);
      assert tail[1..] == SpellMembers(more, rest);
      SpellMore(m, more, tail, rest);
    }
  }

  lemma MemberTextPlain(m: Member, tail: Text, value: Text, k: Text)
    requires m.before == [] && m.beforeColon == [] && m.afterColon == [] && m.after == []
    requires Spell(m.value, tail) == value + tail && m.key == Pieces(k)
    ensures MemberText(m, tail) == Stringify(k) + [COLON] + value + tail
  {
    var after := [COLON] + (value + tail);
    assert [] + tail == tail && [] + (value + tail) == value + tail && [] + after == after;
    StringifySpells(k, after);
    assert [] + (Stringify(k) + after) == Stringify(k) + after;
    Colon(Stringify(k), value, tail);
  }

  lemma Colon(k: Text, value: Text, tail: Text)
    ensures k + ([COLON] + (value + tail)) == k + [COLON] + value + tail
  {
  }

  // ----- validity and meaning of the tree

  lemma NumberTreeMeaning(n: SafeInt)
    ensures Valid(NumberTree(n)) && Meaning(NumberTree(n)) == Num(n)
  {
    var m: int := n;
    assert IsSafe(m);
    if m < 0 { NatTextValue(-m); } else { NatTextValue(m); }
  }

  lemma {:induction false} TreeMeaning(v: Json)
    requires WellFormed(v)
    ensures Valid(CanonicalTree(v)) && Meaning(CanonicalTree(v)) == Norm(v)
    decreases v, 0
  {
    match v
    case Num(n) => NumberTreeMeaning(n);
    case NegZero => NatTextValue(0);
    case Str(s) => PiecesOfMeaning(s);
    case Arr(items) => ItemsTreeMeaning(items);
    case Obj(es) =>
      SortSorts(Keys(es));
      var ks := Sort(Keys(es));
      MembersTreeMeaning(es, ks);
      forall i, j | 0 <= i < j < |ks| ensures ks[i] != ks[j] { LessIrreflexive(ks[i]); }
    case _ =>
  }

  lemma {:induction false} ItemsTreeMeaning(items: seq<Json>)
    requires forall i :: 0 <= i < |items| ==> WellFormed(items[i])
    ensures ValidItems(TreeItems(items)) && ItemsMeaning(TreeItems(items)) == NormItems(items)
    decreases items, 0
  {
    if items != [] {
      TreeMeaning(items[0]);
      ItemsTreeMeaning(items[1..]);
      assert TreeItems(items)[1..] == TreeItems(items[1..]);
    }
  }

  lemma {:induction false} MembersTreeMeaning(es: seq<Entry>, ks: seq<Text>)
    requires forall k :: k in ks ==> HasKey(es, k)
    requires forall i :: 0 <= i < |es| ==> WellFormed(es[i].value)
    ensures ValidMembers(TreeMembers(es, ks)) && MembersMeaning(TreeMembers(es, ks)) == NormEntries(es, ks)
    ensures forall i :: 0 <= i < |ks| ==> PiecesMeaning(TreeMembers(es, ks)[i].key) == ks[i]
    decreases es, |ks|
  {
    if ks != [] {
      TreeMeaning(es[IndexOf(es, ks[0])].value);
      PiecesOfMeaning(ks[0]);
      MembersTreeMeaning(es, ks[1..]);
      MembersCons(TreeMembers(es, ks)[0], TreeMembers(es, ks[1..]));
    }
  }

  // ----- round trip

  /** Canonical text, followed by anything that cannot prolong a number, reads back as the normal form. */
  lemma CanonicalTextParses(v: Json, rest: Text)
    requires WellFormed(v) && EndsNumber(rest)
    ensures ParseValue(Canonicalize(v) + rest) == Ok(Norm(v), rest)
  {
    TreeMeaning(v);
    TreeSpells(v, rest);
    ValueComplete([], CanonicalTree(v), rest);
    assert [] + Spell(CanonicalTree(v), rest) == Spell(CanonicalTree(v), rest);
  }

  lemma RoundTrip(v: Json)
    requires WellFormed(v)
    ensures Parse(Canonicalize(v)) == Success(Norm(v))
    ensures Equivalent(v, Norm(v))
  {
    CanonicalTextParses(v, []);
    assert Canonicalize(v) + [] == Canonicalize(v);
    NormEquivalent(v);
  }

  // ----- entries by key

  lemma {:induction false} IndexUnique(es: seq<Entry>, i: nat)
    requires DistinctKeys(es) && i < |es|
    ensures HasKey(es, es[i].key) && IndexOf(es, es[i].key) == i
  {
    assert HasKey(es, es[i].key);
  }

  lemma {:induction false} NormEntriesAt(es: seq<Entry>, ks: seq<Text>, i: nat)
    requires (forall k :: k in ks ==> HasKey(es, k)) && i < |ks|
    ensures NormEntries(es, ks)[i] == Entry(ks[i], Norm(es[IndexOf(es, ks[i])].value))
    decreases i
  {
    if i > 0 { NormEntriesAt(es, ks[1..], i - 1); }
  }

  lemma {:induction false} NormItemsAt(items: seq<Json>, i: nat)
    requires i < |items|
    ensures NormItems(items)[i] == Norm(items[i])
    decreases i
  {
    if i > 0 { NormItemsAt(items[1..], i - 1); }
  }

  lemma SortedKeys(es: seq<Entry>)
    requires DistinctKeys(es)
    ensures StrictlySorted(Sort(Keys(es))) && |Sort(Keys(es))| == |es|
    ensures forall k :: k in Sort(Keys(es)) <==> HasKey(es, k)
  {
    SortSorts(Keys(es));
    forall k ensures k in Keys(es) <==> HasKey(es, k) {
      if HasKey(es, k) { assert Keys(es)[IndexOf(es, k)] == k; }
    }
  }

  /** The normal form has the keys of the original, each with the normal form of its value. */
  lemma NormGet(es: seq<Entry>, k: Text)
    requires DistinctKeys(es)
    ensures var fs := NormEntries(es, Sort(Keys(es)));
            DistinctKeys(fs) && (HasKey(fs, k) <==> HasKey(es, k)) &&
            (HasKey(es, k) ==> Get(fs, k) == Some(Norm(Get(es, k).value)))
  {
    var ks := Sort(Keys(es));
    var fs := NormEntries(es, ks);
    SortedKeys(es);
    forall i | 0 <= i < |ks| ensures fs[i] == Entry(ks[i], Norm(es[IndexOf(es, ks[i])].value)) {
      NormEntriesAt(es, ks, i);
    }
    forall i, j | 0 <= i < j < |fs| ensures fs[i].key != fs[j].key { LessIrreflexive(ks[i]); }
    if HasKey(es, k) {
      var i :| 0 <= i < |ks| && ks[i] == k;
      IndexUnique(fs, i);
    }
  }

  lemma {:induction false} NormEquivalent(v: Json)
    requires WellFormed(v)
    ensures Equivalent(v, Norm(v)) && WellFormed(Norm(v))
  {
    match v
    case Arr(items) =>
      forall i | 0 <= i < |items| ensures Equivalent(items[i], NormItems(items)[i]) && WellFormed(NormItems(items)[i]) {
        NormItemsAt(items, i);
        NormEquivalent(items[i]);
      }
    case Obj(es) =>
      var ks := Sort(Keys(es));
      var fs := NormEntries(es, ks);
      SortedKeys(es);
      forall i | 0 <= i < |es| ensures HasKey(fs, es[i].key) { NormGet(es, es[i].key); }
      forall i, j | 0 <= i < |es| && 0 <= j < |fs| && es[i].key == fs[j].key ensures Equivalent(es[i].value, fs[j].value) {
        NormEntriesAt(es, ks, j);
        IndexUnique(es, i);
        NormEquivalent(es[i].value);
      }
      forall j | 0 <= j < |fs| ensures WellFormed(fs[j].value) {
        NormEntriesAt(es, ks, j);
        NormEquivalent(es[IndexOf(es, ks[j])].value);
      }
      NormGet(es, []);
    case _ =>
  }

  // ----- a complete invariant

  lemma {:induction false} NormComplete(v: Json, w: Json)
    requires WellFormed(v) && WellFormed(w) && Norm(v) == Norm(w)
    ensures Equivalent(v, w)
  {
    match v
    case Arr(items) =>
      assert w.Arr?;
      forall i | 0 <= i < |items| ensures Equivalent(items[i], w.items[i]) {
        NormItemsAt(items, i);
        NormItemsAt(w.items, i);
        NormComplete(items[i], w.items[i]);
      }
    case Obj(es) =>
      assert w.Obj?;
      var fs := w.entries;
      SortedKeys(es);
      SortedKeys(fs);
      forall i | 0 <= i < |es| ensures HasKey(fs, es[i].key) {
        NormGet(es, es[i].key);
        NormGet(fs, es[i].key);
        IndexUnique(es, i);
      }
      forall i, j | 0 <= i < |es| && 0 <= j < |fs| && es[i].key == fs[j].key ensures Equivalent(es[i].value, fs[j].value) {
        NormGet(es, es[i].key);
        NormGet(fs, es[i].key);
        IndexUnique(es, i);
        IndexUnique(fs, j);
        NormComplete(es[i].value, fs[j].value);
      }
    case _ =>
  }

  lemma {:induction false} EquivalentPrintsSame(v: Json, w: Json)
    requires WellFormed(v) && WellFormed(w) && Equivalent(v, w)
    ensures Canonicalize(v) == Canonicalize(w)
    decreases v, 0
  {
    match v
    case Num(_) => NatTextValue(0);
    case NegZero => NatTextValue(0);
    case Arr(items) => ItemsPrintSame(items, w.items);
    case Obj(es) =>
      var fs := w.entries;
      SortedKeys(es);
      SortedKeys(fs);
      SameKeys(es, fs);
      SortedUnique(Sort(Keys(es)), Sort(Keys(fs)));
      PairsPrintSame(es, fs, Sort(Keys(es)));
    case _ =>
  }

  lemma {:induction false} ItemsPrintSame(items: seq<Json>, others: seq<Json>)
    requires |items| == |others|
    requires forall i :: 0 <= i < |items| ==> WellFormed(items[i]) && WellFormed(others[i]) && Equivalent(items[i], others[i])
    ensures CanonicalItems(items) == CanonicalItems(others)
    decreases items, 0
  {
    if items != [] {
      EquivalentPrintsSame(items[0], others[0]);
      ItemsPrintSame(items[1..], others[1..]);
    }
  }

  lemma {:induction false} PairsPrintSame(es: seq<Entry>, fs: seq<Entry>, ks: seq<Text>)
    requires WellFormed(Obj(es)) && WellFormed(Obj(fs)) && Equivalent(Obj(es), Obj(fs))
    requires forall k :: k in ks ==> HasKey(es, k) && HasKey(fs, k)
    ensures CanonicalPairs(es, ks) == CanonicalPairs(fs, ks)
    decreases es, |ks|
  {
    if ks != [] {
      EquivalentPrintsSame(es[IndexOf(es, ks[0])].value, fs[IndexOf(fs, ks[0])].value);
      PairsPrintSame(es, fs, ks[1..]);
    }
  }

  /** As many keys, each of them present on the other side: the key sets are equal. */
  lemma SameKeys(es: seq<Entry>, fs: seq<Entry>)
    requires DistinctKeys(es) && DistinctKeys(fs) && |es| == |fs|
    requires forall i :: 0 <= i < |es| ==> HasKey(fs, es[i].key)
    ensures forall k :: HasKey(es, k) <==> HasKey(fs, k)
  {
    KeyCount(es);
    KeyCount(fs);
    assert KeySet(es) <= KeySet(fs);
    SubsetOfSameSize(KeySet(es), KeySet(fs));
    forall k ensures HasKey(es, k) <==> HasKey(fs, k) {
      assert HasKey(es, k) <==> k in KeySet(es);
      assert HasKey(fs, k) <==> k in KeySet(fs);
    }
  }

  lemma {:induction false} KeyCount(es: seq<Entry>)
    requires DistinctKeys(es)
    ensures |KeySet(es)| == |es|
  {
    if es != [] {
      var front, last := es[..|es| - 1], es[|es| - 1];
      KeyCount(front);
      assert es == front + [last];
      KeysAppend(front, last);
    }
  }

  lemma SubsetOfSameSize<T>(a: set<T>, b: set<T>)
    requires a <= b && |a| == |b|
    ensures a == b
  {
    assert |b - a| == |b| - |a|;
  }

  /** Two values print the same exactly when they are equal up to key order and the sign of zero. */
  lemma CompleteInvariant(v: Json, w: Json)
    requires WellFormed(v) && WellFormed(w)
    ensures Canonicalize(v) == Canonicalize(w) <==> Equivalent(v, w)
  {
    if Canonicalize(v) == Canonicalize(w) {
      RoundTrip(v);
      RoundTrip(w);
      NormComplete(v, w);
    }
    if Equivalent(v, w) { EquivalentPrintsSame(v, w); }
  }

  lemma NormIdempotent(v: Json)
    requires WellFormed(v)
    ensures WellFormed(Norm(v)) && Norm(Norm(v)) == Norm(v) && Canonicalize(Norm(v)) == Canonicalize(v)
  {
    NormEquivalent(v);
    EquivalentPrintsSame(v, Norm(v));
    RoundTrip(v);
    RoundTrip(Norm(v));
  }
}
