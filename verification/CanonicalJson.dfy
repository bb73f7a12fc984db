/**
 * Canonical JSON: object entries sorted by key at every depth, then serialised. Two requests
 * hash alike exactly when they are the same JSON value up to key order.
 */
module CanonicalJson {
  import opened Prelude

  /** Strings are sequences of UTF-16 code units, lone surrogates included. */
  type CodeUnit = c: int | 0 <= c < 0x10000
  type Text = seq<CodeUnit>

  const QUOTE: CodeUnit := 0x22
  const COMMA: CodeUnit := 0x2C
  const COLON: CodeUnit := 0x3A
  const BACKSLASH: CodeUnit := 0x5C
  const OPEN_ARRAY: CodeUnit := 0x5B
  const CLOSE_ARRAY: CodeUnit := 0x5D
  const OPEN_OBJECT: CodeUnit := 0x7B
  const CLOSE_OBJECT: CodeUnit := 0x7D

  predicate IsDigit(c: CodeUnit) { 0x30 <= c <= 0x39 }

  /** Digits, plus, minus, point and the exponent letter. */
  predicate IsNumeral(c: CodeUnit) {
    IsDigit(c) || c == 0x2B || c == 0x2D || c == 0x2E || c == 0x65
  }

  predicate IsNumberText(t: Text) {
    t != [] && (IsDigit(t[0]) || t[0] == 0x2D) && forall c :: c in t ==> IsNumeral(c)
  }

  /**
   * A finite number, identified by the text that number-to-string conversion gives it
   * (distinct for distinct numbers; both zeros read "0").
   */
  type NumberText = t: Text | IsNumberText(t) witness [0x30]

  /** A JavaScript value as the canonicaliser sees it; the last two constructors make it throw. */
  datatype Value =
    | Null
    | Bool(b: bool)
    | Num(n: NumberText)
    | Str(s: Text)
    | Arr(items: Items)
    | Obj(fields: Fields)
    | NonFinite
    | NotJson

  datatype Items = NoItem | Item(head: Value, tail: Items)
  datatype Fields = NoField | Field(key: Text, value: Value, rest: Fields)

  /** The entries of an object as a finite map. */
  function Entries(fs: Fields): map<Text, Value> {
    match fs
    case NoField => map[]
    case Field(k, v, rest) => Entries(rest)[k := v]
  }

  predicate DistinctKeys(fs: Fields) {
    match fs
    case NoField => true
    case Field(k, _, rest) => k !in Entries(rest) && DistinctKeys(rest)
  }

  /** Every object has distinct keys, which is what a JavaScript object is. */
  predicate WellFormed(v: Value) {
    match v
    case Arr(items) => WellFormedItems(items)
    case Obj(fields) => DistinctKeys(fields) && WellFormedFields(fields)
    case _ => true
  }

  predicate WellFormedItems(items: Items) {
    items.Item? ==> WellFormed(items.head) && WellFormedItems(items.tail)
  }

  predicate WellFormedFields(fs: Fields) {
    fs.Field? ==> WellFormed(fs.value) && WellFormedFields(fs.rest)
  }

  /** Whether canonicalisation gets through without throwing. */
  predicate Accepts(v: Value) {
    match v
    case NonFinite => false
    case NotJson => false
    case Arr(items) => AcceptsItems(items)
    case Obj(fields) => AcceptsFields(fields)
    case _ => true
  }

  predicate AcceptsItems(items: Items) {
    items.Item? ==> Accepts(items.head) && AcceptsItems(items.tail)
  }

  predicate AcceptsFields(fs: Fields) {
    fs.Field? ==> Accepts(fs.value) && AcceptsFields(fs.rest)
  }

  // ---- key order ----------------------------------------------------------

  /** `left < right` on strings: by code units. */
  predicate LexLess(a: Text, b: Text) {
    b != [] && (a == [] || a[0] < b[0] || (a[0] == b[0] && LexLess(a[1..], b[1..])))
  }

  datatype Order = ByCodeUnit | ByNumber

  /** Array-index keys carry no leading zero, so number order is length first, then code units. */
  predicate Less(order: Order, a: Text, b: Text) {
    match order
    case ByCodeUnit => LexLess(a, b)
    case ByNumber => |a| < |b| || (|a| == |b| && LexLess(a, b))
  }

  /** The text of 2^32 - 2, the largest array index. */
  const MAX_INDEX: Text := [0x34, 0x32, 0x39, 0x34, 0x39, 0x36, 0x37, 0x32, 0x39, 0x34]

  /** Keys that an object lists before all others, in ascending number order. */
  predicate IsIndexKey(k: Text) {
    k != [] && (forall c :: c in k ==> IsDigit(c)) && (k[0] != 0x30 || |k| == 1) &&
    (k == MAX_INDEX || Less(ByNumber, k, MAX_INDEX))
  }

  lemma {:induction false} LexTotal(a: Text, b: Text)
    ensures LexLess(a, b) || LexLess(b, a) || a == b
    ensures !(LexLess(a, b) && LexLess(b, a)) && !LexLess(a, a)
  {
    if a != [] && b != [] && a[0] == b[0] {
      LexTotal(a[1..], b[1..]);
    }
    if a != [] {
      LexTotal(a[1..], a[1..]);
    }
  }

  lemma {:induction false} LexTransitive(a: Text, b: Text, c: Text)
    requires LexLess(a, b) && LexLess(b, c)
    ensures LexLess(a, c)
  {
    if a != [] && a[0] == b[0] == c[0] {
      LexTransitive(a[1..], b[1..], c[1..]);
    }
  }

  lemma LessTotal(order: Order, a: Text, b: Text)
    ensures Less(order, a, b) || Less(order, b, a) || a == b
    ensures !(Less(order, a, b) && Less(order, b, a)) && !Less(order, a, a)
  {
    LexTotal(a, b);
    LexTotal(a, a);
  }

  lemma LessTransitive(order: Order, a: Text, b: Text, c: Text)
    requires Less(order, a, b) && Less(order, b, c)
    ensures Less(order, a, c)
  {
    if LexLess(a, b) && LexLess(b, c) {
      LexTransitive(a, b, c);
    }
  }

  // ---- sorting entries ----------------------------------------------------

  function Insert(order: Order, k: Text, v: Value, fs: Fields): Fields {
    match fs
    case NoField => Field(k, v, NoField)
    case Field(k', v', rest) =>
      if Less(order, k, k') then Field(k, v, fs) else Field(k', v', Insert(order, k, v, rest))
  }

  function Sort(order: Order, fs: Fields): Fields {
    match fs
    case NoField => NoField
    case Field(k, v, rest) => Insert(order, k, v, Sort(order, rest))
  }

  function Filter(index: bool, fs: Fields): Fields {
    match fs
    case NoField => NoField
    case Field(k, v, rest) => if IsIndexKey(k) == index then Field(k, v, Filter(index, rest)) else Filter(index, rest)
  }

  function Append(a: Fields, b: Fields): Fields {
    match a
    case NoField => b
    case Field(k, v, rest) => Field(k, v, Append(rest, b))
  }

  /** Rebuilding an object lists its index keys first, ascending, then the rest in insertion order. */
  function FromEntries(fs: Fields): Fields {
    Append(Sort(ByNumber, Filter(true, fs)), Filter(false, fs))
  }

  function Arrange(fs: Fields): Fields {
    FromEntries(Sort(ByCodeUnit, fs))
  }

  predicate Sorted(order: Order, fs: Fields) {
    fs.Field? ==> (forall k :: k in Entries(fs.rest) ==> Less(order, fs.key, k)) && Sorted(order, fs.rest)
  }

  lemma {:induction false} InsertSorts(order: Order, k: Text, v: Value, fs: Fields)
    requires k !in Entries(fs) && Sorted(order, fs)
    ensures Entries(Insert(order, k, v, fs)) == Entries(fs)[k := v]
    ensures Sorted(order, Insert(order, k, v, fs))
  {
    match fs
    case NoField =>
    case Field(k', v', rest) =>
      LessTotal(order, k, k');
      if Less(order, k, k') {
        forall x | x in Entries(rest) ensures Less(order, k, x) {
          LessTransitive(order, k, k', x);
        }
      } else {
        InsertSorts(order, k, v, rest);
      }
  }

  lemma {:induction false} SortSorts(order: Order, fs: Fields)
    requires DistinctKeys(fs)
    ensures Entries(Sort(order, fs)) == Entries(fs) && Sorted(order, Sort(order, fs))
  {
    if fs.Field? {
      SortSorts(order, fs.rest);
      InsertSorts(order, fs.key, fs.value, Sort(order, fs.rest));
    }
  }

  lemma {:induction false} SortedIsDistinct(order: Order, fs: Fields)
    requires Sorted(order, fs)
    ensures DistinctKeys(fs)
  {
    if fs.Field? {
      LessTotal(order, fs.key, fs.key);
      SortedIsDistinct(order, fs.rest);
    }
  }

  lemma EntriesOfNonEmpty(fs: Fields)
    ensures fs.Field? ==> Entries(fs) != map[]
  {
    assert fs.Field? ==> fs.key in Entries(fs);
  }

  /** A sorted listing is determined by its entries. */
  lemma {:induction false} SortedIsUnique(order: Order, a: Fields, b: Fields)
    requires Sorted(order, a) && Sorted(order, b) && Entries(a) == Entries(b)
    ensures a == b
  {
    SortedIsDistinct(order, a);
    SortedIsDistinct(order, b);
    if a.Field? {
      assert a.key in Entries(b);
      assert b.key in Entries(a);
      LessTotal(order, a.key, b.key);
      assert Entries(a.rest) == Entries(a) - {a.key};
      assert Entries(b.rest) == Entries(b) - {b.key};
      SortedIsUnique(order, a.rest, b.rest);
    } else {
      EntriesOfNonEmpty(b);
    }
  }

  lemma {:induction false} FilterSelects(order: Order, index: bool, fs: Fields)
    requires Sorted(order, fs)
    ensures Sorted(order, Filter(index, fs))
    ensures Entries(Filter(index, fs)) == map k | k in Entries(fs) && IsIndexKey(k) == index :: Entries(fs)[k]
  {
    SortedIsDistinct(order, fs);
    if fs.Field? {
      FilterSelects(order, index, fs.rest);
    }
  }

  lemma {:induction false} AppendJoins(a: Fields, b: Fields)
    requires DistinctKeys(a) && DistinctKeys(b) && Entries(a).Keys !! Entries(b).Keys
    ensures DistinctKeys(Append(a, b)) && Entries(Append(a, b)) == Entries(a) + Entries(b)
  {
    if a.Field? {
      assert Entries(a.rest).Keys <= Entries(a).Keys;
      AppendJoins(a.rest, b);
    }
  }

  lemma FromEntriesKeepsEntries(sorted: Fields)
    requires Sorted(ByCodeUnit, sorted)
    ensures DistinctKeys(FromEntries(sorted)) && Entries(FromEntries(sorted)) == Entries(sorted)
  {
    var indexed, others := Filter(true, sorted), Filter(false, sorted);
    FilterSelects(ByCodeUnit, true, sorted);
    FilterSelects(ByCodeUnit, false, sorted);
    SortedIsDistinct(ByCodeUnit, indexed);
    SortedIsDistinct(ByCodeUnit, others);
    SortSorts(ByNumber, indexed);
    SortedIsDistinct(ByNumber, Sort(ByNumber, indexed));
    AppendJoins(Sort(ByNumber, indexed), others);
    PartsMakeTheWhole(Entries(sorted), Entries(indexed), Entries(others));
  }

  lemma PartsMakeTheWhole(all: map<Text, Value>, indexed: map<Text, Value>, others: map<Text, Value>)
    requires indexed == map k | k in all && IsIndexKey(k) == true :: all[k]
    requires others == map k | k in all && IsIndexKey(k) == false :: all[k]
    ensures indexed + others == all && indexed.Keys !! others.Keys
  {
    assert forall k :: k in all <==> k in indexed || k in others;
  }

  /** Arranging loses, invents and changes no entry. */
  lemma ArrangeKeepsEntries(fs: Fields)
    requires DistinctKeys(fs)
    ensures DistinctKeys(Arrange(fs)) && Entries(Arrange(fs)) == Entries(fs)
  {
    SortSorts(ByCodeUnit, fs);
    FromEntriesKeepsEntries(Sort(ByCodeUnit, fs));
  }

  /** The arranged listing depends on the entries alone. */
  lemma ArrangeIsCanonical(a: Fields, b: Fields)
    requires DistinctKeys(a) && DistinctKeys(b) && Entries(a) == Entries(b)
    ensures Arrange(a) == Arrange(b)
  {
    SortSorts(ByCodeUnit, a);
    SortSorts(ByCodeUnit, b);
    SortedIsUnique(ByCodeUnit, Sort(ByCodeUnit, a), Sort(ByCodeUnit, b));
  }

  // ---- canonicalize -------------------------------------------------------

  /** Sorting looks at keys only, so mapping the values first is the same as mapping them last. */
  function Canonicalize(v: Value): Value {
    match v
    case Arr(items) => Arr(CanonicalizeItems(items))
    case Obj(fields) => Obj(Arrange(CanonicalizeFields(fields)))
    case _ => v
  }

  function CanonicalizeItems(items: Items): Items {
    match items
    case NoItem => NoItem
    case Item(head, tail) => Item(Canonicalize(head), CanonicalizeItems(tail))
  }

  function CanonicalizeFields(fs: Fields): Fields {
    match fs
    case NoField => NoField
    case Field(k, v, rest) => Field(k, Canonicalize(v), CanonicalizeFields(rest))
  }

  lemma {:induction false} CanonicalEntries(fs: Fields)
    requires DistinctKeys(fs)
    ensures DistinctKeys(CanonicalizeFields(fs))
    ensures Entries(CanonicalizeFields(fs)) == map k | k in Entries(fs) :: Canonicalize(Entries(fs)[k])
  {
    if fs.Field? {
      CanonicalEntries(fs.rest);
    }
  }

  /** Equality up to the order of object keys, at every depth. */
  predicate Equivalent(a: Value, b: Value) {
    match a
    case Arr(items) => b.Arr? && EquivalentItems(items, b.items)
    case Obj(fields) => b.Obj? && Entries(fields).Keys == Entries(b.fields).Keys && EquivalentFields(fields, b.fields)
    case _ => a == b
  }

  predicate EquivalentItems(a: Items, b: Items) {
    match a
    case NoItem => b.NoItem?
    case Item(head, tail) => b.Item? && Equivalent(head, b.head) && EquivalentItems(tail, b.tail)
  }

  predicate EquivalentFields(a: Fields, b: Fields) {
    match a
    case NoField => true
    case Field(k, v, rest) => k in Entries(b) && Equivalent(v, Entries(b)[k]) && EquivalentFields(rest, b)
  }

  lemma {:induction false} FieldsWellFormed(fs: Fields, k: Text)
    requires WellFormedFields(fs) && k in Entries(fs)
    ensures WellFormed(Entries(fs)[k])
  {
    if k != fs.key {
      FieldsWellFormed(fs.rest, k);
    }
  }

  ghost predicate Matches(a: Fields, b: Fields, k: Text) {
    k in Entries(a) ==> k in Entries(b) && Canonicalize(Entries(a)[k]) == Canonicalize(Entries(b)[k])
  }

  lemma SameImages(a: Fields, b: Fields, ca: map<Text, Value>, cb: map<Text, Value>)
    requires ca == map k | k in Entries(a) :: Canonicalize(Entries(a)[k])
    requires cb == map k | k in Entries(b) :: Canonicalize(Entries(b)[k])
    requires Entries(a).Keys == Entries(b).Keys && forall k :: Matches(a, b, k)
    ensures ca == cb
  {
    forall k | k in ca ensures k in cb && ca[k] == cb[k] {
      assert Matches(a, b, k);
    }
  }

  lemma SameImagesBack(a: Fields, b: Fields, c: map<Text, Value>)
    requires c == map k | k in Entries(a) :: Canonicalize(Entries(a)[k])
    requires c == map k | k in Entries(b) :: Canonicalize(Entries(b)[k])
    ensures Entries(a).Keys == Entries(b).Keys && forall k :: Matches(a, b, k)
  {
    assert Entries(a).Keys == c.Keys == Entries(b).Keys;
    forall k ensures Matches(a, b, k) {
      assert k in c ==> c[k] == c[k];
    }
  }

  /** The canonical entries of two objects agree exactly when the keys do and every value does. */
  lemma EntriesAgree(a: Fields, b: Fields)
    requires DistinctKeys(a) && DistinctKeys(b)
    ensures Entries(CanonicalizeFields(a)) == Entries(CanonicalizeFields(b))
      <==> Entries(a).Keys == Entries(b).Keys && forall k :: Matches(a, b, k)
  {
    CanonicalEntries(a);
    CanonicalEntries(b);
    var ca, cb := Entries(CanonicalizeFields(a)), Entries(CanonicalizeFields(b));
    if Entries(a).Keys == Entries(b).Keys && forall k :: Matches(a, b, k) {
      SameImages(a, b, ca, cb);
    }
    if ca == cb {
      SameImagesBack(a, b, ca);
    }
  }

  /** Canonical forms agree exactly on equivalent values. */
  lemma {:induction false} CanonicalIffEquivalent(a: Value, b: Value)
    requires WellFormed(a) && WellFormed(b)
    ensures Canonicalize(a) == Canonicalize(b) <==> Equivalent(a, b)
    decreases a
  {
    match a
    case Arr(items) =>
      if b.Arr? { CanonicalItemsIffEquivalent(items, b.items); }
    case Obj(fields) =>
      if b.Obj? {
        CanonicalEntries(fields);
        CanonicalEntries(b.fields);
        var ca, cb := CanonicalizeFields(fields), CanonicalizeFields(b.fields);
        ArrangeKeepsEntries(ca);
        ArrangeKeepsEntries(cb);
        if Entries(ca) == Entries(cb) { ArrangeIsCanonical(ca, cb); }
        assert Arrange(ca) == Arrange(cb) <==> Entries(ca) == Entries(cb);
        EntriesAgree(fields, b.fields);
        CanonicalFieldsIffEquivalent(fields, b.fields);
      }
    case _ =>
  }

  lemma {:induction false} CanonicalItemsIffEquivalent(a: Items, b: Items)
    requires WellFormedItems(a) && WellFormedItems(b)
    ensures CanonicalizeItems(a) == CanonicalizeItems(b) <==> EquivalentItems(a, b)
    decreases a
  {
    if a.Item? && b.Item? {
      CanonicalIffEquivalent(a.head, b.head);
      CanonicalItemsIffEquivalent(a.tail, b.tail);
    }
  }

  lemma {:induction false} CanonicalFieldsIffEquivalent(a: Fields, b: Fields)
    requires WellFormedFields(a) && WellFormedFields(b) && DistinctKeys(a) && DistinctKeys(b)
    ensures EquivalentFields(a, b) <==> forall k :: Matches(a, b, k)
    decreases a
  {
    if a.Field? {
      CanonicalFieldsIffEquivalent(a.rest, b);
      if a.key in Entries(b) {
        FieldsWellFormed(b, a.key);
        CanonicalIffEquivalent(a.value, Entries(b)[a.key]);
      }
      MatchesSplit(a, b);
    }
  }

  lemma MatchesSplit(a: Fields, b: Fields)
    requires a.Field? && DistinctKeys(a)
    ensures (forall k :: Matches(a, b, k)) <==> Matches(a, b, a.key) && forall k :: Matches(a.rest, b, k)
  {
    if forall k :: Matches(a, b, k) {
      forall k ensures Matches(a.rest, b, k) {
        assert Matches(a, b, k);
      }
    }
    if Matches(a, b, a.key) && forall k :: Matches(a.rest, b, k) {
      forall k ensures Matches(a, b, k) {
        assert Matches(a.rest, b, k);
      }
    }
  }

  /** Canonicalising a canonical value changes nothing. */
  lemma {:induction false} CanonicalizeIsIdempotent(v: Value)
    requires WellFormed(v)
    ensures Canonicalize(Canonicalize(v)) == Canonicalize(v)
    decreases v
  {
    match v
    case Arr(items) => ItemsIdempotent(items);
    case Obj(fields) =>
      CanonicalEntries(fields);
      var once := CanonicalizeFields(fields);
      ArrangeKeepsEntries(once);
      CanonicalEntries(Arrange(once));
      ArrangeKeepsEntries(CanonicalizeFields(Arrange(once)));
      FieldsIdempotent(fields);
      assert Entries(CanonicalizeFields(Arrange(once))) == Entries(once);
      ArrangeIsCanonical(CanonicalizeFields(Arrange(once)), once);
    case _ =>
  }

  lemma {:induction false} ItemsIdempotent(items: Items)
    requires WellFormedItems(items)
    ensures CanonicalizeItems(CanonicalizeItems(items)) == CanonicalizeItems(items)
    decreases items
  {
    if items.Item? {
      CanonicalizeIsIdempotent(items.head);
      ItemsIdempotent(items.tail);
    }
  }

  lemma {:induction false} FieldsIdempotent(fs: Fields)
    requires WellFormedFields(fs) && DistinctKeys(fs)
    ensures forall k :: k in Entries(fs) ==> Canonicalize(Canonicalize(Entries(fs)[k])) == Canonicalize(Entries(fs)[k])
    decreases fs
  {
    if fs.Field? {
      CanonicalizeIsIdempotent(fs.value);
      FieldsIdempotent(fs.rest);
    }
  }

  // ---- serialisation ------------------------------------------------------

  predicate IsLead(c: CodeUnit) { 0xD800 <= c < 0xDC00 }
  predicate IsTrail(c: CodeUnit) { 0xDC00 <= c < 0xE000 }

  function HexDigit(d: int): CodeUnit
    requires 0 <= d < 16
  {
    if d < 10 then 0x30 + d else 0x57 + d
  }

  /** The letter of a two-character escape, if the unit has one. */
  function ShortEscape(c: CodeUnit): Option<CodeUnit> {
    if c == 0x08 then Some(0x62)
    else if c == 0x09 then Some(0x74)
    else if c == 0x0A then Some(0x6E)
    else if c == 0x0C then Some(0x66)
    else if c == 0x0D then Some(0x72)
    else if c == QUOTE || c == BACKSLASH then Some(c)
    else None
  }

  /** One unit of a string outside a surrogate pair; the rest of the output follows in `k`. */
  function EscapeUnit(c: CodeUnit, k: Text): Text {
    if ShortEscape(c).Some? then [BACKSLASH, ShortEscape(c).value] + k
    else if c < 0x20 || IsLead(c) || IsTrail(c) then
      [BACKSLASH, 0x75, HexDigit(c / 16 / 16 / 16), HexDigit(c / 16 / 16 % 16), HexDigit(c / 16 % 16),
        HexDigit(c % 16)] + k
    else [c] + k
  }

  function EscapeTo(s: Text, k: Text): Text
    decreases |s|
  {
    if s == [] then k
    else if |s| >= 2 && IsLead(s[0]) && IsTrail(s[1]) then [s[0], s[1]] + EscapeTo(s[2..], k)
    else EscapeUnit(s[0], EscapeTo(s[1..], k))
  }

  function QuoteTo(s: Text, k: Text): Text {
    [QUOTE] + EscapeTo(s, [QUOTE] + k)
  }

  /** The serialisation of a value, followed by `k`. */
  function WriteTo(v: Value, k: Text): Text {
    match v
    case Null => [0x6E, 0x75, 0x6C, 0x6C] + k
    case Bool(true) => [0x74, 0x72, 0x75, 0x65] + k
    case Bool(false) => [0x66, 0x61, 0x6C, 0x73, 0x65] + k
    case Num(n) => n + k
    case Str(s) => QuoteTo(s, k)
    case Arr(NoItem) => [OPEN_ARRAY, CLOSE_ARRAY] + k
    case Arr(Item(head, tail)) => [OPEN_ARRAY] + WriteTo(head, WriteItems(tail, k))
    case Obj(NoField) => [OPEN_OBJECT, CLOSE_OBJECT] + k
    case Obj(Field(key, value, rest)) =>
      [OPEN_OBJECT] + QuoteTo(key, [COLON] + WriteTo(value, WriteFields(rest, k)))
    case NonFinite => k
    case NotJson => k
  }

  function WriteItems(items: Items, k: Text): Text {
    match items
    case NoItem => [CLOSE_ARRAY] + k
    case Item(head, tail) => [COMMA] + WriteTo(head, WriteItems(tail, k))
  }

  function WriteFields(fs: Fields, k: Text): Text {
    match fs
    case NoField => [CLOSE_OBJECT] + k
    case Field(key, value, rest) => [COMMA] + QuoteTo(key, [COLON] + WriteTo(value, WriteFields(rest, k)))
  }

  /** `canonicalJson`: the serialised canonical form, or nothing when a value is not JSON. */
  function CanonicalText(v: Value): Option<Text> {
    if Accepts(v) then Some(WriteTo(Canonicalize(v), [])) else None
  }

  /** What may follow a value inside a document: nothing, a separator or a closing bracket. */
  predicate Follows(k: Text) {
    k == [] || k[0] in [COMMA, CLOSE_ARRAY, CLOSE_OBJECT]
  }

  // ---- reading the output back --------------------------------------------

  function HexValue(h: CodeUnit): int {
    if h < 0x3A then h - 0x30 else h - 0x57
  }

  function LetterValue(l: CodeUnit): CodeUnit {
    if l == 0x62 then 0x08
    else if l == 0x74 then 0x09
    else if l == 0x6E then 0x0A
    else if l == 0x66 then 0x0C
    else if l == 0x72 then 0x0D
    else l
  }

  /** The units the next piece of a quoted string stands for, and how far it reaches; nothing at the closing quote. */
  function NextPiece(x: Text): Option<(seq<int>, Text)> {
    if x == [] || x[0] == QUOTE then None
    else if x[0] == BACKSLASH then
      if |x| >= 6 && x[1] == 0x75 then
        Some(([((HexValue(x[2]) * 16 + HexValue(x[3])) * 16 + HexValue(x[4])) * 16 + HexValue(x[5])], x[6..]))
      else if |x| >= 2 then Some(([LetterValue(x[1])], x[2..])) else None
    else if IsLead(x[0]) && |x| >= 2 then Some(([x[0], x[1]], x[2..]))
    else Some(([x[0]], x[1..]))
  }

  /** How many units of the string the first piece covers: two for a surrogate pair. */
  function PieceLength(s: Text): nat
    requires s != []
  {
    if |s| >= 2 && IsLead(s[0]) && IsTrail(s[1]) then 2 else 1
  }

  lemma PieceReadsBack(s: Text, k: Text)
    requires s != []
    ensures NextPiece(EscapeTo(s, k)) == Some((s[..PieceLength(s)], EscapeTo(s[PieceLength(s)..], k)))
  {
    var rest := EscapeTo(s[PieceLength(s)..], k);
    if PieceLength(s) == 2 {
      assert EscapeTo(s, k)[2..] == rest;
      assert s[..2] == [s[0], s[1]];
    } else if ShortEscape(s[0]).Some? {
      assert EscapeTo(s, k)[2..] == rest;
      assert LetterValue(ShortEscape(s[0]).value) == s[0];
      assert s[..1] == [s[0]];
    } else if s[0] < 0x20 || IsLead(s[0]) || IsTrail(s[0]) {
      var x := EscapeTo(s, k);
      assert x[6..] == rest;
      HexReadsBack(s[0]);
      assert s[..1] == [s[0]];
    } else {
      assert EscapeTo(s, k)[1..] == rest;
      assert s[..1] == [s[0]];
    }
  }

  lemma HexReadsBack(c: CodeUnit)
    ensures ((HexValue(HexDigit(c / 16 / 16 / 16)) * 16 + HexValue(HexDigit(c / 16 / 16 % 16))) * 16
      + HexValue(HexDigit(c / 16 % 16))) * 16 + HexValue(HexDigit(c % 16)) == c
  {
  }

  /** Quoted strings can be told apart, and end where they end, whatever follows. */
  lemma {:induction false} QuoteIsInjective(a: Text, b: Text, s: Text, t: Text)
    requires EscapeTo(a, [QUOTE] + s) == EscapeTo(b, [QUOTE] + t)
    ensures a == b && s == t
    decreases |a|
  {
    if a == [] || b == [] {
      if a != [] { PieceReadsBack(a, [QUOTE] + s); }
      if b != [] { PieceReadsBack(b, [QUOTE] + t); }
      assert s == ([QUOTE] + s)[1..] && t == ([QUOTE] + t)[1..];
    } else {
      PieceReadsBack(a, [QUOTE] + s);
      PieceReadsBack(b, [QUOTE] + t);
      var n := PieceLength(a);
      assert n == |a[..n]| == |b[..PieceLength(b)]|;
      QuoteIsInjective(a[n..], b[n..], s, t);
      assert a == a[..n] + a[n..] && b == b[..n] + b[n..];
    }
  }

  lemma SplitsAlike(a: Text, b: Text, s: Text, t: Text)
    requires a + s == b + t && |a| == |b|
    ensures a == b && s == t
  {
    assert (a + s)[..|a|] == a && (b + t)[..|b|] == b;
    assert (a + s)[|a|..] == s && (b + t)[|b|..] == t;
  }

  function NumeralPrefix(x: Text): nat {
    if x == [] || !IsNumeral(x[0]) then 0 else 1 + NumeralPrefix(x[1..])
  }

  lemma {:induction false} NumberEnds(n: Text, k: Text)
    requires Follows(k) && forall c :: c in n ==> IsNumeral(c)
    ensures NumeralPrefix(n + k) == |n|
  {
    if n == [] {
      assert n + k == k;
    } else {
      assert (n + k)[1..] == n[1..] + k;
      NumberEnds(n[1..], k);
    }
  }

  /** A number text ends at the first unit that is no numeral. */
  lemma NumbersSplitAlike(a: NumberText, b: NumberText, s: Text, t: Text)
    requires a + s == b + t && Follows(s) && Follows(t)
    ensures a == b && s == t
  {
    NumberEnds(a, s);
    NumberEnds(b, t);
    SplitsAlike(a, b, s, t);
  }

  /** The unit a serialised value starts with tells its kind. */
  function FirstUnit(v: Value): CodeUnit {
    match v
    case Null => 0x6E
    case Bool(b) => if b then 0x74 else 0x66
    case Num(n) => n[0]
    case Str(_) => QUOTE
    case Arr(_) => OPEN_ARRAY
    case Obj(_) => OPEN_OBJECT
    case _ => 0
  }

  lemma StartsWithFirstUnit(v: Value, k: Text)
    requires Accepts(v)
    ensures WriteTo(v, k) != [] && WriteTo(v, k)[0] == FirstUnit(v)
    ensures FirstUnit(v) !in [COMMA, CLOSE_ARRAY, CLOSE_OBJECT]
  {
  }

  /** Distinct values have distinct texts, and a text shows where its value ends. */
  lemma {:induction false} WriteIsInjective(a: Value, b: Value, s: Text, t: Text)
    requires Accepts(a) && Accepts(b) && Follows(s) && Follows(t)
    requires WriteTo(a, s) == WriteTo(b, t)
    ensures a == b && s == t
    decreases a
  {
    StartsWithFirstUnit(a, s);
    StartsWithFirstUnit(b, t);
    match a
    case Null => SplitsAlike([0x6E, 0x75, 0x6C, 0x6C], [0x6E, 0x75, 0x6C, 0x6C], s, t);
    case Bool(true) => SplitsAlike([0x74, 0x72, 0x75, 0x65], [0x74, 0x72, 0x75, 0x65], s, t);
    case Bool(false) => SplitsAlike([0x66, 0x61, 0x6C, 0x73, 0x65], [0x66, 0x61, 0x6C, 0x73, 0x65], s, t);
    case Num(n) => NumbersSplitAlike(n, b.n, s, t);
    case Str(x) => QuotesSplitAlike(x, b.s, s, t);
    case Arr(items) => ArraysSplitAlike(items, b.items, s, t);
    case Obj(fields) => ObjectsSplitAlike(fields, b.fields, s, t);
  }

  lemma QuotesSplitAlike(a: Text, b: Text, s: Text, t: Text)
    requires QuoteTo(a, s) == QuoteTo(b, t)
    ensures a == b && s == t
  {
    SplitsAlike([QUOTE], [QUOTE], EscapeTo(a, [QUOTE] + s), EscapeTo(b, [QUOTE] + t));
    QuoteIsInjective(a, b, s, t);
  }

  lemma {:induction false} ArraysSplitAlike(a: Items, b: Items, s: Text, t: Text)
    requires AcceptsItems(a) && AcceptsItems(b) && Follows(s) && Follows(t)
    requires WriteTo(Arr(a), s) == WriteTo(Arr(b), t)
    ensures a == b && s == t
    decreases a
  {
    if a.Item? { StartsWithFirstUnit(a.head, WriteItems(a.tail, s)); }
    if b.Item? { StartsWithFirstUnit(b.head, WriteItems(b.tail, t)); }
    assert WriteTo(Arr(a), s)[1] == WriteTo(Arr(b), t)[1];
    if a.NoItem? && b.NoItem? {
      SplitsAlike([OPEN_ARRAY, CLOSE_ARRAY], [OPEN_ARRAY, CLOSE_ARRAY], s, t);
    } else if a.Item? && b.Item? {
      SplitsAlike([OPEN_ARRAY], [OPEN_ARRAY], WriteTo(a.head, WriteItems(a.tail, s)),
        WriteTo(b.head, WriteItems(b.tail, t)));
      WriteIsInjective(a.head, b.head, WriteItems(a.tail, s), WriteItems(b.tail, t));
      ItemsSplitAlike(a.tail, b.tail, s, t);
    }
  }

  lemma {:induction false} ItemsSplitAlike(a: Items, b: Items, s: Text, t: Text)
    requires AcceptsItems(a) && AcceptsItems(b) && Follows(s) && Follows(t)
    requires WriteItems(a, s) == WriteItems(b, t)
    ensures a == b && s == t
    decreases a
  {
    assert WriteItems(a, s)[0] == WriteItems(b, t)[0];
    if a.NoItem? && b.NoItem? {
      SplitsAlike([CLOSE_ARRAY], [CLOSE_ARRAY], s, t);
    } else if a.Item? && b.Item? {
      SplitsAlike([COMMA], [COMMA], WriteTo(a.head, WriteItems(a.tail, s)), WriteTo(b.head, WriteItems(b.tail, t)));
      WriteIsInjective(a.head, b.head, WriteItems(a.tail, s), WriteItems(b.tail, t));
      ItemsSplitAlike(a.tail, b.tail, s, t);
    }
  }

  lemma {:induction false} ObjectsSplitAlike(a: Fields, b: Fields, s: Text, t: Text)
    requires AcceptsFields(a) && AcceptsFields(b) && Follows(s) && Follows(t)
    requires WriteTo(Obj(a), s) == WriteTo(Obj(b), t)
    ensures a == b && s == t
    decreases a
  {
    assert WriteTo(Obj(a), s)[1] == WriteTo(Obj(b), t)[1];
    if a.NoField? && b.NoField? {
      SplitsAlike([OPEN_OBJECT, CLOSE_OBJECT], [OPEN_OBJECT, CLOSE_OBJECT], s, t);
    } else if a.Field? && b.Field? {
      SplitsAlike([OPEN_OBJECT], [OPEN_OBJECT], WriteEntry(a, s), WriteEntry(b, t));
      EntriesSplitAlike(a, b, s, t);
    }
  }

  /** A non-empty field list without the bracket or comma in front. */
  function WriteEntry(fs: Fields, k: Text): Text
    requires fs.Field?
  {
    QuoteTo(fs.key, [COLON] + WriteTo(fs.value, WriteFields(fs.rest, k)))
  }

  lemma {:induction false} EntriesSplitAlike(a: Fields, b: Fields, s: Text, t: Text)
    requires a.Field? && b.Field?
    requires AcceptsFields(a) && AcceptsFields(b) && Follows(s) && Follows(t)
    requires WriteEntry(a, s) == WriteEntry(b, t)
    ensures a == b && s == t
    decreases a, 0
  {
    var x, y := WriteTo(a.value, WriteFields(a.rest, s)), WriteTo(b.value, WriteFields(b.rest, t));
    QuotesSplitAlike(a.key, b.key, [COLON] + x, [COLON] + y);
    SplitsAlike([COLON], [COLON], x, y);
    WriteIsInjective(a.value, b.value, WriteFields(a.rest, s), WriteFields(b.rest, t));
    FieldsSplitAlike(a.rest, b.rest, s, t);
  }

  lemma {:induction false} FieldsSplitAlike(a: Fields, b: Fields, s: Text, t: Text)
    requires AcceptsFields(a) && AcceptsFields(b) && Follows(s) && Follows(t)
    requires WriteFields(a, s) == WriteFields(b, t)
    ensures a == b && s == t
    decreases a, 1
  {
    assert WriteFields(a, s)[0] == WriteFields(b, t)[0];
    if a.NoField? && b.NoField? {
      SplitsAlike([CLOSE_OBJECT], [CLOSE_OBJECT], s, t);
    } else if a.Field? && b.Field? {
      SplitsAlike([COMMA], [COMMA], WriteEntry(a, s), WriteEntry(b, t));
      EntriesSplitAlike(a, b, s, t);
    }
  }

  // ---- main results -------------------------------------------------------

  /** Canonicalisation throws on exactly the values it threw on before. */
  lemma {:induction false} CanonicalIsAccepted(v: Value)
    requires WellFormed(v)
    ensures Accepts(Canonicalize(v)) <==> Accepts(v)
    decreases v
  {
    match v
    case Arr(items) => CanonicalItemsAccepted(items);
    case Obj(fields) =>
      CanonicalEntries(fields);
      CanonicalFieldsAccepted(fields);
      ArrangeKeepsEntries(CanonicalizeFields(fields));
      var once := CanonicalizeFields(fields);
      AcceptsByEntries(once);
      AcceptsByEntries(Arrange(once));
      assert forall k :: AcceptedAt(once, k) == AcceptedAt(Arrange(once), k);
    case _ =>
  }

  lemma {:induction false} CanonicalItemsAccepted(items: Items)
    requires WellFormedItems(items)
    ensures AcceptsItems(CanonicalizeItems(items)) <==> AcceptsItems(items)
    decreases items
  {
    if items.Item? {
      CanonicalIsAccepted(items.head);
      CanonicalItemsAccepted(items.tail);
    }
  }

  lemma {:induction false} CanonicalFieldsAccepted(fs: Fields)
    requires WellFormedFields(fs)
    ensures AcceptsFields(CanonicalizeFields(fs)) <==> AcceptsFields(fs)
    decreases fs
  {
    if fs.Field? {
      CanonicalIsAccepted(fs.value);
      CanonicalFieldsAccepted(fs.rest);
    }
  }

  predicate AcceptedAt(fs: Fields, k: Text) {
    k in Entries(fs) ==> Accepts(Entries(fs)[k])
  }

  lemma {:induction false} AcceptsByEntries(fs: Fields)
    requires DistinctKeys(fs)
    ensures AcceptsFields(fs) <==> forall k :: AcceptedAt(fs, k)
  {
    if fs.Field? {
      AcceptsByEntries(fs.rest);
      assert AcceptedAt(fs, fs.key) == Accepts(fs.value);
      assert forall k :: k != fs.key ==> AcceptedAt(fs, k) == AcceptedAt(fs.rest, k);
      assert AcceptedAt(fs.rest, fs.key);
    }
  }

  /** The canonical text identifies a JSON value up to key order, and nothing more. */
  lemma CanonicalTextIdentifies(a: Value, b: Value)
    requires WellFormed(a) && WellFormed(b) && Accepts(a) && Accepts(b)
    ensures CanonicalText(a) == CanonicalText(b) <==> Equivalent(a, b)
  {
    CanonicalIsAccepted(a);
    CanonicalIsAccepted(b);
    CanonicalIffEquivalent(a, b);
    if CanonicalText(a) == CanonicalText(b) {
      WriteIsInjective(Canonicalize(a), Canonicalize(b), [], []);
    }
  }

  /** With a hash that never collides, two requests hash alike exactly when they are equivalent. */
  lemma RequestHashIdentifies<D(!new)>(hash: Text -> D, a: Value, b: Value)
    requires forall x, y :: hash(x) == hash(y) ==> x == y
    requires WellFormed(a) && WellFormed(b) && Accepts(a) && Accepts(b)
    ensures hash(CanonicalText(a).value) == hash(CanonicalText(b).value) <==> Equivalent(a, b)
  {
    CanonicalTextIdentifies(a, b);
  }
}
