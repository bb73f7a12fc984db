/**
 * What the words of `CanonicalJson` mean: which values can be canonicalised, which keys come
 * first, and that the text survives being encoded.
 */
module CanonicalForm {
  import opened Prelude
  import opened CanonicalJson

  // ---- values -------------------------------------------------------------

  /** `w` is `v` or stands anywhere inside it. */
  predicate Within(w: Value, v: Value) {
    w == v ||
    match v
    case Arr(items) => WithinItems(w, items)
    case Obj(fields) => WithinFields(w, fields)
    case _ => false
  }

  predicate WithinItems(w: Value, items: Items) {
    items.Item? && (Within(w, items.head) || WithinItems(w, items.tail))
  }

  predicate WithinFields(w: Value, fs: Fields) {
    fs.Field? && (Within(w, fs.value) || WithinFields(w, fs.rest))
  }

  /** Canonicalising throws exactly when a number without a finite value or a value that is not JSON is inside. */
  lemma {:induction false} AcceptingIsExact(v: Value)
    ensures Accepts(v) <==> !Within(NonFinite, v) && !Within(NotJson, v)
    decreases v
  {
    match v
    case Arr(items) => AcceptingItems(items);
    case Obj(fields) => AcceptingFields(fields);
    case _ =>
  }

  lemma {:induction false} AcceptingItems(items: Items)
    ensures AcceptsItems(items) <==> !WithinItems(NonFinite, items) && !WithinItems(NotJson, items)
    decreases items
  {
    if items.Item? {
      AcceptingIsExact(items.head);
      AcceptingItems(items.tail);
    }
  }

  lemma {:induction false} AcceptingFields(fs: Fields)
    ensures AcceptsFields(fs) <==> !WithinFields(NonFinite, fs) && !WithinFields(NotJson, fs)
    decreases fs
  {
    if fs.Field? {
      AcceptingIsExact(fs.value);
      AcceptingFields(fs.rest);
    }
  }

  /** A value is one that JavaScript can hold exactly when no object inside it repeats a key. */
  lemma {:induction false} WellFormedIsExact(v: Value)
    ensures WellFormed(v) <==> forall fs :: Within(Obj(fs), v) ==> DistinctKeys(fs)
    decreases v
  {
    match v
    case Arr(items) => WellFormedItemsAre(items);
    case Obj(fields) =>
      WellFormedFieldsAre(fields);
      assert Within(Obj(fields), v);
    case _ =>
  }

  lemma {:induction false} WellFormedItemsAre(items: Items)
    ensures WellFormedItems(items) <==> forall fs :: WithinItems(Obj(fs), items) ==> DistinctKeys(fs)
    decreases items
  {
    if items.Item? {
      WellFormedIsExact(items.head);
      WellFormedItemsAre(items.tail);
    }
  }

  lemma {:induction false} WellFormedFieldsAre(fields: Fields)
    ensures WellFormedFields(fields) <==> forall fs :: WithinFields(Obj(fs), fields) ==> DistinctKeys(fs)
    decreases fields
  {
    if fields.Field? {
      WellFormedIsExact(fields.value);
      WellFormedFieldsAre(fields.rest);
    }
  }

  // ---- index keys ---------------------------------------------------------

  /** The shortest decimal text of a number. */
  function Decimal(n: nat): Text {
    if n < 10 then [0x30 + n] else Decimal(n / 10) + [0x30 + n % 10]
  }

  function Pow10(e: nat): (p: nat)
    ensures p >= 1
  {
    if e == 0 then 1 else 10 * Pow10(e - 1)
  }

  predicate Digits(k: Text) { forall i :: 0 <= i < |k| ==> 0x30 <= k[i] <= 0x39 }

  /** Digits without a leading zero. */
  predicate Plain(k: Text) { k != [] && Digits(k) && (k[0] != 0x30 || |k| == 1) }

  /** The number that digits stand for. */
  function Number(k: Text): nat
    requires Digits(k)
  {
    if k == [] then 0 else (k[0] - 0x30) * Pow10(|k| - 1) + Number(k[1..])
  }

  lemma MoreOfTheSame(c: nat, d: nat, p: nat)
    requires c <= d
    ensures c * p <= d * p
  {
    assert d * p == c * p + (d - c) * p;
  }

  lemma {:induction false} NumberIsBelow(k: Text)
    requires Digits(k)
    ensures Number(k) < Pow10(|k|)
    decreases |k|
  {
    if k != [] {
      NumberIsBelow(k[1..]);
      MoreOfTheSame(k[0] - 0x30, 9, Pow10(|k| - 1));
    }
  }

  lemma {:induction false} PowGrows(a: nat, b: nat)
    requires a <= b
    ensures Pow10(a) <= Pow10(b)
    decreases b
  {
    if a < b {
      PowGrows(a, b - 1);
    }
  }

  lemma HigherDigit(c: nat, d: nat, p: nat, x: nat, y: nat)
    requires c < d && x < p
    ensures c * p + x < d * p + y
  {
    MoreOfTheSame(c + 1, d, p);
    assert (c + 1) * p == c * p + p;
  }

  /** Between texts of one length the order of the code units is the order of the numbers. */
  lemma {:induction false} LexOrderIsNumberOrder(a: Text, b: Text)
    requires Digits(a) && Digits(b) && |a| == |b|
    ensures LexLess(a, b) ==> Number(a) < Number(b)
    decreases |a|
  {
    if LexLess(a, b) {
      NumberIsBelow(a[1..]);
      hide Pow10;
      if a[0] == b[0] {
        LexOrderIsNumberOrder(a[1..], b[1..]);
      } else {
        HigherDigit(a[0] - 0x30, b[0] - 0x30, Pow10(|a| - 1), Number(a[1..]), Number(b[1..]));
      }
    }
  }

  lemma LessIsLess(a: Text, b: Text)
    requires Plain(a) && Plain(b) && Less(ByNumber, a, b)
    ensures Number(a) < Number(b)
  {
    if |a| == |b| {
      LexOrderIsNumberOrder(a, b);
    } else {
      NumberIsBelow(a);
      PowGrows(|a|, |b| - 1);
      MoreOfTheSame(1, b[0] - 0x30, Pow10(|b| - 1));
    }
  }

  /** Between plain digit texts the order of `Less` is the order of the numbers. */
  lemma NumberOrderIsExact(a: Text, b: Text)
    requires Plain(a) && Plain(b)
    ensures Less(ByNumber, a, b) <==> Number(a) < Number(b)
    ensures Number(a) == Number(b) ==> a == b
  {
    LessTotal(ByNumber, a, b);
    if Less(ByNumber, a, b) {
      LessIsLess(a, b);
    } else if Less(ByNumber, b, a) {
      LessIsLess(b, a);
    }
  }

  lemma TenTimes(d: nat, p: nat)
    ensures d * (10 * p) == 10 * (d * p)
  {}

  lemma {:induction false} OneMoreDigit(k: Text, d: CodeUnit)
    requires Digits(k) && 0x30 <= d <= 0x39
    ensures Digits(k + [d]) && Number(k + [d]) == 10 * Number(k) + (d - 0x30)
    decreases |k|
  {
    var t := k + [d];
    if k == [] {
      assert t[1..] == [];
    } else {
      OneMoreDigit(k[1..], d);
      assert t[0] == k[0] && t[1..] == k[1..] + [d];
      TenTimes(k[0] - 0x30, Pow10(|k| - 1));
      assert Number(t) == (k[0] - 0x30) * Pow10(|k|) + Number(k[1..] + [d]);
    }
  }

  lemma {:induction false} DecimalReadsBack(n: nat)
    ensures Plain(Decimal(n)) && Number(Decimal(n)) == n
    ensures n > 0 ==> Decimal(n)[0] != 0x30
    decreases n
  {
    if n < 10 {
      assert Decimal(n)[1..] == [];
    } else {
      DecimalReadsBack(n / 10);
      OneMoreDigit(Decimal(n / 10), 0x30 + n % 10);
    }
  }

  lemma LargestIndexText()
    ensures Decimal(4294967294) == MAX_INDEX
  {
    assert Decimal(4294) == [0x34, 0x32, 0x39, 0x34] by {
      assert Decimal(4294) == Decimal(429) + [0x34];
      assert Decimal(429) == Decimal(42) + [0x39];
    }
    hide Decimal;
    LastDigit(42949);
    LastDigit(429496);
    LastDigit(4294967);
    LastDigit(42949672);
    LastDigit(429496729);
    LastDigit(4294967294);
  }

  lemma LastDigit(n: nat)
    requires n >= 10
    ensures Decimal(n) == Decimal(n / 10) + [0x30 + n % 10]
  {}

  lemma LargestIndex()
    ensures Plain(MAX_INDEX) && Number(MAX_INDEX) == 4294967294
  {
    hide Decimal, Number, Plain;
    LargestIndexText();
    DecimalReadsBack(4294967294);
  }

  /** The keys listed first are exactly the decimal texts of the numbers up to 2^32 - 2. */
  lemma IndexKeyIsExact(k: Text)
    ensures IsIndexKey(k) <==> exists n :: 0 <= n <= 4294967294 && k == Decimal(n)
  {
    LargestIndex();
    if IsIndexKey(k) {
      assert forall i :: 0 <= i < |k| ==> k[i] in k && IsDigit(k[i]);
      NumberOrderIsExact(k, MAX_INDEX);
      DecimalReadsBack(Number(k));
      NumberOrderIsExact(k, Decimal(Number(k)));
    }
    forall n | 0 <= n <= 4294967294 && k == Decimal(n) ensures IsIndexKey(k) {
      DecimalReadsBack(n);
      NumberOrderIsExact(k, MAX_INDEX);
      assert forall c :: c in k ==> IsDigit(c);
    }
  }

  /** Among them the smaller number comes first. */
  lemma IndexKeysByNumber(m: nat, n: nat)
    ensures Less(ByNumber, Decimal(m), Decimal(n)) <==> m < n
  {
    DecimalReadsBack(m);
    DecimalReadsBack(n);
    NumberOrderIsExact(Decimal(m), Decimal(n));
  }

  // ---- encoding -----------------------------------------------------------

  predicate Surrogate(c: CodeUnit) { 0xD800 <= c <= 0xDFFF }

  /** Well-formed UTF-16: surrogates stand in pairs, so encoding the text loses nothing. */
  predicate Paired(t: Text)
    decreases |t|
  {
    t == [] ||
    if 0xD800 <= t[0] <= 0xDBFF then |t| >= 2 && 0xDC00 <= t[1] <= 0xDFFF && Paired(t[2..])
    else !Surrogate(t[0]) && Paired(t[1..])
  }

  lemma {:induction false} PlainUnitsInFront(a: Text, k: Text)
    requires Paired(k) && forall i :: 0 <= i < |a| ==> !Surrogate(a[i])
    ensures Paired(a + k)
    decreases |a|
  {
    if a == [] {
      assert a + k == k;
    } else {
      PlainUnitsInFront(a[1..], k);
      assert (a + k)[1..] == a[1..] + k;
    }
  }

  lemma UnitIsPaired(c: CodeUnit, k: Text)
    requires Paired(k)
    ensures Paired(EscapeUnit(c, k))
  {
    var whole := EscapeUnit(c, k);
    var front := whole[..|whole| - |k|];
    assert whole == front + k;
    PlainUnitsInFront(front, k);
  }

  /** A string inside the text is well-formed even when the string itself is not. */
  lemma {:induction false} EscapedIsPaired(s: Text, k: Text)
    requires Paired(k)
    ensures Paired(EscapeTo(s, k))
    decreases |s|
  {
    if s == [] {
    } else if |s| >= 2 && IsLead(s[0]) && IsTrail(s[1]) {
      EscapedIsPaired(s[2..], k);
      assert EscapeTo(s, k)[2..] == EscapeTo(s[2..], k);
    } else {
      EscapedIsPaired(s[1..], k);
      UnitIsPaired(s[0], EscapeTo(s[1..], k));
    }
  }

  lemma QuotedIsPaired(s: Text, k: Text)
    requires Paired(k)
    ensures Paired(QuoteTo(s, k))
  {
    PlainUnitsInFront([QUOTE], k);
    EscapedIsPaired(s, [QUOTE] + k);
    PlainUnitsInFront([QUOTE], EscapeTo(s, [QUOTE] + k));
  }

  lemma {:induction false} WrittenIsPaired(v: Value, k: Text)
    requires Paired(k)
    ensures Paired(WriteTo(v, k))
    decreases v
  {
    match v
    case Null => PlainUnitsInFront([0x6E, 0x75, 0x6C, 0x6C], k);
    case Bool(b) => PlainUnitsInFront(if b then [0x74, 0x72, 0x75, 0x65] else [0x66, 0x61, 0x6C, 0x73, 0x65], k);
    case Num(n) =>
      assert forall c :: c in n ==> IsNumeral(c) && !Surrogate(c);
      PlainUnitsInFront(n, k);
    case Str(s) => QuotedIsPaired(s, k);
    case Arr(NoItem) => PlainUnitsInFront([OPEN_ARRAY, CLOSE_ARRAY], k);
    case Arr(Item(head, tail)) =>
      ItemsArePaired(tail, k);
      WrittenIsPaired(head, WriteItems(tail, k));
      PlainUnitsInFront([OPEN_ARRAY], WriteTo(head, WriteItems(tail, k)));
    case Obj(NoField) => PlainUnitsInFront([OPEN_OBJECT, CLOSE_OBJECT], k);
    case Obj(Field(key, value, rest)) =>
      EntryIsPaired(key, value, rest, k);
      PlainUnitsInFront([OPEN_OBJECT], QuoteTo(key, [COLON] + WriteTo(value, WriteFields(rest, k))));
    case NonFinite =>
    case NotJson =>
  }

  lemma {:induction false} ItemsArePaired(items: Items, k: Text)
    requires Paired(k)
    ensures Paired(WriteItems(items, k))
    decreases items
  {
    match items
    case NoItem => PlainUnitsInFront([CLOSE_ARRAY], k);
    case Item(head, tail) =>
      ItemsArePaired(tail, k);
      WrittenIsPaired(head, WriteItems(tail, k));
      PlainUnitsInFront([COMMA], WriteTo(head, WriteItems(tail, k)));
  }

  lemma {:induction false} FieldsArePaired(fs: Fields, k: Text)
    requires Paired(k)
    ensures Paired(WriteFields(fs, k))
    decreases fs, 1
  {
    match fs
    case NoField => PlainUnitsInFront([CLOSE_OBJECT], k);
    case Field(key, value, rest) =>
      EntryIsPaired(key, value, rest, k);
      PlainUnitsInFront([COMMA], QuoteTo(key, [COLON] + WriteTo(value, WriteFields(rest, k))));
  }

  lemma {:induction false} EntryIsPaired(key: Text, value: Value, rest: Fields, k: Text)
    requires Paired(k)
    ensures Paired(QuoteTo(key, [COLON] + WriteTo(value, WriteFields(rest, k))))
    decreases Field(key, value, rest), 0
  {
    FieldsArePaired(rest, k);
    WrittenIsPaired(value, WriteFields(rest, k));
    PlainUnitsInFront([COLON], WriteTo(value, WriteFields(rest, k)));
    QuotedIsPaired(key, [COLON] + WriteTo(value, WriteFields(rest, k)));
  }

  /** Canonical texts are well-formed, whatever strings they carry: hashing their bytes mixes none of them up. */
  lemma CanonicalTextIsPaired(v: Value)
    ensures CanonicalText(v).Some? ==> Paired(CanonicalText(v).value)
  {
    WrittenIsPaired(Canonicalize(v), []);
  }
}
