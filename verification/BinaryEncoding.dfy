/**
 The Thrift binary protocol encoding: what the bytes of a value are, and how a reader gets past a value whose type
 it knows only from the bytes themselves.

 Integers are big-endian two's complement. A string or binary value is its length and its bytes. A struct is a list of
 fields, each a type byte, an id and a value, ended by a stop byte. A list, set or map starts with its element types
 and its size.
 */
module BinaryEncoding {
  import opened Wrappers

  type Byte = x: int | 0 <= x < 256
  type Bytes = seq<Byte>

  const Stop: Byte := 0
  const TBool: Byte := 2
  const TByte: Byte := 3
  const TDouble: Byte := 4
  const TI16: Byte := 6
  const TI32: Byte := 8
  const TI64: Byte := 10
  const TString: Byte := 11
  const TStruct: Byte := 12
  const TMap: Byte := 13
  const TSet: Byte := 14
  const TList: Byte := 15

  // ---------- integers

  /** The width of a type of fixed width; 0 for every other byte. */
  function Width(t: Byte): nat {
    if t == TBool || t == TByte then 1
    else if t == TI16 then 2
    else if t == TI32 then 4
    else if t == TI64 || t == TDouble then 8
    else 0
  }

  /** The `width` low bytes of an integer in two's complement, the high one first. */
  function BigEndian(n: int, width: nat): (s: Bytes)
    ensures |s| == width
    decreases width
  {
    if width == 0 then [] else BigEndian(n / 0x100, width - 1) + [n % 0x100]
  }

  function Unsigned(s: Bytes): nat {
    if s == [] then 0
    else
      var high := Unsigned(s[..|s| - 1]);
      high * 0x100 + s[|s| - 1]
  }

  function Power(width: nat): (p: int)
    ensures p > 0
  {
    if width == 0 then 1 else 0x100 * Power(width - 1)
  }

  function Signed(s: Bytes): int {
    if 2 * Unsigned(s) < Power(|s|) then Unsigned(s) else Unsigned(s) - Power(|s|)
  }

  /** An integer cut down to 16 bits. */
  function I16(n: int): Bytes {
    BigEndian(n, Width(TI16))
  }

  /** An integer cut down to 32 bits. */
  function I32(n: int): Bytes {
    BigEndian(n, Width(TI32))
  }

  function AsI16(s: Bytes): int
    requires |s| >= 2
  {
    Signed(s[..2])
  }

  function AsI32(s: Bytes): int
    requires |s| >= 4
  {
    Signed(s[..4])
  }

  predicate FitsI16(n: int) {
    -0x8000 <= n < 0x8000
  }

  predicate FitsI32(n: int) {
    -0x8000_0000 <= n < 0x8000_0000
  }

  /** Only the integer modulo 256^width is kept. */
  lemma {:induction false} KeptModulo(n: int, width: nat)
    ensures Unsigned(BigEndian(n, width)) == n % Power(width)
    decreases width
  {
    if width > 0 {
      var p := Power(width - 1);
      assert BigEndian(n, width)[..width - 1] == BigEndian(n / 0x100, width - 1);
      KeptModulo(n / 0x100, width - 1);
      ModuloStep(n, p);
    }
  }

  lemma ModuloStep(n: int, p: int)
    requires p > 0
    ensures n % (0x100 * p) == n / 0x100 % p * 0x100 + n % 0x100
  {
    var high := n / 0x100;
    var q, r := high / p, high % p;
    assert high == q * p + r;
    assert q * (0x100 * p) == 0x100 * (q * p);
    ModuloUnique(n, 0x100 * p, q, r * 0x100 + n % 0x100);
  }

  lemma ModuloUnique(n: int, p: int, q: int, r: int)
    requires 0 <= r < p && n == q * p + r
    ensures n % p == r
  {
    var d, r' := q - n / p, n % p;
    assert n == (n / p) * p + r';
    assert d * p == r' - r;
    if d >= 1 {
      Times(d - 1, p);
    } else if d <= -1 {
      Times(-d - 1, p);
    }
  }

  lemma Times(a: nat, b: nat)
    ensures (a + 1) * b >= b
  {
  }

  /** An integer comes back from its bytes exactly if it fits them. */
  lemma BigEndianRoundTrip(n: int, width: nat)
    ensures Signed(BigEndian(n, width)) == n <==> -Power(width) <= 2 * n < Power(width)
  {
    var p := Power(width);
    KeptModulo(n, width);
    if 0 <= 2 * n < p {
      ModuloUnique(n, p, 0, n);
    } else if -p <= 2 * n < 0 {
      ModuloUnique(n, p, -1, n + p);
    }
  }

  lemma I16RoundTrip(n: int)
    ensures Signed(I16(n)) == n <==> FitsI16(n)
  {
    BigEndianRoundTrip(n, 2);
    assert Power(2) == 0x1_0000;
  }

  lemma I32RoundTrip(n: int)
    ensures Signed(I32(n)) == n <==> FitsI32(n)
  {
    BigEndianRoundTrip(n, 4);
    assert Power(4) == 0x1_0000_0000;
  }

  /** Bytes come back from the integer they are read as, give or take multiples of 256^width. */
  lemma {:induction false} BytesBack(s: Bytes, k: int)
    ensures BigEndian(Unsigned(s) + k * Power(|s|), |s|) == s && Unsigned(s) < Power(|s|)
  {
    if s != [] {
      var before, last := s[..|s| - 1], s[|s| - 1];
      BytesBack(before, k);
      var high := Unsigned(before) + k * Power(|before|);
      Regroup(Unsigned(before), last, k, Power(|before|));
      assert BigEndian(0x100 * high + last, |s|) == BigEndian(high, |before|) + [last];
    }
  }

  lemma Regroup(high: int, last: int, k: int, p: int)
    ensures high * 0x100 + last + k * (0x100 * p) == 0x100 * (high + k * p) + last
  {
  }

  // ---------- the order of the bytes

  lemma QuotientUnique(n: int, p: int, q: int, r: int)
    requires 0 <= r < p && n == q * p + r
    ensures n / p == q
  {
    ModuloUnique(n, p, q, r);
    var d := q - n / p;
    assert n == (n / p) * p + n % p;
    assert d * p == 0;
  }

  lemma DivideTwice(n: int, p: int)
    requires p > 0
    ensures n / 0x100 / p == n / (0x100 * p)
  {
    var high := n / 0x100;
    var q, r := high / p, high % p;
    assert high == q * p + r;
    assert q * (0x100 * p) == 0x100 * (q * p);
    QuotientUnique(n, 0x100 * p, q, r * 0x100 + n % 0x100);
  }

  /** The high byte comes first: the byte at place `i` is the digit to base 256 that has `width - 1 - i` digits below
      it. */
  lemma {:induction false} ByteAt(n: int, width: nat, i: nat)
    requires i < width
    ensures BigEndian(n, width)[i] == n / Power(width - 1 - i) % 0x100
    decreases width
  {
    if i < width - 1 {
      ByteAt(n / 0x100, width - 1, i);
      DivideTwice(n, Power(width - 2 - i));
    }
  }

  /** And so it is read. */
  lemma DigitAt(s: Bytes, i: nat)
    requires i < |s|
    ensures Unsigned(s) / Power(|s| - 1 - i) % 0x100 == s[i]
  {
    BytesBack(s, 0);
    ByteAt(Unsigned(s), |s|, i);
  }

  lemma I16Bytes(n: int)
    ensures I16(n) == [n / 0x100 % 0x100, n % 0x100]
  {
    forall i: nat | i < 2 ensures I16(n)[i] == n / Power(1 - i) % 0x100 {
      ByteAt(n, 2, i);
    }
    assert Power(1) == 0x100;
  }

  lemma I32Bytes(n: int)
    ensures I32(n) == [n / 0x100_0000 % 0x100, n / 0x1_0000 % 0x100, n / 0x100 % 0x100, n % 0x100]
  {
    forall i: nat | i < 4 ensures I32(n)[i] == n / Power(3 - i) % 0x100 {
      ByteAt(n, 4, i);
    }
    assert Power(1) == 0x100 && Power(2) == 0x1_0000 && Power(3) == 0x100_0000;
  }

  /** The type codes, and the widths of the types of fixed width. */
  lemma TypeCodes(v: Value)
    ensures Width(2) == 1 && Width(3) == 1 && Width(4) == 8 && Width(6) == 2 && Width(8) == 4 && Width(10) == 8
    ensures forall t: Byte :: t !in {2, 3, 4, 6, 8, 10} ==> Width(t) == 0
    ensures v.Text? ==> TypeOf(v) == 11
    ensures v.Struct? ==> TypeOf(v) == 12
    ensures v.Map? ==> TypeOf(v) == 13
    ensures v.Sequence? && WellFormed(v) ==> TypeOf(v) == 14 || TypeOf(v) == 15
    ensures v.Fixed? && WellFormed(v) ==> TypeOf(v) in {2, 3, 4, 6, 8, 10}
  {
  }

  lemma SignedBack(s: Bytes)
    ensures BigEndian(Signed(s), |s|) == s
    ensures -Power(|s|) <= 2 * Signed(s) < Power(|s|)
  {
    hide BigEndian, Unsigned, Power;
    BytesBack(s, if 2 * Unsigned(s) < Power(|s|) then 0 else -1);
  }

  lemma I16Back(s: Bytes)
    requires |s| >= 2
    ensures I16(AsI16(s)) == s[..2] && FitsI16(AsI16(s))
  {
    SignedBack(s[..2]);
    assert Power(2) == 0x1_0000;
  }

  lemma I32Back(s: Bytes)
    requires |s| >= 4
    ensures I32(AsI32(s)) == s[..4] && FitsI32(AsI32(s))
  {
    SignedBack(s[..4]);
    assert Power(4) == 0x1_0000_0000;
  }

  // ---------- values

  /** A value of any type. `Fixed` is one of the types of fixed width; booleans and numbers are kept as their bytes.
      `Sequence` is a list or a set. */
  datatype Value =
    | Fixed(ttype: Byte, payload: Bytes)
    | Text(text: Bytes)
    | Struct(fields: Fields)
    | Sequence(ttype: Byte, element: Byte, items: Items)
    | Map(key: Byte, value: Byte, entries: Entries)

  datatype Fields = EndOfFields | Field(id: int, content: Value, others: Fields)
  datatype Items = EndOfItems | Item(item: Value, more: Items)
  datatype Entries = EndOfEntries | Entry(entryKey: Value, entryValue: Value, further: Entries)

  function TypeOf(v: Value): Byte {
    match v
    case Fixed(t, _) => t
    case Text(_) => TString
    case Struct(_) => TStruct
    case Sequence(t, _, _) => t
    case Map(_, _, _) => TMap
  }

  function Size(items: Items): nat {
    match items
    case EndOfItems => 0
    case Item(_, more) => 1 + Size(more)
  }

  function SizeOfEntries(entries: Entries): nat {
    match entries
    case EndOfEntries => 0
    case Entry(_, _, further) => 1 + SizeOfEntries(further)
  }

  /** Lengths and ids fit their widths, and elements have the types their container announces. */
  predicate WellFormed(v: Value) {
    match v
    case Fixed(t, payload) => Width(t) > 0 && |payload| == Width(t)
    case Text(text) => FitsI32(|text|)
    case Struct(fields) => WellFormedFields(fields)
    case Sequence(t, element, items) =>
      (t == TList || t == TSet) && FitsI32(Size(items)) && WellFormedItems(element, items)
    case Map(key, value, entries) => FitsI32(SizeOfEntries(entries)) && WellFormedEntries(key, value, entries)
  }

  predicate WellFormedFields(fs: Fields) {
    match fs
    case EndOfFields => true
    case Field(id, content, others) => FitsI16(id) && WellFormed(content) && WellFormedFields(others)
  }

  predicate WellFormedItems(element: Byte, items: Items)
    decreases items
  {
    match items
    case EndOfItems => true
    case Item(item, more) => TypeOf(item) == element && WellFormed(item) && WellFormedItems(element, more)
  }

  predicate WellFormedEntries(key: Byte, value: Byte, entries: Entries)
    decreases entries
  {
    match entries
    case EndOfEntries => true
    case Entry(k, v, further) =>
      TypeOf(k) == key && WellFormed(k) && TypeOf(v) == value && WellFormed(v) && WellFormedEntries(key, value, further)
  }

  // ---------- writing

  function EncodeText(text: Bytes): Bytes {
    I32(|text|) + text
  }

  function FieldHeader(t: Byte, id: int): Bytes {
    [t] + I16(id)
  }

  function Encode(v: Value): Bytes {
    match v
    case Fixed(_, payload) => payload
    case Text(text) => EncodeText(text)
    case Struct(fields) => EncodeFields(fields)
    case Sequence(_, element, items) => [element] + (I32(Size(items)) + EncodeItems(items))
    case Map(key, value, entries) => [key, value] + (I32(SizeOfEntries(entries)) + EncodeEntries(entries))
  }

  function EncodeFields(fs: Fields): Bytes {
    match fs
    case EndOfFields => [Stop]
    case Field(id, content, others) => FieldHeader(TypeOf(content), id) + (Encode(content) + EncodeFields(others))
  }

  function EncodeItems(items: Items): Bytes {
    match items
    case EndOfItems => []
    case Item(item, more) => Encode(item) + EncodeItems(more)
  }

  function EncodeEntries(entries: Entries): Bytes {
    match entries
    case EndOfEntries => []
    case Entry(k, v, further) => Encode(k) + (Encode(v) + EncodeEntries(further))
  }

  // ---------- reading

  /** What is left after a string, and the string. */
  function DecodeText(s: Bytes): (r: Option<(Bytes, Bytes)>) {
    if |s| < 4 || AsI32(s) < 0 || |s| < 4 + AsI32(s) then None
    else Some((s[4..4 + AsI32(s)], s[4 + AsI32(s)..]))
  }

  /** What is left after a value of type `t`; `None` if the bytes do not hold one. The number of bytes left falls at
      every value, which is why the skipper terminates. */
  function Skip(t: Byte, s: Bytes): (r: Option<Bytes>)
    ensures r.Some? ==> |r.value| < |s|
    decreases |s|, 1
  {
    if Width(t) > 0 then (if |s| < Width(t) then None else Some(s[Width(t)..]))
    else if t == TString then
      (match DecodeText(s)
       case None => None
       case Some((_, rest)) => Some(rest))
    else if t == TStruct then SkipFields(s)
    else if t == TList || t == TSet then
      (if |s| < 5 || AsI32(s[1..]) < 0 then None else SkipItems(s[0], AsI32(s[1..]), s[5..]))
    else if t == TMap then
      (if |s| < 6 || AsI32(s[2..]) < 0 then None else SkipEntries(s[0], s[1], AsI32(s[2..]), s[6..]))
    else None
  }

  function SkipFields(s: Bytes): (r: Option<Bytes>)
    ensures r.Some? ==> |r.value| < |s|
    decreases |s|, 0
  {
    if s == [] then None
    else if s[0] == Stop then Some(s[1..])
    else if |s| < 3 then None
    else
      match Skip(s[0], s[3..])
      case None => None
      case Some(rest) => SkipFields(rest)
  }

  function SkipItems(element: Byte, n: nat, s: Bytes): (r: Option<Bytes>)
    ensures r.Some? ==> |r.value| <= |s|
    decreases |s|, 2, n
  {
    if n == 0 then Some(s)
    else
      match Skip(element, s)
      case None => None
      case Some(rest) => SkipItems(element, n - 1, rest)
  }

  function SkipEntries(key: Byte, value: Byte, n: nat, s: Bytes): (r: Option<Bytes>)
    ensures r.Some? ==> |r.value| <= |s|
    decreases |s|, 2, n
  {
    if n == 0 then Some(s)
    else
      match Skip(key, s)
      case None => None
      case Some(rest) =>
        match Skip(value, rest)
        case None => None
        case Some(rest') => SkipEntries(key, value, n - 1, rest')
  }

  // ---------- a value that was written is skipped exactly

  lemma I32At(n: int, rest: Bytes)
    requires FitsI32(n)
    ensures AsI32(I32(n) + rest) == n && (I32(n) + rest)[4..] == rest
  {
    I32RoundTrip(n);
    assert (I32(n) + rest)[..4] == I32(n);
  }

  /** A string that was written comes back, with what follows it untouched, exactly if its length fits 31 bits. */
  lemma TextRoundTrip(text: Bytes, rest: Bytes)
    ensures DecodeText(EncodeText(text) + rest) == Some((text, rest)) <==> FitsI32(|text|)
  {
    var s := EncodeText(text) + rest;
    assert s == I32(|text|) + (text + rest);
    assert s[..4] == I32(|text|);
    if FitsI32(|text|) {
      I32At(|text|, text + rest);
      assert s[4..4 + |text|] == text && s[4 + |text|..] == rest;
    } else if DecodeText(s).Some? {
      I32Back(s);
    }
  }

  lemma HeaderAt(t: Byte, id: int, rest: Bytes)
    requires FitsI16(id)
    ensures var s := FieldHeader(t, id) + rest;
            |s| >= 3 && s[0] == t && AsI16(s[1..]) == id && s[3..] == rest
  {
    I16RoundTrip(id);
    var s := FieldHeader(t, id) + rest;
    assert s[1..][..2] == I16(id);
  }

  lemma TypeIsNotStop(v: Value)
    requires WellFormed(v)
    ensures TypeOf(v) != Stop
  {
  }

  /** A reader that knows nothing but the type gets past exactly the bytes of the value. */
  lemma {:induction false} SkipEncoded(v: Value, rest: Bytes)
    requires WellFormed(v)
    ensures Skip(TypeOf(v), Encode(v) + rest) == Some(rest)
  {
    match v
    case Fixed(_, payload) =>
    case Text(text) => TextRoundTrip(text, rest);
    case Struct(fields) => SkipEncodedFields(fields, rest);
    case Sequence(t, element, items) =>
      SkipEncodedItems(element, items, rest);
      SequenceAt(v, rest);
    case Map(key, value, entries) =>
      SkipEncodedEntries(key, value, entries, rest);
      MapAt(v, rest);
  }

  /** Where the parts of a list or set, and of a map, stand. */
  lemma SequenceAt(v: Value, rest: Bytes)
    requires v.Sequence? && FitsI32(Size(v.items))
    ensures var s := Encode(v) + rest;
            && |s| >= 5 && s[0] == v.element && AsI32(s[1..]) == Size(v.items)
            && s[5..] == EncodeItems(v.items) + rest
  {
    var tail := EncodeItems(v.items) + rest;
    var s := Encode(v) + rest;
    assert s == [v.element] + (I32(Size(v.items)) + tail);
    I32At(Size(v.items), tail);
    assert s[1..] == I32(Size(v.items)) + tail && s[5..] == s[1..][4..];
  }

  lemma MapAt(v: Value, rest: Bytes)
    requires v.Map? && FitsI32(SizeOfEntries(v.entries))
    ensures var s := Encode(v) + rest;
            && |s| >= 6 && s[0] == v.key && s[1] == v.value && AsI32(s[2..]) == SizeOfEntries(v.entries)
            && s[6..] == EncodeEntries(v.entries) + rest
  {
    var tail := EncodeEntries(v.entries) + rest;
    var s := Encode(v) + rest;
    assert s == [v.key, v.value] + (I32(SizeOfEntries(v.entries)) + tail);
    I32At(SizeOfEntries(v.entries), tail);
    assert s[2..] == I32(SizeOfEntries(v.entries)) + tail && s[6..] == s[2..][4..];
  }

  lemma {:induction false} SkipEncodedFields(fs: Fields, rest: Bytes)
    requires WellFormedFields(fs)
    ensures SkipFields(EncodeFields(fs) + rest) == Some(rest)
  {
    match fs
    case EndOfFields =>
    case Field(id, content, others) =>
      TypeIsNotStop(content);
      FieldAt(fs, rest);
      SkipEncoded(content, EncodeFields(others) + rest);
      SkipEncodedFields(others, rest);
  }

  /** Where the parts of a field stand. */
  lemma FieldAt(fs: Fields, rest: Bytes)
    requires fs.Field? && FitsI16(fs.id)
    ensures var s := EncodeFields(fs) + rest;
            && |s| >= 3 && s[0] == TypeOf(fs.content) && AsI16(s[1..]) == fs.id
            && s[3..] == Encode(fs.content) + (EncodeFields(fs.others) + rest)
  {
    var tail := Encode(fs.content) + (EncodeFields(fs.others) + rest);
    assert EncodeFields(fs) + rest == FieldHeader(TypeOf(fs.content), fs.id) + tail;
    HeaderAt(TypeOf(fs.content), fs.id, tail);
  }

  lemma {:induction false} SkipEncodedItems(element: Byte, items: Items, rest: Bytes)
    requires WellFormedItems(element, items)
    ensures SkipItems(element, Size(items), EncodeItems(items) + rest) == Some(rest)
    decreases items
  {
    hide Encode, Skip;
    match items
    case EndOfItems => assert EncodeItems(items) + rest == rest;
    case Item(item, more) =>
      assert EncodeItems(items) + rest == Encode(item) + (EncodeItems(more) + rest);
      SkipEncoded(item, EncodeItems(more) + rest);
      SkipEncodedItems(element, more, rest);
  }

  lemma {:induction false} SkipEncodedEntries(key: Byte, value: Byte, entries: Entries, rest: Bytes)
    requires WellFormedEntries(key, value, entries)
    ensures SkipEntries(key, value, SizeOfEntries(entries), EncodeEntries(entries) + rest) == Some(rest)
    decreases entries
  {
    hide Encode, Skip;
    match entries
    case EndOfEntries => assert EncodeEntries(entries) + rest == rest;
    case Entry(k, v, further) =>
      var tail := EncodeEntries(further) + rest;
      assert EncodeEntries(entries) + rest == Encode(k) + (Encode(v) + tail);
      SkipEncoded(k, Encode(v) + tail);
      SkipEncoded(v, tail);
      SkipEncodedEntries(key, value, further, rest);
  }

  // ---------- what is skipped is a value that was written

  lemma DecodedText(s: Bytes)
    requires DecodeText(s).Some?
    ensures var (text, rest) := DecodeText(s).value; s == EncodeText(text) + rest && FitsI32(|text|)
  {
    hide I32, AsI32;
    I32Back(s);
    assert s == s[..4] + s[4..];
  }

  /** The skipper gets past nothing but well-formed values: the converse of SkipEncoded. */
  lemma {:induction false} SkippedIsEncoded(t: Byte, s: Bytes) returns (v: Value)
    requires Skip(t, s).Some?
    ensures WellFormed(v) && TypeOf(v) == t && s == Encode(v) + Skip(t, s).value
    decreases |s|, 1
  {
    if Width(t) > 0 {
      v := Fixed(t, s[..Width(t)]);
    } else if t == TString {
      DecodedText(s);
      v := Text(DecodeText(s).value.0);
    } else if t == TStruct {
      var fields := SkippedFields(s);
      v := Struct(fields);
    } else if t == TMap {
      var entries := SkippedEntries(s[0], s[1], AsI32(s[2..]), s[6..]);
      v := Map(s[0], s[1], entries);
      MapFrom(s, entries, Skip(t, s).value);
    } else {
      var items := SkippedItems(s[0], AsI32(s[1..]), s[5..]);
      v := Sequence(t, s[0], items);
      SequenceFrom(t, s, items, Skip(t, s).value);
    }
  }

  lemma SequenceFrom(t: Byte, s: Bytes, items: Items, rest: Bytes)
    requires |s| >= 5 && AsI32(s[1..]) == Size(items) && s[5..] == EncodeItems(items) + rest
    ensures FitsI32(Size(items)) && s == Encode(Sequence(t, s[0], items)) + rest
  {
    hide I32, AsI32;
    I32Back(s[1..]);
    assert s == s[..1] + (s[1..][..4] + s[5..]);
  }

  lemma MapFrom(s: Bytes, entries: Entries, rest: Bytes)
    requires |s| >= 6 && AsI32(s[2..]) == SizeOfEntries(entries) && s[6..] == EncodeEntries(entries) + rest
    ensures FitsI32(SizeOfEntries(entries)) && s == Encode(Map(s[0], s[1], entries)) + rest
  {
    hide I32, AsI32;
    I32Back(s[2..]);
    assert s == s[..2] + (s[2..][..4] + s[6..]);
  }

  lemma FieldFrom(s: Bytes, content: Value, others: Fields, rest: Bytes)
    requires |s| >= 3 && s[0] == TypeOf(content) && s[3..] == Encode(content) + (EncodeFields(others) + rest)
    ensures FitsI16(AsI16(s[1..])) && s == EncodeFields(Field(AsI16(s[1..]), content, others)) + rest
  {
    hide I16, AsI16, Encode;
    I16Back(s[1..]);
    assert s == (s[..1] + s[1..][..2]) + s[3..];
  }

  lemma {:induction false} SkippedFields(s: Bytes) returns (fs: Fields)
    requires SkipFields(s).Some?
    ensures WellFormedFields(fs) && s == EncodeFields(fs) + SkipFields(s).value
    decreases |s|, 0
  {
    hide AsI16, Encode, Skip;
    if s[0] == Stop {
      fs := EndOfFields;
    } else {
      var content := SkippedIsEncoded(s[0], s[3..]);
      var others := SkippedFields(Skip(s[0], s[3..]).value);
      fs := Field(AsI16(s[1..]), content, others);
      FieldFrom(s, content, others, SkipFields(s).value);
    }
  }

  lemma {:induction false} SkippedItems(element: Byte, n: nat, s: Bytes) returns (items: Items)
    requires SkipItems(element, n, s).Some?
    ensures WellFormedItems(element, items) && Size(items) == n
    ensures s == EncodeItems(items) + SkipItems(element, n, s).value
    decreases |s|, 2, n
  {
    hide Encode, Skip;
    if n == 0 {
      items := EndOfItems;
    } else {
      var item := SkippedIsEncoded(element, s);
      var more := SkippedItems(element, n - 1, Skip(element, s).value);
      items := Item(item, more);
    }
  }

  lemma {:induction false} SkippedEntries(key: Byte, value: Byte, n: nat, s: Bytes) returns (entries: Entries)
    requires SkipEntries(key, value, n, s).Some?
    ensures WellFormedEntries(key, value, entries) && SizeOfEntries(entries) == n
    ensures s == EncodeEntries(entries) + SkipEntries(key, value, n, s).value
    decreases |s|, 2, n
  {
    hide Encode, Skip;
    if n == 0 {
      entries := EndOfEntries;
    } else {
      var k := SkippedIsEncoded(key, s);
      var rest := Skip(key, s).value;
      var v := SkippedIsEncoded(value, rest);
      var further := SkippedEntries(key, value, n - 1, Skip(value, rest).value);
      entries := Entry(k, v, further);
    }
  }
}
