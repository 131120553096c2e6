/**
 Row marshalling: native values and rows to the C structures handed across the foreign-function interface, and back.
 */
module RowMarshal {
  import opened BigIntCodec

  const MAX_COLUMNS: nat := 2000
  const ERROR_VALUE: int := -1
  const TWO32: nat := 0x1_0000_0000

  type u32 = x: nat | x < TWO32

  // ---- native side ----

  datatype Asset = Asset(
    version: u32, status: u32, expiresTime: u64, id: string, name: string, uri: string, createTime: string,
    modifyTime: string, size: string, hash: string, path: string, extension: string)

  /** A stored value; floating-point numbers are represented by their bit patterns. */
  datatype ValueObject =
    | Nil
    | Int(i: int)
    | Double(d: int)
    | Str(s: string)
    | Bool(b: bool)
    | Blob(bytes: seq<u8>)
    | AssetValue(a: Asset)
    | AssetList(assets: seq<Asset>)
    | Floats(floats: seq<int>)
    | BigInt(sign: int, words: seq<u64>)

  // ---- C side ----

  /** A character pointer: null, or a buffer holding these characters and a terminating NUL. */
  datatype CStr = Null | Buffer(chars: string)

  /** A counted array: a null head with size -1, or the items. */
  datatype CArr<T> = Missing | Items(items: seq<T>)

  function SizeOf<T>(a: CArr<T>): int { if a.Missing? then ERROR_VALUE else |a.items| }

  function ItemsOf<T>(a: CArr<T>): seq<T> { if a.Missing? then [] else a.items }

  datatype CAsset = CAsset(
    name: CStr, uri: CStr, path: CStr, createTime: CStr, modifyTime: CStr, size: CStr, status: int)

  datatype ValueTypeEx =
    | ExNull
    | ExInt(i: int)
    | ExDou(d: int)
    | ExStr(s: CStr)
    | ExBool(b: bool)
    | ExBlob(bytes: CArr<u8>)
    | ExAsset(a: CAsset)
    | ExAssets(assets: CArr<CAsset>)
    | ExFloats(floats: CArr<int>)
    | ExBigInt(value: CArr<u8>, sign: bool)

  datatype ValuesBucketEx = ValuesBucketEx(key: seq<CStr>, value: seq<ValueTypeEx>, size: int)

  /** Reading a null character pointer as a string is undefined. */
  datatype Result<T> = Undefined | Defined(value: T)

  // ---- strings ----

  function MallocCString(s: string): CStr { if s == "" then Null else Buffer(s) }

  function UpToNul(s: string): string {
    if s == "" || s[0] == '\0' then "" else [s[0]] + UpToNul(s[1..])
  }

  function Read(c: CStr): Result<string> {
    match c
    case Null => Undefined
    case Buffer(chars) => Defined(UpToNul(chars))
  }

  predicate NulFree(s: string) { forall i | 0 <= i < |s| :: s[i] != '\0' }

  predicate TextOk(s: string) { s != "" && NulFree(s) }

  lemma NulFreeCons(c: char, s: string)
    ensures NulFree([c] + s) <==> c != '\0' && NulFree(s)
  {
    assert forall i | 0 <= i < |s| :: ([c] + s)[i + 1] == s[i];
    assert ([c] + s)[0] == c;
  }

  lemma {:induction false} UpToNulIsNulFree(s: string)
    ensures NulFree(UpToNul(s))
    ensures UpToNul(s) == s <==> NulFree(s)
  {
    if s != "" {
      assert s == [s[0]] + s[1..];
      NulFreeCons(s[0], s[1..]);
      if s[0] != '\0' {
        UpToNulIsNulFree(s[1..]);
        NulFreeCons(s[0], UpToNul(s[1..]));
      }
    }
  }

  lemma TextRoundTrip(s: string)
    ensures Read(MallocCString(s)) == Defined(s) <==> TextOk(s)
    ensures Read(MallocCString(s)).Defined? ==> NulFree(Read(MallocCString(s)).value)
  {
    UpToNulIsNulFree(s);
  }

  // ---- assets ----

  function ToInt32(x: u32): int { if x < 0x8000_0000 then x else x - TWO32 }

  function ToUint32(x: int): u32 { x % TWO32 }

  function AssetToC(a: Asset): CAsset {
    CAsset(MallocCString(a.name), MallocCString(a.uri), MallocCString(a.path), MallocCString(a.createTime),
           MallocCString(a.modifyTime), MallocCString(a.size), ToInt32(a.status))
  }

  /** The hash is recomputed from the modification time and the size; the fields C does not carry take defaults. */
  function AssetFromC(c: CAsset): Result<Asset> {
    match (Read(c.name), Read(c.uri), Read(c.path), Read(c.createTime), Read(c.modifyTime), Read(c.size))
    case (Defined(name), Defined(uri), Defined(path), Defined(createTime), Defined(modifyTime), Defined(size)) =>
      Defined(Asset(0, ToUint32(c.status), 0, "", name, uri, createTime, modifyTime, size,
                    modifyTime + "_" + size, path, ""))
    case _ => Undefined
  }

  predicate AssetOk(a: Asset) {
    && TextOk(a.name) && TextOk(a.uri) && TextOk(a.path) && TextOk(a.createTime)
    && TextOk(a.modifyTime) && TextOk(a.size) && a.hash == a.modifyTime + "_" + a.size
    && a.version == 0 && a.expiresTime == 0 && a.id == "" && a.extension == ""
  }

  lemma AssetRoundTrip(a: Asset)
    ensures AssetFromC(AssetToC(a)) == Defined(a) <==> AssetOk(a)
  {
    TextRoundTrip(a.name);
    TextRoundTrip(a.uri);
    TextRoundTrip(a.path);
    TextRoundTrip(a.createTime);
    TextRoundTrip(a.modifyTime);
    TextRoundTrip(a.size);
  }

  /** A C reader finds every text in the field of its name, exactly if it can be carried, and the status. */
  lemma AssetFieldsCarried(a: Asset)
    ensures var c := AssetToC(a);
            && (Read(c.name) == Defined(a.name) <==> TextOk(a.name))
            && (Read(c.uri) == Defined(a.uri) <==> TextOk(a.uri))
            && (Read(c.path) == Defined(a.path) <==> TextOk(a.path))
            && (Read(c.createTime) == Defined(a.createTime) <==> TextOk(a.createTime))
            && (Read(c.modifyTime) == Defined(a.modifyTime) <==> TextOk(a.modifyTime))
            && (Read(c.size) == Defined(a.size) <==> TextOk(a.size))
            && c.status % TWO32 == a.status && -0x8000_0000 <= c.status < 0x8000_0000
  {
    TextRoundTrip(a.name);
    TextRoundTrip(a.uri);
    TextRoundTrip(a.path);
    TextRoundTrip(a.createTime);
    TextRoundTrip(a.modifyTime);
    TextRoundTrip(a.size);
  }

  function AssetsToC(list: seq<Asset>): seq<CAsset> {
    if list == [] then [] else AssetsToC(list[..|list| - 1]) + [AssetToC(list[|list| - 1])]
  }

  function AssetsFromC(list: seq<CAsset>): Result<seq<Asset>> {
    if list == [] then Defined([]) else
      match (AssetsFromC(list[..|list| - 1]), AssetFromC(list[|list| - 1]))
      case (Defined(init), Defined(last)) => Defined(init + [last])
      case _ => Undefined
  }

  lemma {:induction false} AssetsRoundTrip(list: seq<Asset>)
    ensures AssetsFromC(AssetsToC(list)) == Defined(list) <==> forall i | 0 <= i < |list| :: AssetOk(list[i])
    ensures |AssetsToC(list)| == |list|
  {
    if list != [] {
      var init, last := list[..|list| - 1], list[|list| - 1];
      assert list == init + [last];
      AssetsRoundTrip(init);
      AssetRoundTrip(last);
      var c := AssetsToC(list);
      assert c[..|c| - 1] == AssetsToC(init);
    }
  }

  // ---- values ----

  function Counted<T>(items: seq<T>): CArr<T> { if items == [] then Missing else Items(items) }

  function ValueObjectToValueTypeEx(v: ValueObject): ValueTypeEx {
    match v
    case Nil => ExNull
    case Int(i) => ExInt(i)
    case Double(d) => ExDou(d)
    case Str(s) => ExStr(MallocCString(s))
    case Bool(b) => ExBool(b)
    case Blob(bytes) => ExBlob(Counted(bytes))
    case AssetValue(a) => ExAsset(AssetToC(a))
    case AssetList(assets) => ExAssets(Counted(AssetsToC(assets)))
    case Floats(floats) => ExFloats(Counted(floats))
    case BigInt(sign, words) =>
      if words == [] then ExBigInt(Missing, true) else ExBigInt(Items(Unpack(words)), sign != 0)
  }

  function ValueTypeExToValueObject(e: ValueTypeEx): Result<ValueObject> {
    match e
    case ExNull => Defined(Nil)
    case ExInt(i) => Defined(Int(i))
    case ExDou(d) => Defined(Double(d))
    case ExStr(s) => (match Read(s) case Undefined => Undefined case Defined(t) => Defined(Str(t)))
    case ExBool(b) => Defined(Bool(b))
    case ExBlob(bytes) => Defined(Blob(ItemsOf(bytes)))
    case ExAsset(a) => (match AssetFromC(a) case Undefined => Undefined case Defined(x) => Defined(AssetValue(x)))
    case ExAssets(list) =>
      (match AssetsFromC(ItemsOf(list)) case Undefined => Undefined case Defined(x) => Defined(AssetList(x)))
    case ExFloats(floats) => Defined(Floats(ItemsOf(floats)))
    case ExBigInt(value, sign) =>
      PackKeepsValue(ItemsOf(value));
      Defined(BigInt(if sign then 1 else 0, Pack(ItemsOf(value))))
  }

  // TagType: the order of its enumerators is part of the interface
  function Tag(e: ValueTypeEx): nat {
    match e
    case ExNull => 0
    case ExInt(_) => 1
    case ExDou(_) => 2
    case ExStr(_) => 3
    case ExBool(_) => 4
    case ExBlob(_) => 5
    case ExAsset(_) => 6
    case ExAssets(_) => 7
    case ExFloats(_) => 8
    case ExBigInt(_, _) => 9
  }

  function KindOf(v: ValueObject): nat {
    match v
    case Nil => 0
    case Int(_) => 1
    case Double(_) => 2
    case Str(_) => 3
    case Bool(_) => 4
    case Blob(_) => 5
    case AssetValue(_) => 6
    case AssetList(_) => 7
    case Floats(_) => 8
    case BigInt(_, _) => 9
  }

  /** The tag tells the kind of the value, in both directions. */
  lemma TagsAgree(v: ValueObject, e: ValueTypeEx)
    ensures Tag(ValueObjectToValueTypeEx(v)) == KindOf(v)
    ensures ValueTypeExToValueObject(e).Defined? ==> KindOf(ValueTypeExToValueObject(e).value) == Tag(e)
  {
  }

  /** What a caller can check of a value before marshalling it. */
  predicate Representable(v: ValueObject) {
    match v
    case Str(s) => TextOk(s)
    case AssetValue(a) => AssetOk(a)
    case AssetList(assets) => forall i | 0 <= i < |assets| :: AssetOk(assets[i])
    case BigInt(sign, words) => sign == 1 || (sign == 0 && words != [])
    case _ => true
  }

  lemma {:induction false} BigIntRoundTrip(sign: int, words: seq<u64>)
    ensures var v := BigInt(sign, words);
            ValueTypeExToValueObject(ValueObjectToValueTypeEx(v)) == Defined(v) <==> Representable(v)
  {
    PackUnpack(words);
  }

  /** What the two conversions make of a list of assets, through whichever counted array. */
  lemma {:induction false} AssetListThere(assets: seq<Asset>)
    ensures var e := ValueObjectToValueTypeEx(AssetList(assets));
            e.ExAssets? && ItemsOf(e.assets) == AssetsToC(assets)
  {
    AssetsRoundTrip(assets);
  }

  lemma {:induction false} AssetListBack(list: CArr<CAsset>, assets: seq<Asset>)
    ensures ValueTypeExToValueObject(ExAssets(list)) == Defined(AssetList(assets)) <==>
            AssetsFromC(ItemsOf(list)) == Defined(assets)
  {
  }

  lemma {:induction false} AssetListRoundTrip(assets: seq<Asset>)
    ensures var v := AssetList(assets);
            ValueTypeExToValueObject(ValueObjectToValueTypeEx(v)) == Defined(v) <==> Representable(v)
  {
    AssetsRoundTrip(assets);
    AssetListThere(assets);
    AssetListBack(ValueObjectToValueTypeEx(AssetList(assets)).assets, assets);
  }

  lemma {:induction false} TextValueRoundTrip(v: ValueObject)
    requires v.Str? || v.AssetValue?
    ensures ValueTypeExToValueObject(ValueObjectToValueTypeEx(v)) == Defined(v) <==> Representable(v)
  {
    if v.Str? { TextRoundTrip(v.s); } else { AssetRoundTrip(v.a); }
  }

  /** A value survives marshalling exactly when it is representable. */
  lemma {:induction false} ValueRoundTripIff(v: ValueObject)
    ensures ValueTypeExToValueObject(ValueObjectToValueTypeEx(v)) == Defined(v) <==> Representable(v)
  {
    match v
    case Str(_) => TextValueRoundTrip(v);
    case AssetValue(_) => TextValueRoundTrip(v);
    case AssetList(assets) => AssetListRoundTrip(assets);
    case BigInt(sign, words) => BigIntRoundTrip(sign, words);
    case _ =>
  }

  // ---- rows ----

  type Row = map<string, ValueObject>

  /** `keys` lists the columns of the row, each once, in the order the map iterates over them. */
  ghost predicate Lists(keys: seq<string>, row: Row) {
    && (forall k :: k in keys <==> k in row)
    && (forall i, j | 0 <= i < j < |keys| :: keys[i] != keys[j])
  }

  function ToBucket(row: Row, keys: seq<string>): ValuesBucketEx
    requires forall k | k in keys :: k in row
  {
    if |row| == 0 then ValuesBucketEx([], [], 0)
    else if |row| > MAX_COLUMNS then ValuesBucketEx([], [], ERROR_VALUE)
    else ValuesBucketEx(
        seq(|keys|, i requires 0 <= i < |keys| => MallocCString(keys[i])),
        seq(|keys|, i requires 0 <= i < |keys| => ValueObjectToValueTypeEx(row[keys[i]])),
        |keys|)
  }

  predicate WellFormed(b: ValuesBucketEx) { b.size <= |b.key| && b.size <= |b.value| }

  /** The first `n` columns put into a bucket, later ones replacing earlier ones of the same name. */
  function PutAll(names: seq<Result<string>>, values: seq<Result<ValueObject>>, n: nat): Result<Row>
    requires n <= |names| && n <= |values|
  {
    if n == 0 then Defined(map[]) else
      match (PutAll(names, values, n - 1), names[n - 1], values[n - 1])
      case (Defined(row), Defined(k), Defined(v)) => Defined(row[k := v])
      case _ => Undefined
  }

  function ReadNames(b: ValuesBucketEx): seq<Result<string>> {
    seq(|b.key|, i requires 0 <= i < |b.key| => Read(b.key[i]))
  }

  function ReadValues(b: ValuesBucketEx): seq<Result<ValueObject>> {
    seq(|b.value|, i requires 0 <= i < |b.value| => ValueTypeExToValueObject(b.value[i]))
  }

  function FromBucket(b: ValuesBucketEx): Result<Row>
    requires WellFormed(b)
  {
    PutAll(ReadNames(b), ReadValues(b), if b.size < 0 then 0 else b.size)
  }

  /** What a caller can check of a row before marshalling it. */
  predicate RowOk(row: Row) {
    |row| <= MAX_COLUMNS && forall k | k in row :: TextOk(k) && Representable(row[k])
  }

  lemma {:induction false} PutAllDefined(names: seq<Result<string>>, values: seq<Result<ValueObject>>, n: nat)
    requires n <= |names| && n <= |values|
    ensures PutAll(names, values, n).Defined? <==> forall i | 0 <= i < n :: names[i].Defined? && values[i].Defined?
  {
    if n > 0 { PutAllDefined(names, values, n - 1); }
  }

  /** Every column of the bucket has one of the names. */
  lemma {:induction false} PutAllNames(names: seq<Result<string>>, values: seq<Result<ValueObject>>, n: nat, k: string)
    returns (i: nat)
    requires n <= |names| && n <= |values| && PutAll(names, values, n).Defined? && k in PutAll(names, values, n).value
    ensures i < n && names[i] == Defined(k)
    decreases n
  {
    if names[n - 1] == Defined(k) {
      i := n - 1;
    } else {
      i := PutAllNames(names, values, n - 1, k);
    }
  }

  /** Column `i` keeps its value when no later column has the same name. */
  lemma {:induction false} PutAllValue(names: seq<Result<string>>, values: seq<Result<ValueObject>>, n: nat, i: nat)
    requires i < n <= |names| && n <= |values| && PutAll(names, values, n).Defined?
    requires forall j | i < j < n :: names[j] != names[i]
    ensures var m := PutAll(names, values, n).value;
            names[i].Defined? && names[i].value in m && values[i] == Defined(m[names[i].value])
    decreases n
  {
    if i < n - 1 { PutAllValue(names, values, n - 1, i); }
  }

  lemma EmptyRow(row: Row)
    requires |row| == 0
    ensures row == map[]
  {
    assert |row.Keys| == 0;
  }

  /** A row survives marshalling exactly when it has at most 2000 columns, good names and representable values. */
  lemma {:induction false} RowRoundTripIff(row: Row, keys: seq<string>)
    requires Lists(keys, row)
    ensures var b := ToBucket(row, keys);
            WellFormed(b) && (FromBucket(b) == Defined(row) <==> RowOk(row))
  {
    var b := ToBucket(row, keys);
    if |row| == 0 {
      EmptyRow(row);
    } else if |row| <= MAX_COLUMNS {
      var names, values := ReadNames(b), ReadValues(b);
      forall i | 0 <= i < |keys|
        ensures names[i] == Defined(keys[i]) <==> TextOk(keys[i])
        ensures names[i].Defined? ==> NulFree(names[i].value) && keys[i] != ""
        ensures values[i] == Defined(row[keys[i]]) <==> Representable(row[keys[i]])
      {
        TextRoundTrip(keys[i]);
        ValueRoundTripIff(row[keys[i]]);
      }
      if RowOk(row) {
        GoodColumns(row, keys, names, values);
      } else if FromBucket(b) == Defined(row) {
        SameColumns(row, keys, names, values);
      }
    }
  }

  lemma {:induction false} GoodColumns(
      row: Row, keys: seq<string>, names: seq<Result<string>>, values: seq<Result<ValueObject>>)
    requires Lists(keys, row) && |names| == |values| == |keys|
    requires forall i | 0 <= i < |keys| :: names[i] == Defined(keys[i]) && values[i] == Defined(row[keys[i]])
    ensures PutAll(names, values, |keys|) == Defined(row)
  {
    PutAllDefined(names, values, |keys|);
    var m := PutAll(names, values, |keys|).value;
    forall k | k in m
      ensures k in row
    {
      var i := PutAllNames(names, values, |keys|, k);
    }
    forall k | k in row
      ensures k in m && m[k] == row[k]
    {
      var i :| 0 <= i < |keys| && keys[i] == k;
      PutAllValue(names, values, |keys|, i);
    }
    assert m == row;
  }

  /** A row that reads back as itself has good names and representable values. */
  lemma {:induction false} SameColumns(
      row: Row, keys: seq<string>, names: seq<Result<string>>, values: seq<Result<ValueObject>>)
    requires Lists(keys, row) && |names| == |values| == |keys|
    requires forall i | 0 <= i < |keys| :: names[i] == Defined(keys[i]) <==> TextOk(keys[i])
    requires forall i | 0 <= i < |keys| :: names[i].Defined? ==> NulFree(names[i].value) && keys[i] != ""
    requires PutAll(names, values, |keys|) == Defined(row)
    ensures forall i | 0 <= i < |keys| :: TextOk(keys[i]) && values[i] == Defined(row[keys[i]])
  {
    PutAllDefined(names, values, |keys|);
    forall i | 0 <= i < |keys|
      ensures TextOk(keys[i])
    {
      var j := PutAllNames(names, values, |keys|, keys[i]);
      assert names[i].Defined? && NulFree(names[j].value);
    }
    forall i | 0 <= i < |keys|
      ensures values[i] == Defined(row[keys[i]])
    {
      PutAllValue(names, values, |keys|, i);
    }
  }

  // ---- the loops ----

  /** Element by element into a freshly allocated array, or the empty sentinel. */
  method CopyOut<T>(val: seq<T>) returns (arr: CArr<T>)
    ensures arr == Counted(val)
  {
    if |val| == 0 {
      return Missing;
    }
    var head := [];
    for i := 0 to |val|
      invariant head == val[..i]
    {
      head := head + [val[i]];
    }
    return Items(head);
  }

  /** Element by element while the index is below the array's size, which is -1 for the sentinel. */
  method CopyIn<T>(arr: CArr<T>) returns (val: seq<T>)
    ensures val == ItemsOf(arr)
  {
    val := [];
    var j := 0;
    while j < SizeOf(arr)
      invariant 0 <= j <= |ItemsOf(arr)| && val == ItemsOf(arr)[..j]
    {
      val := val + [arr.items[j]];
      j := j + 1;
    }
  }

  method AssetsOut(val: seq<Asset>) returns (arr: CArr<CAsset>)
    ensures arr == Counted(AssetsToC(val))
  {
    AssetsRoundTrip(val);
    if |val| == 0 {
      return Missing;
    }
    var head := [];
    for i := 0 to |val|
      invariant head == AssetsToC(val[..i])
    {
      assert val[..i + 1][..i] == val[..i];
      head := head + [AssetToC(val[i])];
    }
    assert val[..|val|] == val;
    return Items(head);
  }

  method AssetsIn(arr: CArr<CAsset>) returns (r: Result<seq<Asset>>)
    ensures r == AssetsFromC(ItemsOf(arr))
  {
    var assets := [];
    var j := 0;
    ghost var items := ItemsOf(arr);
    while j < SizeOf(arr)
      invariant 0 <= j <= |items| && AssetsFromC(items[..j]) == Defined(assets)
    {
      assert items[..j + 1][..j] == items[..j];
      var next := AssetFromC(arr.items[j]);
      if next.Undefined? {
        UndefinedStays(items, j + 1);
        return Undefined;
      }
      assets := assets + [next.value];
      j := j + 1;
    }
    assert items[..j] == items;
    return Defined(assets);
  }

  lemma {:induction false} UndefinedStays(items: seq<CAsset>, n: nat)
    requires n <= |items| && AssetsFromC(items[..n]) == Undefined
    ensures AssetsFromC(items) == Undefined
    decreases |items| - n
  {
    if n < |items| {
      assert items[..n + 1][..n] == items[..n];
      UndefinedStays(items, n + 1);
    } else {
      assert items[..n] == items;
    }
  }

  method RowEntityToValuesBucketEx(row: Row, keys: seq<string>) returns (b: ValuesBucketEx)
    requires Lists(keys, row)
    ensures b == ToBucket(row, keys)
  {
    if |row| == 0 {
      return ValuesBucketEx([], [], 0);
    }
    if |row| > MAX_COLUMNS {
      return ValuesBucketEx([], [], ERROR_VALUE);
    }
    var key, value := [], [];
    for i := 0 to |keys|
      invariant key == ToBucket(row, keys).key[..i] && value == ToBucket(row, keys).value[..i]
    {
      key := key + [MallocCString(keys[i])];
      value := value + [ValueObjectToValueTypeEx(row[keys[i]])];
    }
    return ValuesBucketEx(key, value, |keys|);
  }

  method ConvertFromValueBucketEx(b: ValuesBucketEx) returns (r: Result<Row>)
    requires WellFormed(b)
    ensures r == FromBucket(b)
  {
    var bucket: Row := map[];
    ghost var names, values := ReadNames(b), ReadValues(b);
    var i := 0;
    while i < b.size
      invariant 0 <= i && (i <= b.size || (i == 0 && b.size < 0))
      invariant PutAll(names, values, i) == Defined(bucket)
    {
      var value, key := ValueTypeExToValueObject(b.value[i]), Read(b.key[i]);
      if value.Undefined? || key.Undefined? {
        PutAllDefined(names, values, b.size);
        assert names[i].Undefined? || values[i].Undefined?;
        return Undefined;
      }
      bucket := bucket[key.value := value.value];
      i := i + 1;
    }
    return Defined(bucket);
  }
}
