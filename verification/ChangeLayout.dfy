/**
 The buffer in which an NDK data observer is told the primary keys of changed rows.
 */
module ChangeLayout {
  import opened BigIntCodec
  import opened DataAsset
  import opened Options
  import RowMarshal

  const KEY_DATA_SIZE: nat := 8

  // OH_ColumnType
  const TYPE_NULL := 0
  const TYPE_INT64 := 1
  const TYPE_TEXT := 3

  // Rdb_SubscribeType
  const CLOUD_DETAILS := 1
  const LOCAL_DETAILS := 2

  /** A text as a C string holds it. */
  type CText = s: string | RowMarshal.NulFree(s) witness ""

  datatype Key = Null | Text(text: string) | Integer(value: Int64) | Real(bits: u64)

  /**
   One key cell: eight bytes without a tag. They hold the two's complement of an integer or the representation of a
   double, or they point to a text, which is read up to its NUL.
   */
  datatype Cell = Raw(bits: u64) | Pointer(text: CText)

  datatype Table = Table(name: string, inserted: seq<Key>, updated: seq<Key>, deleted: seq<Key>)

  datatype KeyInfo = KeyInfo(count: nat, kind: int, at: nat)

  datatype ChangeInfo = ChangeInfo(name: string, inserted: KeyInfo, updated: KeyInfo, deleted: KeyInfo)

  const ZERO: Cell := Raw(0)

  function CellOf(key: Key): Cell {
    match key
    case Null => ZERO
    case Text(s) => RowMarshal.UpToNulIsNulFree(s); Pointer(RowMarshal.UpToNul(s))
    case Integer(v) => Raw(if v < 0 then v + WORD else v)
    case Real(b) => Raw(b)
  }

  /** What an observer makes of a cell: a key, or nothing sensible when a number and a pointer are confused. */
  datatype Reading = AKey(key: Key) | Garbage

  /** A cell read as the label of its list says. */
  function Decode(kind: int, cell: Cell): Reading {
    if kind == TYPE_INT64 then
      if cell.Pointer? then Garbage
      else AKey(Integer(if cell.bits <= INT64_MAX then cell.bits else cell.bits - WORD))
    else if kind == TYPE_TEXT then
      if cell.Raw? then Garbage else AKey(Text(cell.text))
    else AKey(Null)
  }

  function GetKeyDataType(keys: seq<Key>): int {
    if keys == [] then TYPE_NULL
    else if keys[0].Integer? || keys[0].Real? then TYPE_INT64
    else if keys[0].Text? then TYPE_TEXT
    else TYPE_NULL
  }

  function Keys(t: Table): seq<Key> { t.inserted + t.updated + t.deleted }

  function Total(tables: seq<Table>): nat {
    if tables == [] then 0 else |Keys(tables[0])| + Total(tables[1..])
  }

  /** Keys written from `at` on; the first key of no supported type ends the writing. */
  function Write(area: seq<Cell>, at: nat, keys: seq<Key>): (r: seq<Cell>)
    requires at + |keys| <= |area|
    ensures |r| == |area|
    decreases keys
  {
    if keys == [] || keys[0].Null? then area else Write(area[at := CellOf(keys[0])], at + 1, keys[1..])
  }

  function WriteTable(area: seq<Cell>, t: Table): (r: seq<Cell>)
    requires |Keys(t)| <= |area|
    ensures |r| == |area|
  {
    var i, u := |t.inserted|, |t.updated|;
    Write(Write(Write(area, 0, t.inserted), i, t.updated), i + u, t.deleted)
  }

  lemma {:induction false} TotalBounds(tables: seq<Table>, t: Table)
    requires t in tables
    ensures |Keys(t)| <= Total(tables)
  {
    if t != tables[0] { TotalBounds(tables[1..], t); }
  }

  predicate Fits(area: seq<Cell>, tables: seq<Table>) { forall t | t in tables :: |Keys(t)| <= |area| }

  /** Every table is written from the start of the area. */
  function WriteAll(area: seq<Cell>, tables: seq<Table>): (r: seq<Cell>)
    requires Fits(area, tables)
    ensures |r| == |area|
    decreases tables
  {
    if tables == [] then area else WriteAll(WriteTable(area, tables[0]), tables[1..])
  }

  function Zeros(n: nat): (r: seq<Cell>)
    ensures |r| == n && forall i | 0 <= i < n :: r[i] == ZERO
  {
    if n == 0 then [] else Zeros(n - 1) + [ZERO]
  }

  // ---- what a table writes ----

  /** How many keys of a list are written: those before the first unsupported one. */
  function Supported(keys: seq<Key>): (n: nat)
    ensures n <= |keys| && (forall i | 0 <= i < n :: !keys[i].Null?) && (n < |keys| ==> keys[n].Null?)
  {
    if keys == [] || keys[0].Null? then 0 else 1 + Supported(keys[1..])
  }

  /** What a list writes into its `j`-th cell. */
  function Wrote(keys: seq<Key>, j: int): Option<Cell> {
    if 0 <= j < Supported(keys) then Some(CellOf(keys[j])) else None
  }

  /** What a table writes into the `j`-th cell of the area: its lists follow each other without overlap. */
  function TableWrote(t: Table, j: int): Option<Cell> {
    var i, u := |t.inserted|, |t.inserted| + |t.updated|;
    if j < i then Wrote(t.inserted, j) else if j < u then Wrote(t.updated, j - i) else Wrote(t.deleted, j - u)
  }

  function Over(cell: Cell, wrote: Option<Cell>): Cell { if wrote.Some? then wrote.value else cell }

  lemma {:induction false} WriteAt(area: seq<Cell>, at: nat, keys: seq<Key>, j: nat)
    requires at + |keys| <= |area| && j < |area|
    ensures Write(area, at, keys)[j] == Over(area[j], Wrote(keys, j - at))
    decreases keys
  {
    if keys != [] && !keys[0].Null? { WriteAt(area[at := CellOf(keys[0])], at + 1, keys[1..], j); }
  }

  /** Writing a table changes exactly the cells of its supported keys, in order. */
  lemma WriteTableAt(area: seq<Cell>, t: Table, j: nat)
    requires |Keys(t)| <= |area| && j < |area|
    ensures WriteTable(area, t)[j] == Over(area[j], TableWrote(t, j))
  {
    var i, u := |t.inserted|, |t.inserted| + |t.updated|;
    var a1 := Write(area, 0, t.inserted);
    var a2 := Write(a1, i, t.updated);
    WriteAt(area, 0, t.inserted, j);
    WriteAt(a1, i, t.updated, j);
    WriteAt(a2, u, t.deleted, j);
  }

  // ---- the area after all tables ----

  /** The cells a table wrote are still there. */
  ghost predicate Shows(area: seq<Cell>, t: Table) {
    forall j: nat :: TableWrote(t, j).Some? ==> j < |area| && area[j] == TableWrote(t, j).value
  }

  /** Two tables write the same into every cell that both write. */
  ghost predicate Agree(a: Table, b: Table) {
    forall j: nat :: TableWrote(a, j).Some? && TableWrote(b, j).Some? ==> TableWrote(a, j) == TableWrote(b, j)
  }

  ghost predicate AllShown(area: seq<Cell>, tables: seq<Table>) { forall t | t in tables :: Shows(area, t) }

  ghost predicate AllAgree(tables: seq<Table>) { forall a, b | a in tables && b in tables :: Agree(a, b) }

  /** A cell into which all tables that write it write the same holds that, if one does or it did before. */
  lemma {:induction false} CellAfterAll(area: seq<Cell>, tables: seq<Table>, j: nat, cell: Cell, found: bool)
    requires Fits(area, tables) && j < |area|
    requires forall t | t in tables :: TableWrote(t, j).Some? ==> TableWrote(t, j).value == cell
    requires found ==> area[j] == cell
    requires found || exists t | t in tables :: TableWrote(t, j).Some?
    ensures WriteAll(area, tables)[j] == cell
    decreases tables
  {
    if tables != [] {
      var t := tables[0];
      assert t in tables;
      WriteTableAt(area, t, j);
      CellAfterAll(WriteTable(area, t), tables[1..], j, cell, found || TableWrote(t, j).Some?);
    }
  }

  /** The last table is always shown. */
  lemma {:induction false} LastShown(area: seq<Cell>, tables: seq<Table>)
    requires tables != [] && Fits(area, tables)
    ensures Shows(WriteAll(area, tables), tables[|tables| - 1])
    decreases tables
  {
    if |tables| == 1 {
      assert WriteAll(WriteTable(area, tables[0]), tables[1..]) == WriteTable(area, tables[0]);
      forall j: nat | TableWrote(tables[0], j).Some?
        ensures j < |area| && WriteTable(area, tables[0])[j] == TableWrote(tables[0], j).value
      {
        WriteTableAt(area, tables[0], j);
      }
    } else {
      LastShown(WriteTable(area, tables[0]), tables[1..]);
    }
  }

  lemma TotalFits(tables: seq<Table>)
    ensures Fits(Zeros(Total(tables)), tables)
  {
    forall t | t in tables ensures |Keys(t)| <= Total(tables) {
      TotalBounds(tables, t);
    }
  }

  /** The key area as the callback sees it. */
  function FinalArea(tables: seq<Table>): seq<Cell> {
    TotalFits(tables);
    WriteAll(Zeros(Total(tables)), tables)
  }

  /**
   After all tables are written, every table's cells are still there exactly when any two tables write the same into
   the cells they share; in particular with a single table.
   */
  lemma AllTablesShownIff(tables: seq<Table>)
    ensures AllShown(FinalArea(tables), tables) <==> AllAgree(tables)
    ensures |tables| == 1 ==> AllAgree(tables)
  {
    TotalFits(tables);
    if AllAgree(tables) {
      forall t, j: nat | t in tables && TableWrote(t, j).Some?
        ensures j < |FinalArea(tables)| && FinalArea(tables)[j] == TableWrote(t, j).value
      {
        forall u | u in tables && TableWrote(u, j).Some? ensures TableWrote(u, j) == TableWrote(t, j) {
          assert Agree(u, t);
        }
        CellAfterAll(Zeros(Total(tables)), tables, j, TableWrote(t, j).value, false);
      }
    }
    if AllShown(FinalArea(tables), tables) {
      forall a, b | a in tables && b in tables ensures Agree(a, b) {
        assert Shows(FinalArea(tables), a) && Shows(FinalArea(tables), b);
      }
    }
  }

  /** Two tables with one inserted row each: the callback finds the second key under both tables. */
  lemma SecondTableOverwritesFirst()
    ensures var a, b := Table("a", [Integer(1)], [], []), Table("b", [Integer(2)], [], []);
            !Shows(FinalArea([a, b]), a) && Shows(FinalArea([a, b]), b)
  {
    var a, b := Table("a", [Integer(1)], [], []), Table("b", [Integer(2)], [], []);
    assert TableWrote(a, 0) == Some(Raw(1)) && TableWrote(b, 0) == Some(Raw(2));
    assert [a, b][1] == b;
    TotalFits([a, b]);
    LastShown(Zeros(Total([a, b])), [a, b]);
  }

  // ---- reading a list by its label ----

  predicate ReadsAs(kind: int, cells: seq<Cell>, keys: seq<Key>)
    requires |cells| == |keys|
  {
    forall i | 0 <= i < |keys| :: Decode(kind, cells[i]) == AKey(keys[i])
  }

  /** Whether a key can be read by the label that the first key of its list gives. */
  predicate Labelled(first: Key, key: Key) {
    match first
    case Null => key.Null?
    case Text(_) => key.Text? && RowMarshal.NulFree(key.text)
    case Integer(_) => key.Integer?
    case Real(_) => false
  }

  /** All keys are integers, or all are texts without NUL, or none is supported. */
  predicate Uniform(keys: seq<Key>) { forall i | 0 <= i < |keys| :: Labelled(keys[0], keys[i]) }

  ghost predicate InPlace(cells: seq<Cell>, keys: seq<Key>)
    requires |cells| == |keys|
  {
    forall i | 0 <= i < |keys| :: Wrote(keys, i).Some? ==> cells[i] == Wrote(keys, i).value
  }

  /** A cell is read as a supported key exactly when it is that key's cell and the label fits it. */
  lemma DecodeIff(kind: int, cell: Cell, key: Key)
    requires !key.Null?
    ensures Decode(kind, cell) == AKey(key) <==>
            && cell == CellOf(key)
            && (|| (kind == TYPE_INT64 && key.Integer?)
                || (kind == TYPE_TEXT && key.Text? && RowMarshal.NulFree(key.text)))
  {
    if key.Text? { RowMarshal.UpToNulIsNulFree(key.text); }
  }

  /**
   A list is read back by its label exactly when it is uniform and its cells are in place: keys that are doubles are
   labelled as integers, and a mixed list is labelled by its first key.
   */
  lemma ReadsAsIff(keys: seq<Key>, cells: seq<Cell>)
    requires |cells| == |keys|
    ensures ReadsAs(GetKeyDataType(keys), cells, keys) <==> Uniform(keys) && InPlace(cells, keys)
  {
    var kind, n := GetKeyDataType(keys), Supported(keys);
    if n == |keys| > 0 && !keys[0].Real? {
      forall i | 0 <= i < |keys|
        ensures Decode(kind, cells[i]) == AKey(keys[i]) <==>
                Labelled(keys[0], keys[i]) && cells[i] == Wrote(keys, i).value
      {
        DecodeIff(kind, cells[i], keys[i]);
      }
    } else if n == 0 {
      assert forall i | 0 <= i < |keys| :: Decode(kind, cells[i]) == AKey(keys[i]) <==> Labelled(keys[0], keys[i]);
    } else {
      var i := if n == |keys| then 0 else n;
      assert Decode(kind, cells[i]) != AKey(keys[i]) && !Labelled(keys[0], keys[i]);
    }
  }

  /** A double key is read as the integer with the same bits. */
  lemma RealKeyMisread(bits: u64)
    ensures var keys := [Real(bits)];
            && !Uniform(keys)
            && Decode(GetKeyDataType(keys), CellOf(keys[0])).AKey?
            && Decode(GetKeyDataType(keys), CellOf(keys[0])).key.Integer?
  {
    var keys := [Real(bits)];
    assert !Labelled(keys[0], keys[0]);
  }

  /** After an integer a text cannot be read, nor an integer after a text. */
  lemma MixedKeysMisread(v: Int64, s: string)
    ensures Decode(GetKeyDataType([Integer(v), Text(s)]), CellOf(Text(s))) == Garbage
    ensures Decode(GetKeyDataType([Text(s), Integer(v)]), CellOf(Integer(v))) == Garbage
  {
    assert [Integer(v), Text(s)][0] == Integer(v) && [Text(s), Integer(v)][0] == Text(s);
  }

  function InfoOf(t: Table): ChangeInfo {
    ChangeInfo(
      t.name,
      KeyInfo(|t.inserted|, GetKeyDataType(t.inserted), 0),
      KeyInfo(|t.updated|, GetKeyDataType(t.updated), |t.inserted|),
      KeyInfo(|t.deleted|, GetKeyDataType(t.deleted), |t.inserted| + |t.updated|))
  }

  /** The cells a list's description points to. */
  function CellsOf(area: seq<Cell>, info: KeyInfo): seq<Cell>
    requires info.at + info.count <= |area|
  {
    area[info.at..info.at + info.count]
  }

  /** An observer is told the table, and reading its three lists by their descriptions finds the table's keys. */
  predicate Reported(area: seq<Cell>, t: Table)
    requires |Keys(t)| <= |area|
  {
    var info := InfoOf(t);
    && info.name == t.name
    && ReadsAs(info.inserted.kind, CellsOf(area, info.inserted), t.inserted)
    && ReadsAs(info.updated.kind, CellsOf(area, info.updated), t.updated)
    && ReadsAs(info.deleted.kind, CellsOf(area, info.deleted), t.deleted)
  }

  predicate UniformTable(t: Table) { Uniform(t.inserted) && Uniform(t.updated) && Uniform(t.deleted) }

  /** The three lists of a table are in place, each where its description points. */
  ghost predicate ListsInPlace(area: seq<Cell>, t: Table)
    requires |Keys(t)| <= |area|
  {
    var info := InfoOf(t);
    && InPlace(CellsOf(area, info.inserted), t.inserted)
    && InPlace(CellsOf(area, info.updated), t.updated)
    && InPlace(CellsOf(area, info.deleted), t.deleted)
  }

  lemma ShownList(area: seq<Cell>, t: Table, keys: seq<Key>, info: KeyInfo)
    requires Shows(area, t) && info.count == |keys| && info.at + info.count <= |area|
    requires forall j | 0 <= j < |keys| :: Wrote(keys, j) == TableWrote(t, info.at + j)
    ensures InPlace(CellsOf(area, info), keys)
  {
    forall j | 0 <= j < |keys| && Wrote(keys, j).Some? ensures CellsOf(area, info)[j] == Wrote(keys, j).value {
      assert TableWrote(t, info.at + j).Some?;
    }
  }

  lemma ShownAreInPlace(area: seq<Cell>, t: Table)
    requires |Keys(t)| <= |area| && Shows(area, t)
    ensures ListsInPlace(area, t)
  {
    var info := InfoOf(t);
    ShownList(area, t, t.inserted, info.inserted);
    ShownList(area, t, t.updated, info.updated);
    ShownList(area, t, t.deleted, info.deleted);
  }

  lemma InPlaceAreShown(area: seq<Cell>, t: Table)
    requires |Keys(t)| <= |area| && ListsInPlace(area, t)
    ensures Shows(area, t)
  {
    var i, u := |t.inserted|, |t.inserted| + |t.updated|;
    var info := InfoOf(t);
    forall j: nat | TableWrote(t, j).Some? ensures j < |area| && area[j] == TableWrote(t, j).value {
      if j < i {
        assert CellsOf(area, info.inserted)[j] == Wrote(t.inserted, j).value;
      } else if j < u {
        assert CellsOf(area, info.updated)[j - i] == Wrote(t.updated, j - i).value;
      } else {
        assert CellsOf(area, info.deleted)[j - u] == Wrote(t.deleted, j - u).value;
      }
    }
  }

  lemma ReportedIff(area: seq<Cell>, t: Table)
    requires |Keys(t)| <= |area|
    ensures Reported(area, t) <==> UniformTable(t) && Shows(area, t)
  {
    var info := InfoOf(t);
    ReadsAsIff(t.inserted, CellsOf(area, info.inserted));
    ReadsAsIff(t.updated, CellsOf(area, info.updated));
    ReadsAsIff(t.deleted, CellsOf(area, info.deleted));
    if Shows(area, t) { ShownAreInPlace(area, t); }
    if ListsInPlace(area, t) { InPlaceAreShown(area, t); }
  }

  ghost predicate AllReported(tables: seq<Table>) {
    forall t | t in tables :: |Keys(t)| <= |FinalArea(tables)| && Reported(FinalArea(tables), t)
  }

  /**
   An observer that reads every list of every table by its description finds all keys exactly when every list is
   uniform and any two tables write the same into the cells they share.
   */
  lemma AllReportedIff(tables: seq<Table>)
    ensures AllReported(tables) <==> AllAgree(tables) && forall t | t in tables :: UniformTable(t)
  {
    TotalFits(tables);
    AllTablesShownIff(tables);
    forall t | t in tables
      ensures |Keys(t)| <= |FinalArea(tables)|
      ensures Reported(FinalArea(tables), t) <==> UniformTable(t) && Shows(FinalArea(tables), t)
    {
      TotalBounds(tables, t);
      ReportedIff(FinalArea(tables), t);
    }
  }

  // ---- the observer's methods ----

  /** The size asked for is exactly that of one cell per key. */
  method GetKeyInfoSize(tables: seq<Table>) returns (size: nat)
    ensures size == Total(tables) * KEY_DATA_SIZE
  {
    size := 0;
    for i := 0 to |tables|
      invariant size + Total(tables[i..]) * KEY_DATA_SIZE == Total(tables) * KEY_DATA_SIZE
    {
      assert tables[i..][1..] == tables[i + 1..];
      var t := tables[i];
      size := size + |t.inserted| * KEY_DATA_SIZE + |t.updated| * KEY_DATA_SIZE + |t.deleted| * KEY_DATA_SIZE;
    }
  }

  method ConvertKeyInfoData(area: array<Cell>, at: nat, keys: seq<Key>)
    requires at + |keys| <= area.Length
    modifies area
    ensures area[..] == Write(old(area[..]), at, keys)
  {
    for i := 0 to |keys|
      invariant Write(old(area[..]), at, keys) == Write(area[..], at + i, keys[i..])
    {
      if keys[i].Null? { return; }
      assert keys[i..][1..] == keys[i + 1..];
      ghost var before := area[..];
      area[at + i] := CellOf(keys[i]);
      assert area[..] == before[at + i := CellOf(keys[i])];
    }
  }

  method ConvertTable(area: array<Cell>, t: Table)
    requires |Keys(t)| <= area.Length
    modifies area
    ensures area[..] == WriteTable(old(area[..]), t)
  {
    ConvertKeyInfoData(area, 0, t.inserted);
    ConvertKeyInfoData(area, |t.inserted|, t.updated);
    ConvertKeyInfoData(area, |t.inserted| + |t.updated|, t.deleted);
  }

  /**
   Detail observers are told of every table, others of none. Every write stays inside the area of the computed size,
   for any number of tables.
   */
  method OnChange(kind: int, tables: seq<Table>) returns (infos: seq<ChangeInfo>, area: array<Cell>)
    ensures fresh(area)
    ensures kind != CLOUD_DETAILS && kind != LOCAL_DETAILS ==> infos == [] && area.Length == 0
    ensures kind == CLOUD_DETAILS || kind == LOCAL_DETAILS ==>
      && area[..] == FinalArea(tables)
      && |infos| == |tables| && forall i | 0 <= i < |infos| :: infos[i] == InfoOf(tables[i])
  {
    infos := [];
    if |tables| == 0 || (kind != CLOUD_DETAILS && kind != LOCAL_DETAILS) {
      area := new Cell[0];
      return;
    }
    var size := GetKeyInfoSize(tables);
    area := new Cell[size / KEY_DATA_SIZE](_ => ZERO);
    ghost var start := area[..];
    assert start == Zeros(Total(tables));
    TotalFits(tables);
    for i := 0 to |tables|
      invariant Fits(area[..], tables) && Fits(area[..], tables[i..])
      invariant WriteAll(area[..], tables[i..]) == WriteAll(start, tables)
      invariant |infos| == i && forall j | 0 <= j < i :: infos[j] == InfoOf(tables[j])
    {
      var t := tables[i];
      assert t in tables && tables[i..][0] == t && tables[i..][1..] == tables[i + 1..];
      infos := infos + [InfoOf(t)];
      ConvertTable(area, t);
    }
  }
}
