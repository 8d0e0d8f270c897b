/**
  Which columns a query scans: the ID, then the fields the caller chose, in the caller's order; and
  when a choice of fields is refused.
 */
module Projection {
  import opened Relational
  import opened ChangeOrderFields
  import opened RowCodec
  import opened RowReading
  import opened QueryPlan
  import opened QueryTheorems

  // ---------------------------------------------------------------- the projection

  /** How many of the chosen fields are not the ID. */
  function NonIds(fields: seq<Column>): nat {
    if fields == [] then 0 else NonIds(fields[..|fields| - 1]) + if fields[|fields| - 1] == Id then 0 else 1
  }

  /** The k-th chosen field stands behind the ID and the chosen fields before it. */
  predicate IsPlaced(fields: seq<Column>, columns: seq<Column>, k: nat)
    requires k < |fields|
  {
    fields[k] != Id ==> 1 + NonIds(fields[..k]) < |columns| && columns[1 + NonIds(fields[..k])] == fields[k]
  }

  /** The ID in front, once, and behind it the chosen fields, all of them and in order; or every column of the table. */
  ghost predicate Projects(all: seq<Column>, fields: seq<Column>, columns: seq<Column>) {
    if fields == [] then columns == all
    else
      && |columns| == 1 + NonIds(fields) && columns[0] == Id && Occurrences(columns, Id) == 1
      && (forall k :: 0 <= k < |fields| ==> IsPlaced(fields, columns, k))
      && (forall c :: c in columns <==> c == Id || c in fields)
  }

  lemma {:induction false} FilteredPlaces(fields: seq<Column>)
    ensures |Filter(fields, NotId)| == NonIds(fields)
    ensures forall k :: 0 <= k < |fields| ==> IsPlaced(fields, [Id] + Filter(fields, NotId), k)
  {
    if fields != [] {
      var n := |fields| - 1;
      FilteredPlaces(fields[..n]);
      FilterNext(fields, n, NotId);
      assert fields[..n + 1] == fields;
      forall k | 0 <= k < |fields|
        ensures IsPlaced(fields, [Id] + Filter(fields, NotId), k)
      {
        if k < n {
          assert fields[..n][..k] == fields[..k] && IsPlaced(fields[..n], [Id] + Filter(fields[..n], NotId), k);
        }
      }
    }
  }

  lemma {:induction false} FilteredOccurs(fields: seq<Column>, c: Column)
    ensures Occurrences(Filter(fields, NotId), c) == if c == Id then 0 else Occurrences(fields, c)
  {
    if fields != [] {
      var rest := Filter(fields[1..], NotId);
      FilteredOccurs(fields[1..], c);
      if NotId(fields[0]) {
        assert Filter(fields, NotId) == [fields[0]] + rest && ([fields[0]] + rest)[1..] == rest;
      } else {
        assert Filter(fields, NotId) == rest;
      }
    }
  }

  /** What `querySpec` scans, and an update returns, is the projection of the chosen fields. */
  lemma SpecColumnsProject(st: Stage)
    ensures Projects(Columns(st.entity), st.fields, SpecColumns(st))
  {
    if st.fields != [] {
      FilteredPlaces(st.fields);
      FilteredOccurs(st.fields, Id);
      OccurrencesAdd([Id], Filter(st.fields, NotId), Id);
      assert forall c :: c in SpecColumns(st) <==> c == Id || c in Filter(st.fields, NotId);
    }
  }

  // ---------------------------------------------------------------- how often a column is scanned

  predicate IsChosen(t: EntityType, fields: seq<Column>, c: Column) {
    if fields == [] then c in Columns(t) else c in fields
  }

  /** The table's columns if nothing was chosen; otherwise the ID once and a field as often as it was chosen. */
  function TimesChosen(t: EntityType, fields: seq<Column>, c: Column): nat {
    if fields == [] then Occurrences(Columns(t), c) else if c == Id then 1 else Occurrences(fields, c)
  }

  function TimesKey(t: EntityType, keys: bool, c: Column): nat {
    if keys && t.CertDeployment? && c == CertificateFk then 1 else 0
  }

  /** How often sqlAll scans a column; `keys` says whether it asks for the foreign keys. */
  function Times(t: EntityType, fields: seq<Column>, keys: bool): Column -> nat {
    c => TimesChosen(t, fields, c) + TimesKey(t, keys, c)
  }

  lemma {:induction false} AtMostOnce(cols: seq<Column>, c: Column)
    requires forall a, b :: 0 <= a < b < |cols| ==> cols[a] != cols[b]
    ensures Occurrences(cols, c) == if c in cols then 1 else 0
  {
    if cols != [] {
      AtMostOnce(cols[1..], c);
      OccursIff(cols[1..], c);
      assert cols == [cols[0]] + cols[1..];
    }
  }

  lemma TableOccurs(t: EntityType, c: Column)
    ensures Occurrences(Columns(t), c) == if c in Columns(t) then 1 else 0
  {
    forall a, b | 0 <= a < b < |Columns(t)|
      ensures Columns(t)[a] != Columns(t)[b]
    {
      ColumnsOnce(t, a, b);
    }
    AtMostOnce(Columns(t), c);
  }

  /** The columns that sqlAll scans, counted. */
  lemma ScannedTimes(st: Stage, keys: bool, c: Column)
    ensures Occurrences(SpecColumns(st) + KeyColumns(st.entity, keys), c)
         == TimesChosen(st.entity, st.fields, c) + TimesKey(st.entity, keys, c)
  {
    OccurrencesAdd(SpecColumns(st), KeyColumns(st.entity, keys), c);
    KeyOccurs(st.entity, keys, c);
    if st.fields != [] {
      IdFirstOccurs(st.fields, c);
    }
  }

  lemma KeyOccurs(t: EntityType, keys: bool, c: Column)
    ensures Occurrences(KeyColumns(t, keys), c) == TimesKey(t, keys, c)
  {
    assert KeyColumns(t, keys) == [] || KeyColumns(t, keys)[1..] == [];
  }

  lemma IdFirstOccurs(fields: seq<Column>, c: Column)
    ensures Occurrences([Id] + Filter(fields, NotId), c) == if c == Id then 1 else Occurrences(fields, c)
  {
    OccurrencesAdd([Id], Filter(fields, NotId), c);
    FilteredOccurs(fields, c);
    assert [Id][1..] == [];
  }

  function KeyColumns(t: EntityType, keys: bool): seq<Column> {
    if keys then ForeignKeys(t) else []
  }

  lemma ChosenIff(t: EntityType, fields: seq<Column>, c: Column)
    requires c != Id
    ensures TimesChosen(t, fields, c) > 0 <==> IsChosen(t, fields, c)
  {
    if fields == [] {
      OccursIff(Columns(t), c);
    } else {
      OccursIff(fields, c);
    }
  }

  /** Only how often each column is scanned matters. */
  lemma SameTimes(t: EntityType, j: JsonCodec, x: Column -> nat, y: Column -> nat, r: Row)
    requires forall c :: x(c) == y(c)
    ensures IsReadable(t, j, x, r) == IsReadable(t, j, y, r)
    ensures forall e :: Reads(t, j, x, r, e) == Reads(t, j, y, r, e)
    ensures forall err :: IsCulprit(t, j, x, r, err) == IsCulprit(t, j, y, r, err)
  {
    assert forall c :: FieldOf(t, j, x, r, c) == FieldOf(t, j, y, r, c);
    assert forall c :: SelectedOf(t, x, r, c) == SelectedOf(t, y, r, c);
  }

  /**
    What a query makes of one selected row: it can be decoded exactly if the JSON texts of the chosen
    columns can be unmarshalled, and then the entity has exactly the row's chosen cells.
   */
  lemma ScanReads(st: Stage, keys: bool, j: JsonCodec, r: Row)
    ensures var (e, err) := Scan(st, keys, j, r);
            match err
            case None => IsScannable(st, keys, j, r) && Reads(st.entity, j, Times(st.entity, st.fields, keys), r, e)
            case Some(x) =>
              && !IsScannable(st, keys, j, r)
              && IsCulprit(st.entity, j, Times(st.entity, st.fields, keys), r, x)
  {
    var cols := SpecColumns(st) + KeyColumns(st.entity, keys);
    SpecColumnsHaveId(st);
    DecodingReads(st.entity, j, cols, r);
    TimesAreScanned(st, keys, cols);
    SameTimes(st.entity, j, TimesIn(cols), Times(st.entity, st.fields, keys), r);
  }

  lemma TimesAreScanned(st: Stage, keys: bool, cols: seq<Column>)
    requires cols == SpecColumns(st) + KeyColumns(st.entity, keys)
    ensures forall c :: TimesIn(cols)(c) == Times(st.entity, st.fields, keys)(c)
  {
    forall c
      ensures TimesIn(cols)(c) == Times(st.entity, st.fields, keys)(c)
    {
      ScannedTimes(st, keys, c);
    }
  }

  /** Decoding one row by the columns that are scanned. */
  function Scan(st: Stage, keys: bool, j: JsonCodec, r: Row): (EntityValue, Option<DecodeError>) {
    var cols := SpecColumns(st) + KeyColumns(st.entity, keys);
    AssignFrom(st.entity, j, ZERO, cols, Scanned(st.entity, cols, r), 0)
  }

  ghost predicate IsScannable(st: Stage, keys: bool, j: JsonCodec, r: Row) {
    IsReadable(st.entity, j, Times(st.entity, st.fields, keys), r)
  }

  /** A chosen column that is not JSON: the field is the cell, if the cell has a value of its type. */
  lemma ChosenIsRead(t: EntityType, fields: seq<Column>, keys: bool, j: JsonCodec, r: Row, e: EntityValue, c: Column)
    requires Reads(t, j, Times(t, fields, keys), r, e) && c != Id && KindOf(t, c) != JsonKind
    ensures IsChosen(t, fields, c) && Typed(KindOf(t, c), Cell(r, c)) ==> Lookup(e.fields, c) == Some(Cell(r, c))
    ensures IsChosen(t, fields, c) && Cell(r, c) == Null ==> c !in e.fields
  {
    ChosenIff(t, fields, c);
    assert Lookup(e.fields, c) == FieldOf(t, j, Times(t, fields, keys), r, c);
  }

  /** A column that was not chosen, and is no foreign key asked for, is in no field. */
  lemma NothingElseIsRead(t: EntityType, fields: seq<Column>, keys: bool, j: JsonCodec, r: Row, e: EntityValue,
                          c: Column)
    requires Reads(t, j, Times(t, fields, keys), r, e)
    requires c == Id || (!IsChosen(t, fields, c) && !(keys && t.CertDeployment? && c == CertificateFk))
    ensures c !in e.fields && c !in e.selected
  {
    if c != Id {
      ChosenIff(t, fields, c);
    }
    assert Lookup(e.fields, c) == FieldOf(t, j, Times(t, fields, keys), r, c);
    assert Lookup(e.selected, c) == SelectedOf(t, Times(t, fields, keys), r, c);
  }

  /** A chosen JSON column: the field is the document that was written. */
  lemma ChosenDocumentIsRead(t: EntityType, fields: seq<Column>, keys: bool, j: JsonCodec, r: Row, e: EntityValue,
                             c: Column, d: Document)
    requires Reads(t, j, Times(t, fields, keys), r, e) && Faithful(j)
    requires IsChosen(t, fields, c) && KindOf(t, c) == JsonKind && Cell(r, c) == Bytes(j.marshal(d))
    ensures Lookup(e.fields, c) == Some(Doc(d))
  {
    ChosenIff(t, fields, c);
    WrittenIsRead(t, j, Times(t, fields, keys), r, c, Doc(d));
    assert Lookup(e.fields, c) == FieldOf(t, j, Times(t, fields, keys), r, c);
  }

  /** If no JSON column is chosen twice, a row is readable exactly if each chosen text can be unmarshalled by itself. */
  lemma ReadableIff(t: EntityType, fields: seq<Column>, keys: bool, j: JsonCodec, r: Row)
    requires forall c :: KindOf(t, c) == JsonKind && c in fields ==> Occurrences(fields, c) == 1
    ensures IsReadable(t, j, Times(t, fields, keys), r) <==>
              forall c :: KindOf(t, c) == JsonKind && IsChosen(t, fields, c) && TextOf(Cell(r, c)).Some? ==>
                j.unmarshal(TextOf(Cell(r, c)).value, None).Some?
  {
    forall c | KindOf(t, c) == JsonKind
      ensures Times(t, fields, keys)(c) == if IsChosen(t, fields, c) then 1 else 0
      ensures DocumentOf(j, Cell(r, c), Times(t, fields, keys)(c)).Some? <==>
                (IsChosen(t, fields, c) && TextOf(Cell(r, c)).Some? ==>
                   j.unmarshal(TextOf(Cell(r, c)).value, None).Some?)
    {
      ChosenOnce(t, fields, keys, c);
      ReadOnce(j, Cell(r, c), Times(t, fields, keys)(c));
    }
  }

  lemma ChosenOnce(t: EntityType, fields: seq<Column>, keys: bool, c: Column)
    requires KindOf(t, c) == JsonKind && (c in fields ==> Occurrences(fields, c) == 1)
    ensures Times(t, fields, keys)(c) == if IsChosen(t, fields, c) then 1 else 0
  {
    if fields == [] {
      TableOccurs(t, c);
    } else {
      OccursIff(fields, c);
    }
  }

  lemma ReadOnce(j: JsonCodec, v: Value, n: nat)
    requires n <= 1
    ensures DocumentOf(j, v, n).Some? <==> (n == 1 && TextOf(v).Some? ==> j.unmarshal(TextOf(v).value, None).Some?)
  {
    if n == 1 && TextOf(v).Some? {
      var text := TextOf(v).value;
      var d := j.unmarshal(text, None);
      assert Reread(j, text, 1, None) == if d.None? then None else Reread(j, text, 0, d);
    }
  }

  /** Foreign keys are not JSON, so they do not decide whether a row can be decoded. */
  lemma KeysAlwaysRead(t: EntityType, fields: seq<Column>, keys: bool, j: JsonCodec, r: Row)
    ensures IsReadable(t, j, Times(t, fields, keys), r) <==> IsReadable(t, j, Times(t, fields, false), r)
    ensures forall x :: IsCulprit(t, j, Times(t, fields, keys), r, x)
                        <==> IsCulprit(t, j, Times(t, fields, false), r, x)
  {
    assert forall c :: KindOf(t, c) == JsonKind ==> Times(t, fields, keys)(c) == Times(t, fields, false)(c);
  }

  // ---------------------------------------------------------------- refused fields

  /** The fields that prepareQuery looks at: the builder's own first, then those along its path. */
  function FieldsAlong(c: Chain): seq<(EntityType, Column)> {
    Map(c.stage.fields, f => (c.stage.entity, f)) + if c.Hop? then FieldsAlong(c.prev) else []
  }

  predicate IsNamed(f: (EntityType, Column)) {
    f.1 in Columns(f.0) || f.1 in ForeignKeys(f.0)
  }

  /** The first of these fields that its table does not have is the error. */
  ghost predicate IsFirstUnnamed(fs: seq<(EntityType, Column)>, err: Option<Error>) {
    match err
    case None => forall k :: 0 <= k < |fs| ==> IsNamed(fs[k])
    case Some(e) => exists k :: IsUnnamedAt(fs, k, e)
  }

  predicate IsUnnamedAt(fs: seq<(EntityType, Column)>, k: int, e: Error) {
    0 <= k < |fs| && e == Validation(fs[k].1) && !IsNamed(fs[k]) && forall l :: 0 <= l < k ==> IsNamed(fs[l])
  }

  lemma {:induction false} InvalidFieldIsFirst(t: EntityType, fields: seq<Column>)
    ensures IsFirstUnnamed(Map(fields, f => (t, f)), InvalidField(t, fields))
  {
    if fields != [] {
      var fs, rest := Map(fields, f => (t, f)), Map(fields[1..], f => (t, f));
      InvalidFieldIsFirst(t, fields[1..]);
      assert fs == [fs[0]] + rest;
      if ValidColumn(t, fields[0]) {
        UnnamedBehind([fs[0]], rest, InvalidField(t, fields[1..]));
      } else {
        assert IsUnnamedAt(fs, 0, Validation(fields[0]));
      }
    }
  }

  lemma UnnamedBehind(front: seq<(EntityType, Column)>, fs: seq<(EntityType, Column)>, err: Option<Error>)
    requires (forall k :: 0 <= k < |front| ==> IsNamed(front[k])) && IsFirstUnnamed(fs, err)
    ensures IsFirstUnnamed(front + fs, err)
  {
    if err.Some? {
      var k :| IsUnnamedAt(fs, k, err.value);
      assert IsUnnamedAt(front + fs, |front| + k, err.value);
    }
  }

  lemma UnnamedInFront(fs: seq<(EntityType, Column)>, back: seq<(EntityType, Column)>, err: Option<Error>)
    requires IsFirstUnnamed(fs, err) && err.Some?
    ensures IsFirstUnnamed(fs + back, err)
  {
    var k :| IsUnnamedAt(fs, k, err.value);
    assert IsUnnamedAt(fs + back, k, err.value);
  }

  /** Preparing fails exactly if a field along the path is not a column of its table, with the first such field. */
  lemma {:induction false} PrepareFailsIff(c: Chain)
    ensures IsFirstUnnamed(FieldsAlong(c), PrepareError(c))
    decreases c
  {
    var own, back := Map(c.stage.fields, f => (c.stage.entity, f)), if c.Hop? then FieldsAlong(c.prev) else [];
    InvalidFieldIsFirst(c.stage.entity, c.stage.fields);
    if InvalidField(c.stage.entity, c.stage.fields).Some? {
      UnnamedInFront(own, back, PrepareError(c));
    } else {
      if c.Hop? {
        PrepareFailsIff(c.prev);
      }
      UnnamedBehind(own, back, PrepareError(c));
    }
  }
}
