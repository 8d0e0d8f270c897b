/**
  What decoding a database row gives, said on the row's cells alone: which rows can be decoded, and
  what every field of the entity then is.
 */
module RowReading {
  import opened Relational
  import opened RowCodec

  function Occurrences(cols: seq<Column>, c: Column): nat {
    if cols == [] then 0 else (if cols[0] == c then 1 else 0) + Occurrences(cols[1..], c)
  }

  lemma {:induction false} OccursIff(cols: seq<Column>, c: Column)
    ensures Occurrences(cols, c) > 0 <==> c in cols
  {
    if cols != [] {
      assert cols == [cols[0]] + cols[1..];
      OccursIff(cols[1..], c);
    }
  }

  lemma {:induction false} OccurrencesAdd(xs: seq<Column>, ys: seq<Column>, c: Column)
    ensures Occurrences(xs + ys, c) == Occurrences(xs, c) + Occurrences(ys, c)
  {
    if xs == [] {
      assert xs + ys == ys;
    } else {
      assert (xs + ys)[1..] == xs[1..] + ys;
      OccurrencesAdd(xs[1..], ys, c);
    }
  }

  /** The JSON text in a cell, if there is any. */
  function TextOf(v: Value): Option<seq<bv8>> {
    if v.Bytes? && |v.b| > 0 then Some(v.b) else None
  }

  /** Unmarshalling one text n times, each time on top of the result: a column may be selected more than once. */
  function Reread(j: JsonCodec, text: seq<bv8>, n: nat, before: Option<Document>): Option<Option<Document>> {
    if n == 0 then Some(before)
    else
      var d := j.unmarshal(text, before);
      if d.None? then None else Reread(j, text, n - 1, d)
  }

  /** The document that n readings of a cell give; None if one of them fails. */
  function DocumentOf(j: JsonCodec, v: Value, n: nat): Option<Option<Document>> {
    if TextOf(v).None? then Some(None) else Reread(j, TextOf(v).value, n, None)
  }

  /** Every JSON text of the row can be unmarshalled as often as its column is read. */
  ghost predicate IsReadable(t: EntityType, j: JsonCodec, times: Column -> nat, r: Row) {
    forall c :: KindOf(t, c) == JsonKind ==> DocumentOf(j, Cell(r, c), times(c)).Some?
  }

  /** What the decoded entity has in its field c: the cell, if it has a value of the column's type. */
  function FieldOf(t: EntityType, j: JsonCodec, times: Column -> nat, r: Row, c: Column): Option<Value> {
    if times(c) == 0 then None
    else if KindOf(t, c) == JsonKind then
      var d := DocumentOf(j, Cell(r, c), times(c));
      if d.Some? && d.value.Some? then Some(Doc(d.value.value)) else None
    else if Typed(KindOf(t, c), Cell(r, c)) then Some(Cell(r, c))
    else None
  }

  /** Columns that the entity does not know are kept as they come. */
  function SelectedOf(t: EntityType, times: Column -> nat, r: Row, c: Column): Option<Value> {
    if times(c) > 0 && KindOf(t, c) == UnknownKind then Some(Cell(r, c)) else None
  }

  /** The entity shows the row: its ID, and every column that is read. */
  ghost predicate Reads(t: EntityType, j: JsonCodec, times: Column -> nat, r: Row, e: EntityValue) {
    && e.id == r.id
    && (forall c :: Lookup(e.fields, c) == FieldOf(t, j, times, r, c))
    && (forall c :: Lookup(e.selected, c) == SelectedOf(t, times, r, c))
  }

  // ---------------------------------------------------------------- the decoder reads rows

  function TimesIn(cols: seq<Column>): Column -> nat {
    c => Occurrences(cols, c)
  }

  /** The text of a column's holder is that of its cell, at each of its occurrences. */
  lemma {:induction false} ScannedTexts(t: EntityType, j: JsonCodec, c: Column, before: Option<Document>,
                                        cols: seq<Column>, r: Row, i: nat)
    requires KindOf(t, c) == JsonKind && i <= |cols|
    ensures Unmarshalled(j, c, before, cols, Scanned(t, cols, r), i, |cols|)
         == var text := TextOf(Cell(r, c));
            if text.None? then Some(before) else Reread(j, text.value, Occurrences(cols[i..], c), before)
    decreases |cols| - i
  {
    if i < |cols| {
      OccursNext(cols, i, c);
      var hs, text := Scanned(t, cols, r), TextOf(Cell(r, c));
      assert cols[i] == c ==> JsonText(hs[i]) == text;
      if cols[i] == c && text.Some? {
        var d := j.unmarshal(text.value, before);
        if d.Some? {
          ScannedTexts(t, j, c, d, cols, r, i + 1);
        }
      } else {
        ScannedTexts(t, j, c, before, cols, r, i + 1);
      }
    }
  }

  lemma OccursNext(cols: seq<Column>, i: nat, c: Column)
    requires i < |cols|
    ensures Occurrences(cols[i..], c) == (if cols[i] == c then 1 else 0) + Occurrences(cols[i + 1..], c)
  {
    assert cols[i..][1..] == cols[i + 1..];
  }

  lemma ScannedFits(t: EntityType, cols: seq<Column>, r: Row, k: nat)
    requires k < |cols|
    ensures HolderFits(KindOf(t, cols[k]), Scanned(t, cols, r)[k])
  {
  }

  /** Decoding a scanned row succeeds exactly if the row is readable. */
  lemma DecodesIffReadable(t: EntityType, j: JsonCodec, cols: seq<Column>, r: Row)
    ensures Decodes(t, j, ZERO, cols, Scanned(t, cols, r), 0, |cols|) <==> IsReadable(t, j, TimesIn(cols), r)
  {
    var hs := Scanned(t, cols, r);
    forall k | 0 <= k < |cols|
      ensures HolderFits(KindOf(t, cols[k]), hs[k])
    {
      ScannedFits(t, cols, r, k);
    }
    forall c | KindOf(t, c) == JsonKind
      ensures Unmarshalled(j, c, OldDocument(ZERO, c), cols, hs, 0, |cols|)
           == DocumentOf(j, Cell(r, c), TimesIn(cols)(c))
    {
      ScannedTexts(t, j, c, None, cols, r, 0);
      assert cols[0..] == cols;
    }
  }

  /** A failure names a column whose text cannot be unmarshalled. */
  ghost predicate IsCulprit(t: EntityType, j: JsonCodec, times: Column -> nat, r: Row, x: DecodeError) {
    && x.BadJson? && KindOf(t, x.column) == JsonKind
    && DocumentOf(j, Cell(r, x.column), times(x.column)).None?
  }

  lemma {:induction false} PrefixFails(j: JsonCodec, c: Column, before: Option<Document>, cols: seq<Column>,
                                       hs: seq<Holder>, i: nat, k: nat)
    requires i <= k <= |cols| <= |hs| && Unmarshalled(j, c, before, cols, hs, i, k).None?
    ensures Unmarshalled(j, c, before, cols, hs, i, |cols|).None?
    decreases k - i
  {
    if i < k {
      if cols[i] != c || JsonText(hs[i]).None? {
        PrefixFails(j, c, before, cols, hs, i + 1, k);
      } else {
        var d := j.unmarshal(JsonText(hs[i]).value, before);
        if d.Some? {
          PrefixFails(j, c, d, cols, hs, i + 1, k);
        }
      }
    }
  }

  lemma FailureHasCulprit(t: EntityType, j: JsonCodec, cols: seq<Column>, r: Row, k: nat, x: DecodeError)
    requires FailsAt(t, j, ZERO, cols, Scanned(t, cols, r), 0, k, x)
    ensures IsCulprit(t, j, TimesIn(cols), r, x)
  {
    var hs, c := Scanned(t, cols, r), cols[k];
    ScannedFits(t, cols, r, k);
    OnlyHere(t, j, cols, hs, k);
    PrefixFails(j, c, None, cols, hs, 0, k + 1);
    ScannedTexts(t, j, c, None, cols, r, 0);
    assert cols[0..] == cols;
  }

  /** What decodes up to position k, but no further, fails in the column at k. */
  lemma OnlyHere(t: EntityType, j: JsonCodec, cols: seq<Column>, hs: seq<Holder>, k: nat)
    requires k < |cols| <= |hs| && HolderFits(KindOf(t, cols[k]), hs[k])
    requires Decodes(t, j, ZERO, cols, hs, 0, k) && !Decodes(t, j, ZERO, cols, hs, 0, k + 1)
    ensures KindOf(t, cols[k]) == JsonKind && Unmarshalled(j, cols[k], None, cols, hs, 0, k + 1).None?
  {
    forall other | KindOf(t, other) == JsonKind && other != cols[k]
      ensures Unmarshalled(j, other, OldDocument(ZERO, other), cols, hs, 0, k + 1).Some?
    {
      SameUpTo(j, other, None, cols, hs, 0, k);
    }
  }

  /** Another column's position makes no difference. */
  lemma {:induction false} SameUpTo(j: JsonCodec, c: Column, before: Option<Document>, cols: seq<Column>,
                                    hs: seq<Holder>, i: nat, k: nat)
    requires i <= k < |cols| <= |hs| && cols[k] != c
    ensures Unmarshalled(j, c, before, cols, hs, i, k + 1) == Unmarshalled(j, c, before, cols, hs, i, k)
    decreases k - i
  {
    if i < k {
      if cols[i] != c || JsonText(hs[i]).None? {
        SameUpTo(j, c, before, cols, hs, i + 1, k);
      } else {
        var d := j.unmarshal(JsonText(hs[i]).value, before);
        if d.Some? {
          SameUpTo(j, c, d, cols, hs, i + 1, k);
        }
      }
    }
  }

  /** Decoding leaves the last document of a JSON column in its field. */
  lemma {:induction false} DocumentsAreRead(t: EntityType, j: JsonCodec, e: EntityValue, cols: seq<Column>,
                                            hs: seq<Holder>, i: nat, c: Column)
    requires i <= |cols| <= |hs| && AssignFrom(t, j, e, cols, hs, i).1.None? && KindOf(t, c) == JsonKind
    requires c in e.fields ==> e.fields[c].Doc?
    ensures var (e', _) := AssignFrom(t, j, e, cols, hs, i);
            && (c in e'.fields ==> e'.fields[c].Doc?)
            && Unmarshalled(j, c, OldDocument(e, c), cols, hs, i, |cols|) == Some(OldDocument(e', c))
    decreases |cols| - i
  {
    if i < |cols| {
      var e' := AssignColumn(t, j, e, cols[i], hs[i]).value;
      KindKeepsDocument(KindOf(t, cols[i]), j, e, cols[i], hs[i], c);
      KindKeepsDocs(KindOf(t, cols[i]), j, e, cols[i], hs[i], c);
      DocumentsAreRead(t, j, e', cols, hs, i + 1, c);
    }
  }

  lemma KindKeepsDocs(k: Kind, j: JsonCodec, e: EntityValue, c: Column, h: Holder, other: Column)
    requires AssignKind(k, j, e, c, h).Ok? && (other == c ==> k == JsonKind)
    requires other in e.fields ==> e.fields[other].Doc?
    ensures var e' := AssignKind(k, j, e, c, h).value; other in e'.fields ==> e'.fields[other].Doc?
  {
  }

  /** What the remaining columns leave in a field that is not JSON; a NULL leaves it alone, or resets a blob. */
  function Later(k: Kind, v: Value, occurs: bool, before: Option<Value>): Option<Value> {
    if !occurs then before
    else if k != JsonKind && Typed(k, v) then Some(v)
    else if k == BlobKind then None
    else before
  }

  lemma {:induction false} CellsAreRead(t: EntityType, j: JsonCodec, e: EntityValue, cols: seq<Column>, r: Row, i: nat,
                                        c: Column)
    requires i <= |cols| && AssignFrom(t, j, e, cols, Scanned(t, cols, r), i).1.None? && KindOf(t, c) != JsonKind
    ensures Lookup(AssignFrom(t, j, e, cols, Scanned(t, cols, r), i).0.fields, c)
         == Later(KindOf(t, c), Cell(r, c), c in cols[i..], Lookup(e.fields, c))
    decreases |cols| - i
  {
    if i < |cols| {
      assert cols[i..] == [cols[i]] + cols[i + 1..];
      var e' := AssignColumn(t, j, e, cols[i], Scanned(t, cols, r)[i]).value;
      CellIsRead(KindOf(t, cols[i]), j, e, cols[i], Cell(r, cols[i]), c);
      CellsAreRead(t, j, e', cols, r, i + 1, c);
    }
  }

  lemma CellIsRead(k: Kind, j: JsonCodec, e: EntityValue, c: Column, v: Value, other: Column)
    requires AssignKind(k, j, e, c, Fill(Slot(k), v)).Ok? && (other == c ==> k != JsonKind)
    ensures Lookup(AssignKind(k, j, e, c, Fill(Slot(k), v)).value.fields, other)
         == Later(k, v, other == c, Lookup(e.fields, other))
  {
  }

  lemma {:induction false} UnknownsAreKept(t: EntityType, j: JsonCodec, e: EntityValue, cols: seq<Column>, r: Row,
                                           i: nat, c: Column)
    requires i <= |cols| && AssignFrom(t, j, e, cols, Scanned(t, cols, r), i).1.None?
    ensures Lookup(AssignFrom(t, j, e, cols, Scanned(t, cols, r), i).0.selected, c)
         == if c in cols[i..] && KindOf(t, c) == UnknownKind then Some(Cell(r, c)) else Lookup(e.selected, c)
    decreases |cols| - i
  {
    if i < |cols| {
      assert cols[i..] == [cols[i]] + cols[i + 1..];
      var e' := AssignColumn(t, j, e, cols[i], Scanned(t, cols, r)[i]).value;
      UnknownIsKept(KindOf(t, cols[i]), j, e, cols[i], Cell(r, cols[i]), c);
      UnknownsAreKept(t, j, e', cols, r, i + 1, c);
    }
  }

  lemma UnknownIsKept(k: Kind, j: JsonCodec, e: EntityValue, c: Column, v: Value, other: Column)
    requires AssignKind(k, j, e, c, Fill(Slot(k), v)).Ok?
    ensures Lookup(AssignKind(k, j, e, c, Fill(Slot(k), v)).value.selected, other)
         == if other == c && k == UnknownKind then Some(v) else Lookup(e.selected, other)
  {
  }

  lemma IdIsRead(t: EntityType, j: JsonCodec, cols: seq<Column>, r: Row)
    requires Id in cols && AssignFrom(t, j, ZERO, cols, Scanned(t, cols, r), 0).1.None?
    ensures AssignFrom(t, j, ZERO, cols, Scanned(t, cols, r), 0).0.id == r.id
  {
    var hs := Scanned(t, cols, r);
    LastIdWinsEvenNull(t, j, ZERO, cols, hs, 0);
    assert forall k :: 0 <= k < |cols| && cols[k] == Id ==> hs[k] == NullInt64(true, r.id);
  }

  /**
    Decoding a row by any list of columns that contains the ID, repeats and unknown names included:
    it succeeds exactly if every JSON text that is read can be unmarshalled, and then the entity has
    the row's ID, in every field that is read the row's cell, and no other field.
   */
  lemma DecodingReads(t: EntityType, j: JsonCodec, cols: seq<Column>, r: Row)
    requires Id in cols
    ensures var (e, err) := AssignFrom(t, j, ZERO, cols, Scanned(t, cols, r), 0);
            match err
            case None => IsReadable(t, j, TimesIn(cols), r) && Reads(t, j, TimesIn(cols), r, e)
            case Some(x) => !IsReadable(t, j, TimesIn(cols), r) && IsCulprit(t, j, TimesIn(cols), r, x)
  {
    var hs := Scanned(t, cols, r);
    AssignSucceedsIff(t, j, ZERO, cols, hs, 0);
    DecodesIffReadable(t, j, cols, r);
    var (e, err) := AssignFrom(t, j, ZERO, cols, hs, 0);
    if err.None? {
      IdIsRead(t, j, cols, r);
      forall c
        ensures Lookup(e.fields, c) == FieldOf(t, j, TimesIn(cols), r, c)
        ensures Lookup(e.selected, c) == SelectedOf(t, TimesIn(cols), r, c)
      {
        FieldIsRead(t, j, cols, r, c);
        UnknownIsRead(t, j, cols, r, c);
      }
    } else {
      var k: nat :| FailsAt(t, j, ZERO, cols, hs, 0, k, err.value);
      FailureHasCulprit(t, j, cols, r, k, err.value);
    }
  }

  lemma FieldIsRead(t: EntityType, j: JsonCodec, cols: seq<Column>, r: Row, c: Column)
    requires AssignFrom(t, j, ZERO, cols, Scanned(t, cols, r), 0).1.None?
    ensures Lookup(AssignFrom(t, j, ZERO, cols, Scanned(t, cols, r), 0).0.fields, c)
         == FieldOf(t, j, TimesIn(cols), r, c)
  {
    if KindOf(t, c) == JsonKind {
      DocumentIsRead(t, j, cols, r, c);
    } else {
      CellsAreRead(t, j, ZERO, cols, r, 0, c);
      FromNothing(t, j, cols, r, c);
    }
  }

  lemma FromNothing(t: EntityType, j: JsonCodec, cols: seq<Column>, r: Row, c: Column)
    requires KindOf(t, c) != JsonKind
    ensures Later(KindOf(t, c), Cell(r, c), c in cols[0..], Lookup(map[], c)) == FieldOf(t, j, TimesIn(cols), r, c)
  {
    OccursIff(cols, c);
    assert cols[0..] == cols;
  }

  lemma UnknownIsRead(t: EntityType, j: JsonCodec, cols: seq<Column>, r: Row, c: Column)
    requires AssignFrom(t, j, ZERO, cols, Scanned(t, cols, r), 0).1.None?
    ensures Lookup(AssignFrom(t, j, ZERO, cols, Scanned(t, cols, r), 0).0.selected, c)
         == SelectedOf(t, TimesIn(cols), r, c)
  {
    UnknownsAreKept(t, j, ZERO, cols, r, 0, c);
    OccursIff(cols, c);
    assert cols[0..] == cols;
  }

  lemma DocumentIsRead(t: EntityType, j: JsonCodec, cols: seq<Column>, r: Row, c: Column)
    requires AssignFrom(t, j, ZERO, cols, Scanned(t, cols, r), 0).1.None? && KindOf(t, c) == JsonKind
    ensures var e := AssignFrom(t, j, ZERO, cols, Scanned(t, cols, r), 0).0;
            Lookup(e.fields, c) == FieldOf(t, j, TimesIn(cols), r, c)
  {
    var e := AssignFrom(t, j, ZERO, cols, Scanned(t, cols, r), 0).0;
    DocumentsAreRead(t, j, ZERO, cols, Scanned(t, cols, r), 0, c);
    ScannedTexts(t, j, c, None, cols, r, 0);
    assert cols[0..] == cols;
    assert DocumentOf(j, Cell(r, c), Occurrences(cols, c)) == Some(OldDocument(e, c));
    assert Lookup(e.fields, c) == if OldDocument(e, c).Some? then Some(Doc(OldDocument(e, c).value)) else None;
  }

  // ---------------------------------------------------------------- with a faithful codec

  lemma {:induction false} RereadIsFaithful(j: JsonCodec, d: Document, n: nat, before: Option<Document>)
    requires Faithful(j) && n > 0
    ensures Reread(j, j.marshal(d), n, before) == Some(Some(d))
  {
    assert DecodesBack(j, d, before);
    if n > 1 {
      RereadIsFaithful(j, d, n - 1, Some(d));
    }
  }

  /** A cell that was written comes back, however often its column is read. */
  lemma WrittenIsRead(t: EntityType, j: JsonCodec, times: Column -> nat, r: Row, c: Column, v: Value)
    requires Faithful(j) && Typed(KindOf(t, c), v) && Cell(r, c) == Encode(j, v) && times(c) > 0
    ensures FieldOf(t, j, times, r, c) == Some(v)
    ensures KindOf(t, c) == JsonKind ==> DocumentOf(j, Cell(r, c), times(c)).Some?
  {
    if v.Doc? {
      assert DecodesBack(j, v.d, None);
      RereadIsFaithful(j, v.d, times(c), None);
    }
  }
}
