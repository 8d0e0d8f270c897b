/**
  Reading and writing rows: the decoder that every generated entity carries (`scanValues` and
  `assignValues`) and the encoder of the create builder (`createSpec`), once for all entities.
  The per-column switches of the source are the table `KindOf`.
 */
module RowCodec {
  import opened Relational

  /** What `scanValues` allocates for a column, and what the driver leaves in it. */
  datatype Holder =
    | NullInt64(valid: bool, int64: int)
    | NullString(valid: bool, str: string)
    | NullTime(valid: bool, time: int)
    | RawBytes(bytes: Option<seq<bv8>>)
    | UnknownType(raw: Value)

  datatype DecodeError = MismatchedCount | UnexpectedType(column: Column) | BadJson(column: Column)

  /** encoding/json. Unmarshalling may merge into the value that is already there. */
  datatype JsonCodec = JsonCodec(marshal: Document -> seq<bv8>,
                                 unmarshal: (seq<bv8>, Option<Document>) -> Option<Document>)

  /** The assumption on JSON: encodings are not empty and decode to what was encoded. */
  ghost predicate Faithful(j: JsonCodec) {
    forall d: Document, before: Option<Document> :: DecodesBack(j, d, before)
  }

  predicate DecodesBack(j: JsonCodec, d: Document, before: Option<Document>) {
    |j.marshal(d)| > 0 && j.unmarshal(j.marshal(d), before) == Some(d)
  }

  /** The columns of an entity. A field without a binding holds its zero value. */
  datatype EntityValue = EntityValue(id: int, fields: Fields, selected: Fields)

  const ZERO := EntityValue(0, map[], map[])

  function Slot(k: Kind): Holder {
    match k
    case JsonKind | BlobKind => RawBytes(None)
    case IdKind | IntKind => NullInt64(false, 0)
    case TextKind => NullString(false, "")
    case TimeKind => NullTime(false, 0)
    case UnknownKind => UnknownType(Null)
  }

  /** The driver scans one cell into a holder of its type; NULL resets the holder. */
  function Fill(h: Holder, v: Value): Holder {
    match h
    case NullInt64(_, _) => if v.Int? then NullInt64(true, v.i) else NullInt64(false, 0)
    case NullString(_, _) => if v.Text? then NullString(true, v.s) else NullString(false, "")
    case NullTime(_, _) => if v.Time? then NullTime(true, v.t) else NullTime(false, 0)
    case RawBytes(_) => if v.Bytes? then RawBytes(Some(v.b)) else RawBytes(None)
    case UnknownType(_) => UnknownType(v)
  }

  function HolderValue(h: Holder): Value {
    match h
    case NullInt64(valid, i) => if valid then Int(i) else Null
    case NullString(valid, s) => if valid then Text(s) else Null
    case NullTime(valid, t) => if valid then Time(t) else Null
    case RawBytes(b) => if b.Some? then Bytes(b.value) else Null
    case UnknownType(v) => v
  }

  function OldDocument(e: EntityValue, c: Column): Option<Document> {
    if c in e.fields && e.fields[c].Doc? then Some(e.fields[c].d) else None
  }

  /** The `assignValues` switch at one column. */
  function AssignColumn(t: EntityType, j: JsonCodec, e: EntityValue, c: Column,
                        h: Holder): Result<EntityValue, DecodeError>
  {
    AssignKind(KindOf(t, c), j, e, c, h)
  }

  /** One arm of the switch. */
  function AssignKind(k: Kind, j: JsonCodec, e: EntityValue, c: Column, h: Holder): Result<EntityValue, DecodeError> {
    match k
    case IdKind =>
      if h.NullInt64? then Ok(e.(id := h.int64)) else Err(UnexpectedType(c))
    case IntKind =>
      if !h.NullInt64? then Err(UnexpectedType(c))
      else Ok(if h.valid then e.(fields := e.fields[c := Int(h.int64)]) else e)
    case TextKind =>
      if !h.NullString? then Err(UnexpectedType(c))
      else Ok(if h.valid then e.(fields := e.fields[c := Text(h.str)]) else e)
    case TimeKind =>
      if !h.NullTime? then Err(UnexpectedType(c))
      else Ok(if h.valid then e.(fields := e.fields[c := Time(h.time)]) else e)
    case JsonKind =>
      if !h.RawBytes? then Err(UnexpectedType(c))
      else if h.bytes.None? || |h.bytes.value| == 0 then Ok(e)
      else
        var decoded := j.unmarshal(h.bytes.value, OldDocument(e, c));
        if decoded.None? then Err(BadJson(c))
        else Ok(e.(fields := e.fields[c := Doc(decoded.value)]))
    case BlobKind =>
      if !h.RawBytes? then Err(UnexpectedType(c))
      else Ok(e.(fields := if h.bytes.None? then e.fields - {c} else e.fields[c := Bytes(h.bytes.value)]))
    case UnknownKind => Ok(e.(selected := e.selected[c := HolderValue(h)]))
  }

  /** The switch applied to columns i, i+1, ... until one fails. */
  function AssignFrom(t: EntityType, j: JsonCodec, e: EntityValue, cols: seq<Column>, hs: seq<Holder>, i: nat)
    : (EntityValue, Option<DecodeError>)
    requires i <= |cols| <= |hs|
    decreases |cols| - i
  {
    if i == |cols| then (e, None)
    else
      match AssignColumn(t, j, e, cols[i], hs[i])
      case Err(x) => (e, Some(x))
      case Ok(e') => AssignFrom(t, j, e', cols, hs, i + 1)
  }

  function Slots(t: EntityType, cols: seq<Column>): seq<Holder> {
    Map(cols, c => Slot(KindOf(t, c)))
  }

  /** What one database row leaves in the holders allocated for a projection. */
  function Scanned(t: EntityType, cols: seq<Column>, r: Row): (hs: seq<Holder>)
    ensures |hs| == |cols|
  {
    seq(|cols|, i requires 0 <= i < |cols| => Fill(Slot(KindOf(t, cols[i])), Cell(r, cols[i])))
  }

  // ---------------------------------------------------------------- when decoding succeeds

  /** The type assertions of the switch. */
  predicate HolderFits(k: Kind, h: Holder) {
    match k
    case IdKind | IntKind => h.NullInt64?
    case TextKind => h.NullString?
    case TimeKind => h.NullTime?
    case JsonKind | BlobKind => h.RawBytes?
    case UnknownKind => true
  }

  /** The JSON text in a holder, if there is any. */
  function JsonText(h: Holder): Option<seq<bv8>> {
    if h.RawBytes? && h.bytes.Some? && |h.bytes.value| > 0 then h.bytes else None
  }

  /** Unmarshalling the occurrences of one column, at positions i, ..., hi - 1, each on top of the one before. */
  function Unmarshalled(j: JsonCodec, c: Column, before: Option<Document>, cols: seq<Column>, hs: seq<Holder>,
                        i: nat, hi: nat): Option<Option<Document>>
    requires i <= hi <= |cols| <= |hs|
    decreases hi - i
  {
    if i == hi then Some(before)
    else if cols[i] != c || JsonText(hs[i]).None? then Unmarshalled(j, c, before, cols, hs, i + 1, hi)
    else
      var d := j.unmarshal(JsonText(hs[i]).value, before);
      if d.None? then None else Unmarshalled(j, c, d, cols, hs, i + 1, hi)
  }

  /** Positions i, ..., hi - 1 hold holders of the right types, and every JSON text in them can be unmarshalled. */
  ghost predicate Decodes(t: EntityType, j: JsonCodec, e: EntityValue, cols: seq<Column>, hs: seq<Holder>,
                          i: nat, hi: nat)
    requires i <= hi <= |cols| <= |hs|
  {
    && (forall k :: i <= k < hi ==> HolderFits(KindOf(t, cols[k]), hs[k]))
    && (forall c :: KindOf(t, c) == JsonKind ==> Unmarshalled(j, c, OldDocument(e, c), cols, hs, i, hi).Some?)
  }

  lemma DecodesNext(t: EntityType, j: JsonCodec, e: EntityValue, cols: seq<Column>, hs: seq<Holder>, i: nat, hi: nat)
    requires i < hi <= |cols| <= |hs|
    ensures var r := AssignColumn(t, j, e, cols[i], hs[i]);
            Decodes(t, j, e, cols, hs, i, hi) <==> r.Ok? && Decodes(t, j, r.value, cols, hs, i + 1, hi)
  {
    var r := AssignColumn(t, j, e, cols[i], hs[i]);
    if r.Ok? {
      forall c | KindOf(t, c) == JsonKind
        ensures Unmarshalled(j, c, OldDocument(e, c), cols, hs, i, hi)
             == Unmarshalled(j, c, OldDocument(r.value, c), cols, hs, i + 1, hi)
      {
        KindKeepsDocument(KindOf(t, cols[i]), j, e, cols[i], hs[i], c);
      }
    } else if HolderFits(KindOf(t, cols[i]), hs[i]) {
      KindFails(KindOf(t, cols[i]), j, e, cols[i], hs[i]);
      assert Unmarshalled(j, cols[i], OldDocument(e, cols[i]), cols, hs, i, hi).None?;
    }
  }

  lemma KindKeepsDocument(k: Kind, j: JsonCodec, e: EntityValue, c: Column, h: Holder, other: Column)
    requires AssignKind(k, j, e, c, h).Ok? && (other == c ==> k == JsonKind)
    ensures OldDocument(AssignKind(k, j, e, c, h).value, other)
         == if other == c && JsonText(h).Some? then j.unmarshal(JsonText(h).value, OldDocument(e, c))
            else OldDocument(e, other)
    ensures other == c && JsonText(h).Some? ==> j.unmarshal(JsonText(h).value, OldDocument(e, c)).Some?
  {
  }

  lemma KindFails(k: Kind, j: JsonCodec, e: EntityValue, c: Column, h: Holder)
    requires AssignKind(k, j, e, c, h).Err?
    ensures AssignKind(k, j, e, c, h).error == if HolderFits(k, h) then BadJson(c) else UnexpectedType(c)
    ensures HolderFits(k, h) ==>
              k == JsonKind && JsonText(h).Some? && j.unmarshal(JsonText(h).value, OldDocument(e, c)).None?
  {
  }

  /**
    Decoding succeeds exactly if every holder has the type its column asks for and every JSON text
    can be unmarshalled; otherwise the error is that of the first position at which this ends.
   */
  lemma {:induction false} AssignSucceedsIff(t: EntityType, j: JsonCodec, e: EntityValue, cols: seq<Column>,
                                             hs: seq<Holder>, i: nat)
    requires i <= |cols| <= |hs|
    ensures var (_, err) := AssignFrom(t, j, e, cols, hs, i);
            match err
            case None => Decodes(t, j, e, cols, hs, i, |cols|)
            case Some(x) => !Decodes(t, j, e, cols, hs, i, |cols|) && FailsFirst(t, j, e, cols, hs, i, x)
    decreases |cols| - i
  {
    if i < |cols| {
      DecodesNext(t, j, e, cols, hs, i, |cols|);
      var r := AssignColumn(t, j, e, cols[i], hs[i]);
      if r.Ok? {
        AssignSucceedsIff(t, j, r.value, cols, hs, i + 1);
        var err := AssignFrom(t, j, r.value, cols, hs, i + 1).1;
        if err.Some? {
          FailsLater(t, j, e, cols, hs, i, err.value);
        }
      } else {
        KindFails(KindOf(t, cols[i]), j, e, cols[i], hs[i]);
        DecodesNext(t, j, e, cols, hs, i, i + 1);
        assert FailsAt(t, j, e, cols, hs, i, i, r.error);
      }
    }
  }

  /** Everything decodes up to position k, and there it ends with this error. */
  ghost predicate FailsAt(t: EntityType, j: JsonCodec, e: EntityValue, cols: seq<Column>, hs: seq<Holder>, i: nat,
                          k: nat, x: DecodeError)
    requires i <= |cols| <= |hs|
  {
    && i <= k < |cols| && Decodes(t, j, e, cols, hs, i, k) && !Decodes(t, j, e, cols, hs, i, k + 1)
    && x == if HolderFits(KindOf(t, cols[k]), hs[k]) then BadJson(cols[k]) else UnexpectedType(cols[k])
  }

  ghost predicate FailsFirst(t: EntityType, j: JsonCodec, e: EntityValue, cols: seq<Column>, hs: seq<Holder>, i: nat,
                             x: DecodeError)
    requires i <= |cols| <= |hs|
  {
    exists k: nat :: FailsAt(t, j, e, cols, hs, i, k, x)
  }

  lemma FailsLater(t: EntityType, j: JsonCodec, e: EntityValue, cols: seq<Column>, hs: seq<Holder>, i: nat,
                   x: DecodeError)
    requires i < |cols| <= |hs| && AssignColumn(t, j, e, cols[i], hs[i]).Ok?
    requires FailsFirst(t, j, AssignColumn(t, j, e, cols[i], hs[i]).value, cols, hs, i + 1, x)
    ensures FailsFirst(t, j, e, cols, hs, i, x)
  {
    var k: nat :| FailsAt(t, j, AssignColumn(t, j, e, cols[i], hs[i]).value, cols, hs, i + 1, k, x);
    DecodesNext(t, j, e, cols, hs, i, k);
    DecodesNext(t, j, e, cols, hs, i, k + 1);
    assert FailsAt(t, j, e, cols, hs, i, k, x);
  }

  /** An entity object and its edges. `many` is nil until an eager load initialises it. */
  class Entity {
    var id: int
    var fields: Fields
    var selected: Fields
    var many: Option<seq<Entity>>
    var one: Entity?
    var loaded: bool

    constructor ()
      ensures Value() == ZERO && many == None && one == null && !loaded
    {
      id, fields, selected := 0, map[], map[];
      many, one, loaded := None, null, false;
    }

    ghost function Value(): EntityValue
      reads this
    {
      EntityValue(id, fields, selected)
    }

    /** The owner edge, `certificate_deployments *int` in the source. */
    function ForeignKey(): Option<int>
      reads this`fields
    {
      if CertificateFk in fields && fields[CertificateFk].Int? then Some(fields[CertificateFk].i) else None
    }

    method AssignValues(t: EntityType, j: JsonCodec, columns: seq<Column>, values: seq<Holder>)
      returns (err: Option<DecodeError>)
      modifies this`id, this`fields, this`selected
      ensures |values| < |columns| ==> err == Some(MismatchedCount) && Value() == old(Value())
      ensures |columns| <= |values| ==> (Value(), err) == AssignFrom(t, j, old(Value()), columns, values, 0)
      ensures |columns| <= |values| ==>
                match err
                case None => Decodes(t, j, old(Value()), columns, values, 0, |columns|)
                case Some(x) =>
                  && !Decodes(t, j, old(Value()), columns, values, 0, |columns|)
                  && FailsFirst(t, j, old(Value()), columns, values, 0, x)
    {
      if |columns| <= |values| {
        AssignSucceedsIff(t, j, Value(), columns, values, 0);
      }
      if |values| < |columns| {
        return Some(MismatchedCount);
      }
      for i := 0 to |columns|
        invariant AssignFrom(t, j, old(Value()), columns, values, 0)
               == AssignFrom(t, j, Value(), columns, values, i)
      {
        var c := columns[i];
        match KindOf(t, c) {
          case IdKind =>
            if !values[i].NullInt64? { return Some(UnexpectedType(c)); }
            id := values[i].int64;
          case IntKind =>
            if !values[i].NullInt64? { return Some(UnexpectedType(c)); }
            if values[i].valid { fields := fields[c := Int(values[i].int64)]; }
          case TextKind =>
            if !values[i].NullString? { return Some(UnexpectedType(c)); }
            if values[i].valid { fields := fields[c := Text(values[i].str)]; }
          case TimeKind =>
            if !values[i].NullTime? { return Some(UnexpectedType(c)); }
            if values[i].valid { fields := fields[c := Time(values[i].time)]; }
          case JsonKind =>
            if !values[i].RawBytes? { return Some(UnexpectedType(c)); }
            if values[i].bytes.Some? && |values[i].bytes.value| > 0 {
              var before := if c in fields && fields[c].Doc? then Some(fields[c].d) else None;
              var decoded := j.unmarshal(values[i].bytes.value, before);
              if decoded.None? { return Some(BadJson(c)); }
              fields := fields[c := Doc(decoded.value)];
            }
          case BlobKind =>
            if !values[i].RawBytes? { return Some(UnexpectedType(c)); }
            fields := if values[i].bytes.None? then fields - {c} else fields[c := Bytes(values[i].bytes.value)];
          case UnknownKind =>
            selected := selected[c := HolderValue(values[i])];
        }
      }
      err := None;
    }
  }

  method ScanValues(t: EntityType, columns: seq<Column>) returns (values: array<Holder>)
    ensures fresh(values) && values[..] == Slots(t, columns)
  {
    values := new Holder[|columns|](_ => UnknownType(Null));
    for i := 0 to |columns|
      invariant forall k :: 0 <= k < i ==> values[k] == Slot(KindOf(t, columns[k]))
    {
      match KindOf(t, columns[i]) {
        case JsonKind | BlobKind => values[i] := RawBytes(None);
        case IdKind | IntKind => values[i] := NullInt64(false, 0);
        case TextKind => values[i] := NullString(false, "");
        case TimeKind => values[i] := NullTime(false, 0);
        case UnknownKind => values[i] := UnknownType(Null);
      }
    }
  }

  // ---------------------------------------------------------------- decoding any column list

  /** Filling never changes a holder's type, so allocated holders never mismatch. */
  lemma {:induction false} ScannedNeverMismatches(t: EntityType, j: JsonCodec, e: EntityValue, cols: seq<Column>,
                                                  hs: seq<Holder>,
                                                  cells: seq<Value>, i: nat)
    requires i <= |cols| == |hs| == |cells|
    requires forall k :: 0 <= k < |cols| ==> hs[k] == Fill(Slot(KindOf(t, cols[k])), cells[k])
    ensures var (_, err) := AssignFrom(t, j, e, cols, hs, i);
            err.None? || (err.value.BadJson? && KindOf(t, err.value.column) == JsonKind)
    decreases |cols| - i
  {
    if i < |cols| {
      var r := AssignColumn(t, j, e, cols[i], hs[i]);
      if r.Ok? {
        ScannedNeverMismatches(t, j, r.value, cols, hs, cells, i + 1);
      }
    }
  }

  /** Whether a holder makes its arm of the switch write the field. A NULL ID is written as 0. */
  predicate Writes(k: Kind, h: Holder) {
    match k
    case IdKind | BlobKind => true
    case IntKind => h.NullInt64? && h.valid
    case TextKind => h.NullString? && h.valid
    case TimeKind => h.NullTime? && h.valid
    case JsonKind => h.RawBytes? && h.bytes.Some? && |h.bytes.value| > 0
    case UnknownKind => false
  }

  /** A field none of whose remaining holders writes keeps its value. */
  lemma {:induction false} NullsLeaveFieldAlone(t: EntityType, j: JsonCodec, e: EntityValue, cols: seq<Column>,
                                                hs: seq<Holder>,
                                                i: nat, c: Column)
    requires i <= |cols| <= |hs|
    requires forall k :: i <= k < |cols| && cols[k] == c ==> !Writes(KindOf(t, c), hs[k])
    requires AssignFrom(t, j, e, cols, hs, i).1.None?
    ensures var (e', _) := AssignFrom(t, j, e, cols, hs, i);
            (c in e'.fields <==> c in e.fields) && (c in e.fields ==> e'.fields[c] == e.fields[c])
    decreases |cols| - i
  {
    if i < |cols| {
      KindLeavesField(KindOf(t, cols[i]), j, e, cols[i], hs[i], c);
      NullsLeaveFieldAlone(t, j, AssignColumn(t, j, e, cols[i], hs[i]).value, cols, hs, i + 1, c);
    }
  }

  lemma KindLeavesField(k: Kind, j: JsonCodec, e: EntityValue, c: Column, h: Holder, other: Column)
    requires AssignKind(k, j, e, c, h).Ok? && (c == other ==> !Writes(k, h))
    ensures Lookup(AssignKind(k, j, e, c, h).value.fields, other) == Lookup(e.fields, other)
  {
  }

  /**
    When a NULL cell leaves the entity as it was: always for numbers, texts, times and documents;
    an ID must already be 0, a blob must already be nil, and a dynamic column already NULL.
   */
  lemma NullLeavesEntityIff(t: EntityType, j: JsonCodec, e: EntityValue, c: Column)
    ensures AssignColumn(t, j, e, c, Fill(Slot(KindOf(t, c)), Null)) == Ok(e) <==>
            match KindOf(t, c)
            case IdKind => e.id == 0
            case BlobKind => c !in e.fields
            case UnknownKind => c in e.selected && e.selected[c] == Null
            case _ => true
  {
    NullOfKind(KindOf(t, c), j, e, c);
  }

  lemma NullOfKind(k: Kind, j: JsonCodec, e: EntityValue, c: Column)
    ensures AssignKind(k, j, e, c, Fill(Slot(k), Null)) == Ok(e) <==>
            match k
            case IdKind => e.id == 0
            case BlobKind => c !in e.fields
            case UnknownKind => c in e.selected && e.selected[c] == Null
            case _ => true
  {
    match k
    case BlobKind =>
      if c !in e.fields { assert e.fields - {c} == e.fields; }
    case UnknownKind =>
      if c in e.selected && e.selected[c] == Null { assert e.selected[c := Null] == e.selected; }
    case IdKind | IntKind | TextKind | TimeKind | JsonKind =>
  }

  /** What column k leaves in its own field, given the document that was there. */
  function Written(t: EntityType, j: JsonCodec, c: Column, h: Holder, before: Option<Document>): Option<Value> {
    match KindOf(t, c)
    case IntKind => if h.NullInt64? then Some(Int(h.int64)) else None
    case TextKind => if h.NullString? then Some(Text(h.str)) else None
    case TimeKind => if h.NullTime? then Some(Time(h.time)) else None
    case BlobKind => if h.RawBytes? && h.bytes.Some? then Some(Bytes(h.bytes.value)) else None
    case JsonKind =>
      if h.RawBytes? && h.bytes.Some? then
        var d := j.unmarshal(h.bytes.value, before);
        if d.Some? then Some(Doc(d.value)) else None
      else None
    case _ => None
  }

  function Lookup(f: Fields, c: Column): Option<Value> {
    if c in f then Some(f[c]) else None
  }

  /**
    The last holder that writes a column decides its field, for every column list, with repeats
    and unknown columns. A document decodes on top of what earlier occurrences left.
   */
  lemma {:induction false} LastWriteWins(t: EntityType, j: JsonCodec, e: EntityValue, cols: seq<Column>,
                                         hs: seq<Holder>,
                                         i: nat, k: nat) returns (before: Option<Document>)
    requires i <= k < |cols| <= |hs|
    requires KindOf(t, cols[k]) != IdKind && Writes(KindOf(t, cols[k]), hs[k])
    requires forall l :: k < l < |cols| && cols[l] == cols[k] ==> !Writes(KindOf(t, cols[k]), hs[l])
    requires AssignFrom(t, j, e, cols, hs, i).1.None?
    ensures Lookup(AssignFrom(t, j, e, cols, hs, i).0.fields, cols[k]) == Written(t, j, cols[k], hs[k], before)
    ensures (forall l :: i <= l < k && cols[l] == cols[k] ==> !Writes(KindOf(t, cols[k]), hs[l]))
            ==> before == OldDocument(e, cols[k])
    decreases k - i
  {
    var e' := AssignColumn(t, j, e, cols[i], hs[i]).value;
    if i == k {
      before := OldDocument(e, cols[k]);
      NullsLeaveFieldAlone(t, j, e', cols, hs, i + 1, cols[k]);
    } else {
      before := LastWriteWins(t, j, e', cols, hs, i + 1, k);
    }
  }

  /** The ID is the last ID holder's number, and a NULL one is not skipped: it resets the ID to 0. */
  lemma {:induction false} LastIdWinsEvenNull(t: EntityType, j: JsonCodec, e: EntityValue, cols: seq<Column>,
                                              hs: seq<Holder>,
                                              i: nat)
    requires i <= |cols| <= |hs|
    requires AssignFrom(t, j, e, cols, hs, i).1.None?
    ensures var e' := AssignFrom(t, j, e, cols, hs, i).0;
            if exists k :: i <= k < |cols| && cols[k] == Id
            then exists k :: i <= k < |cols| && cols[k] == Id && hs[k].NullInt64? && e'.id == hs[k].int64
                             && forall l :: k < l < |cols| ==> cols[l] != Id
            else e'.id == e.id
    decreases |cols| - i
  {
    if i < |cols| {
      var e' := AssignColumn(t, j, e, cols[i], hs[i]).value;
      LastIdWinsEvenNull(t, j, e', cols, hs, i + 1);
      assert KindOf(t, cols[i]) == IdKind <==> cols[i] == Id;
      if cols[i] == Id && !exists k :: i + 1 <= k < |cols| && cols[k] == Id {
        assert AssignFrom(t, j, e, cols, hs, i).0.id == hs[i].int64;
      }
    }
  }

  // ---------------------------------------------------------------- writing, then reading back

  /** The values a create mutation can carry for a column. */
  predicate Typed(k: Kind, v: Value) {
    match k
    case IntKind => v.Int?
    case TextKind => v.Text?
    case TimeKind => v.Time?
    case JsonKind => v.Doc?
    case BlobKind => v.Bytes?
    case _ => false
  }

  predicate TypedFields(t: EntityType, f: Fields) {
    forall c :: c in f ==> Typed(KindOf(t, c), f[c])
  }

  function Encode(j: JsonCodec, v: Value): Value {
    if v.Doc? then Bytes(j.marshal(v.d)) else v
  }

  /** The row that an INSERT of these fields stores; columns that were not set hold NULL. */
  function Stored(j: JsonCodec, id: int, f: Fields): Row {
    Row(id, map c | c in f :: Encode(j, f[c]))
  }

  /** The entity after one more column of the inserted row has been read. */
  function AfterRead(e: EntityValue, f: Fields, id: int, c: Column): EntityValue {
    e.(id := if c == Id then id else e.id, fields := if c in f then e.fields[c := f[c]] else e.fields)
  }

  predicate Within(small: Fields, big: Fields) {
    forall c :: c in small ==> c in big && small[c] == big[c]
  }

  lemma ReadColumn(t: EntityType, j: JsonCodec, f: Fields, id: int, e: EntityValue, c: Column)
    requires Faithful(j) && TypedFields(t, f) && Within(e.fields, f) && KindOf(t, c) != UnknownKind
    ensures AssignColumn(t, j, e, c, Fill(Slot(KindOf(t, c)), Cell(Stored(j, id, f), c))) == Ok(AfterRead(e, f, id, c))
  {
    assert c in f ==> Typed(KindOf(t, c), f[c]);
    assert KindOf(t, c) == IdKind <==> c == Id;
    ReadKind(KindOf(t, c), j, f, id, e, c);
  }

  lemma ReadKind(k: Kind, j: JsonCodec, f: Fields, id: int, e: EntityValue, c: Column)
    requires Faithful(j) && Within(e.fields, f) && k != UnknownKind
    requires (k == IdKind <==> c == Id) && (c in f ==> Typed(k, f[c]))
    ensures AssignKind(k, j, e, c, Fill(Slot(k), Cell(Stored(j, id, f), c))) == Ok(AfterRead(e, f, id, c))
  {
    if c !in f {
      assert e.fields - {c} == e.fields;
      assert c != Id ==> Cell(Stored(j, id, f), c) == Null;
    } else {
      assert c != Id && Cell(Stored(j, id, f), c) == Encode(j, f[c]);
      if f[c].Doc? {
        assert DecodesBack(j, f[c].d, OldDocument(e, c));
      }
    }
  }

  lemma ReadOne(t: EntityType, j: JsonCodec, f: Fields, id: int, e: EntityValue, cols: seq<Column>, i: nat)
    requires Faithful(j) && TypedFields(t, f) && Within(e.fields, f) && i < |cols| && KindOf(t, cols[i]) != UnknownKind
    ensures var hs := Scanned(t, cols, Stored(j, id, f));
            AssignFrom(t, j, e, cols, hs, i) == AssignFrom(t, j, AfterRead(e, f, id, cols[i]), cols, hs, i + 1)
  {
    ReadColumn(t, j, f, id, e, cols[i]);
  }

  /** The ID and the set fields that remain to be read, merged over what has been read. */
  lemma {:induction false} ReadBackFrom(t: EntityType, j: JsonCodec, f: Fields, id: int, e: EntityValue,
                                        cols: seq<Column>, i: nat)
    requires Faithful(j) && TypedFields(t, f) && Within(e.fields, f) && i <= |cols|
    requires forall k :: 0 <= k < |cols| ==> KindOf(t, cols[k]) != UnknownKind
    ensures var (e', err) := AssignFrom(t, j, e, cols, Scanned(t, cols, Stored(j, id, f)), i);
            && err == None && e'.selected == e.selected
            && e'.id == (if Id in cols[i..] then id else e.id)
            && Within(e'.fields, f)
            && forall c :: c in e'.fields <==> c in e.fields || (c in f && c in cols[i..])
    decreases |cols| - i
  {
    if i < |cols| {
      var e' := AfterRead(e, f, id, cols[i]);
      ReadOne(t, j, f, id, e, cols, i);
      ReadBackFrom(t, j, f, id, e', cols, i + 1);
      assert cols[i..] == [cols[i]] + cols[i + 1..];
    }
  }

  /**
    Reading back what was created is the identity: a fresh entity decoded from the inserted row
    is the entity that `createSpec` returned with its ID, under any permutation, and any
    repetition, of a projection that covers the ID and the fields that were set.
   */
  lemma ReadBackIsIdentity(t: EntityType, j: JsonCodec, f: Fields, id: int, cols: seq<Column>)
    requires Faithful(j) && TypedFields(t, f)
    requires forall c :: c in cols ==> KindOf(t, c) != UnknownKind
    requires Id in cols && forall c :: c in f ==> c in cols
    ensures AssignFrom(t, j, ZERO, cols, Scanned(t, cols, Stored(j, id, f)), 0) == (EntityValue(id, f, map[]), None)
  {
    ReadBackFrom(t, j, f, id, ZERO, cols, 0);
    assert cols[0..] == cols;
    assert AssignFrom(t, j, ZERO, cols, Scanned(t, cols, Stored(j, id, f)), 0).0.fields == f;
  }
}
