/**
  Updating the deploy_tasks edge of a change order: the mutation that records calls, the edge
  specifications that `sqlSave` compiles it to, and the projection of an update's result.
 */
module EdgeUpdate {
  import opened Relational
  import opened ChangeOrderFields
  import opened QueryPlan
  import opened Projection

  datatype EdgeCall = AddIds(ids: seq<int>) | RemoveIds(ids: seq<int>) | ClearAll

  /** A Clear specification without nodes clears the whole edge. */
  datatype EdgeSpec = EdgeSpec(nodes: set<int>)

  datatype EdgeValue = EdgeValue(added: set<int>, removed: set<int>, cleared: bool)

  const UNTOUCHED := EdgeValue({}, {}, false)

  function ToSet(ids: seq<int>): set<int> {
    set x | x in ids
  }

  function AfterCall(e: EdgeValue, c: EdgeCall): EdgeValue {
    match c
    case AddIds(ids) => e.(added := e.added + ToSet(ids))
    case RemoveIds(ids) => e.(added := e.added - ToSet(ids), removed := e.removed + ToSet(ids))
    case ClearAll => e.(cleared := true)
  }

  function AfterCalls(cs: seq<EdgeCall>): EdgeValue {
    if cs == [] then UNTOUCHED else AfterCall(AfterCalls(cs[..|cs| - 1]), cs[|cs| - 1])
  }

  /** The edge part of ChangeOrderMutation. */
  class EdgeMutation {
    var added: set<int>
    var removed: set<int>
    var cleared: bool

    constructor ()
      ensures Value() == UNTOUCHED
    {
      added, removed, cleared := {}, {}, false;
    }

    function Value(): EdgeValue
      reads this
    {
      EdgeValue(added, removed, cleared)
    }

    method AddDeployTaskIDs(ids: seq<int>)
      modifies this`added
      ensures Value() == AfterCall(old(Value()), AddIds(ids))
    {
      for i := 0 to |ids|
        invariant added == old(added) + ToSet(ids[..i])
      {
        added := added + {ids[i]};
        assert ids[..i + 1] == ids[..i] + [ids[i]];
      }
      assert ids[..|ids|] == ids;
    }

    method RemoveDeployTaskIDs(ids: seq<int>)
      modifies this`added, this`removed
      ensures Value() == AfterCall(old(Value()), RemoveIds(ids))
    {
      for i := 0 to |ids|
        invariant added == old(added) - ToSet(ids[..i]) && removed == old(removed) + ToSet(ids[..i])
      {
        added := added - {ids[i]};
        removed := removed + {ids[i]};
        assert ids[..i + 1] == ids[..i] + [ids[i]];
      }
      assert ids[..|ids|] == ids;
    }

    method ClearDeployTasks()
      modifies this`cleared
      ensures Value() == AfterCall(old(Value()), ClearAll)
    {
      cleared := true;
    }

    /** Any sequence of calls. */
    method Run(cs: seq<EdgeCall>)
      requires Value() == UNTOUCHED
      modifies this
      ensures Value() == AfterCalls(cs)
    {
      for i := 0 to |cs|
        invariant Value() == AfterCalls(cs[..i])
      {
        assert cs[..i + 1][..i] == cs[..i];
        match cs[i] {
          case AddIds(ids) => AddDeployTaskIDs(ids);
          case RemoveIds(ids) => RemoveDeployTaskIDs(ids);
          case ClearAll => ClearDeployTasks();
        }
      }
      assert cs[..|cs|] == cs;
    }

    /** The three conditional appends of `sqlSave`. */
    method Compile() returns (clear: seq<EdgeSpec>, add: seq<EdgeSpec>)
      ensures forall linked :: Updated(linked, clear, add) == Effect(Value(), linked)
    {
      clear, add := [], [];
      if cleared {
        clear := clear + [EdgeSpec({})];
      }
      if removed != {} && !cleared {
        clear := clear + [EdgeSpec(removed)];
      }
      if added != {} {
        add := add + [EdgeSpec(added)];
      }
      assert |clear| <= 1 && |add| <= 1;
      assert |clear| == 1 ==> clear[1..] == [] && clear[0].nodes == if cleared then {} else removed;
      assert |add| == 1 ==> add[1..] == [] && add[0].nodes == added;
      forall linked ensures Updated(linked, clear, add) == Effect(Value(), linked) {
        UnrollUpdate(linked, clear, add);
      }
    }
  }

  function ClearEdges(linked: set<int>, specs: seq<EdgeSpec>): set<int>
    decreases specs
  {
    if specs == [] then linked
    else ClearEdges(if specs[0].nodes == {} then {} else linked - specs[0].nodes, specs[1..])
  }

  function AddEdges(linked: set<int>, specs: seq<EdgeSpec>): set<int>
    decreases specs
  {
    if specs == [] then linked else AddEdges(linked + specs[0].nodes, specs[1..])
  }

  /** The assumption on an update: Clear specifications are applied before Add specifications. */
  function Updated(linked: set<int>, clear: seq<EdgeSpec>, add: seq<EdgeSpec>): set<int> {
    AddEdges(ClearEdges(linked, clear), add)
  }

  lemma UnrollUpdate(linked: set<int>, clear: seq<EdgeSpec>, add: seq<EdgeSpec>)
    requires |clear| <= 1 && |add| <= 1
    ensures Updated(linked, clear, add)
      == (if clear == [] then linked else if clear[0].nodes == {} then {} else linked - clear[0].nodes)
        + if add == [] then {} else add[0].nodes
  {
    var kept := if clear == [] then linked else if clear[0].nodes == {} then {} else linked - clear[0].nodes;
    assert ClearEdges(linked, clear) == kept by {
      assert clear != [] ==> clear[1..] == [] && ClearEdges(kept, clear[1..]) == kept;
    }
    assert AddEdges(kept, add) == kept + if add == [] then {} else add[0].nodes by {
      assert add != [] ==> add[1..] == [] && AddEdges(kept + add[0].nodes, add[1..]) == kept + add[0].nodes;
    }
  }

  /** The linked tasks after a save, read off the mutation. */
  function Effect(e: EdgeValue, linked: set<int>): set<int> {
    (if e.cleared then {} else linked - e.removed) + e.added
  }

  /** The linked tasks if each call took effect when it was made. */
  function OneByOne(cs: seq<EdgeCall>, linked: set<int>): set<int> {
    if cs == [] then linked
    else
      var before := OneByOne(cs[..|cs| - 1], linked);
      match cs[|cs| - 1]
      case AddIds(ids) => before + ToSet(ids)
      case RemoveIds(ids) => before - ToSet(ids)
      case ClearAll => {}
  }

  /** The IDs that were waiting to be added when the edge was last cleared, and not mentioned since. */
  function Forgotten(cs: seq<EdgeCall>): set<int> {
    if cs == [] then {}
    else
      var before := Forgotten(cs[..|cs| - 1]);
      match cs[|cs| - 1]
      case AddIds(ids) => before - ToSet(ids)
      case RemoveIds(ids) => before - ToSet(ids)
      case ClearAll => AfterCalls(cs[..|cs| - 1]).added
  }

  /** A save links exactly what the calls would have linked one by one, and the forgotten IDs besides. */
  lemma {:induction false} SaveKeepsForgotten(cs: seq<EdgeCall>, linked: set<int>)
    ensures Effect(AfterCalls(cs), linked) == OneByOne(cs, linked) + Forgotten(cs)
    ensures OneByOne(cs, linked) !! Forgotten(cs)
  {
    if cs != [] {
      SaveKeepsForgotten(cs[..|cs| - 1], linked);
    }
  }

  /**
    Clearing an edge does not take back the additions made before it. The calls mean what they say,
    on every edge, exactly if each ID waiting at the last clear is removed or added again after it.
   */
  lemma SaveMeansItsCallsIff(cs: seq<EdgeCall>, linked: set<int>)
    ensures Effect(AfterCalls(cs), linked) == OneByOne(cs, linked) <==> Forgotten(cs) == {}
  {
    SaveKeepsForgotten(cs, linked);
  }

  // ---------------------------------------------------------------- ChangeOrderUpdateOne

  /** The validators of an update: only fields that are set are looked at. */
  function CheckUpdate(f: Fields): Option<Error> {
    if Type in f && !IsOneOf(f, Type, TYPES) then Some(Validation(Type))
    else if Source in f && !IsOneOf(f, Source, SOURCES) then Some(Validation(Source))
    else if Status in f && !IsOneOf(f, Status, STATUSES) then Some(Validation(Status))
    else None
  }

  /** The enums that an update sets, in the order in which they are checked. */
  function EnumsSet(f: Fields): seq<Column> {
    IfSet(f, Type) + IfSet(f, Source) + IfSet(f, Status)
  }

  function IfSet(f: Fields, c: Column): seq<Column> {
    if c in f then [c] else []
  }

  /** An update passes exactly if every enum that it sets is valid; otherwise the first that is not is the error. */
  lemma UpdateChecksWhatIsSet(f: Fields)
    ensures IsFirstUnacceptable(f, EnumsSet(f), CheckUpdate(f))
    ensures CheckUpdate(f).None? <==> forall c :: c in {Type, Source, Status} && c in f ==> Acceptable(f, c)
  {
    var enums := EnumsSet(f);
    if Type in f && !Acceptable(f, Type) {
      assert enums[0] == Type;
    } else if Source in f && !Acceptable(f, Source) {
      assert enums[|IfSet(f, Type)|] == Source;
    } else if Status in f && !Acceptable(f, Status) {
      assert enums[|IfSet(f, Type)| + |IfSet(f, Source)|] == Status;
    }
  }

  /**
    The head of sqlSave: the check, the ID, and the projection of the returned entity. The first
    failing step decides the error; the projection is the ID and then the chosen fields in order.
   */
  method UpdateProjection(f: Fields, id: Option<int>, fields: seq<Column>) returns (r: Result<seq<Column>, Error>)
    ensures match r
            case Ok(_) =>
              && (forall c :: c in {Type, Source, Status} && c in f ==> Acceptable(f, c)) && id.Some?
              && ReturnsFields(ChangeOrder, fields, r)
            case Err(e) =>
              if exists c :: c in {Type, Source, Status} && c in f && !Acceptable(f, c) then
                IsFirstUnacceptable(f, EnumsSet(f), Some(e))
              else if id.None? then e == Validation(Id)
              else ReturnsFields(ChangeOrder, fields, r)
  {
    UpdateChecksWhatIsSet(f);
    var refused := CheckUpdate(f);
    if refused.Some? {
      return Err(refused.value);
    }
    if id.None? {
      return Err(Validation(Id));
    }
    r := FieldsToReturn(ChangeOrder, fields);
  }

  /** The first invalid field is the error, and otherwise the fields are projected. */
  ghost predicate ReturnsFields(t: EntityType, fields: seq<Column>, r: Result<seq<Column>, Error>) {
    match r
    case Ok(columns) => (forall c :: c in fields ==> IsNamed((t, c))) && Projects(Columns(t), fields, columns)
    case Err(e) => IsFirstUnnamed(Map(fields, c => (t, c)), Some(e))
  }

  function Returned(t: EntityType, fields: seq<Column>): Result<seq<Column>, Error> {
    var err := InvalidField(t, fields);
    if err.Some? then Err(err.value) else Ok(SpecColumns(EmptyStage(t).(fields := fields)))
  }

  lemma FieldsAreReturned(t: EntityType, fields: seq<Column>)
    ensures ReturnsFields(t, fields, Returned(t, fields))
  {
    InvalidFieldIsFirst(t, fields);
    SpecColumnsProject(EmptyStage(t).(fields := fields));
    NamedFields(t, fields);
  }

  /** The projection loop. */
  method FieldsToReturn(t: EntityType, fields: seq<Column>) returns (r: Result<seq<Column>, Error>)
    ensures r == Returned(t, fields) && ReturnsFields(t, fields, r)
  {
    FieldsAreReturned(t, fields);
    var columns := Columns(t);
    if fields != [] {
      columns := [Id];
      for i := 0 to |fields|
        invariant ProjectedTo(t, fields, i, columns)
      {
        ProjectNext(t, fields, i, columns);
        if !ValidColumn(t, fields[i]) {
          return Err(Validation(fields[i]));
        }
        if fields[i] != Id {
          columns := columns + [fields[i]];
        }
      }
      assert fields[..|fields|] == fields;
    }
    r := Ok(columns);
  }

  /** What the loop has done before round i. */
  ghost predicate ProjectedTo(t: EntityType, fields: seq<Column>, i: nat, columns: seq<Column>) {
    && i <= |fields| && InvalidField(t, fields) == InvalidField(t, fields[i..])
    && columns == [Id] + Filter(fields[..i], NotId)
  }

  lemma ProjectNext(t: EntityType, fields: seq<Column>, i: nat, columns: seq<Column>)
    requires i < |fields| && ProjectedTo(t, fields, i, columns)
    ensures if ValidColumn(t, fields[i])
            then ProjectedTo(t, fields, i + 1, if fields[i] != Id then columns + [fields[i]] else columns)
            else InvalidField(t, fields) == Some(Validation(fields[i]))
  {
    assert fields[i..][1..] == fields[i + 1..];
    FilterNext(fields, i, NotId);
  }

  lemma NamedFields(t: EntityType, fields: seq<Column>)
    ensures InvalidField(t, fields).None? ==> forall c :: c in fields ==> IsNamed((t, c))
  {
    InvalidFieldIsFirst(t, fields);
    if InvalidField(t, fields).None? {
      var fs := Map(fields, c => (t, c));
      forall c | c in fields
        ensures IsNamed((t, c))
      {
        var k :| 0 <= k < |fields| && fields[k] == c;
        assert IsNamed(fs[k]);
      }
    }
  }
}
