/** Duplicates, sorting and joins, where a hop starts, and the terminal operations. */
module QueryTheorems {
  import opened Relational
  import opened ChangeOrderFields
  import opened QueryPlan

  // ---------------------------------------------------------------- duplicates

  /** Equal IDs mean equal rows: the source may repeat a row, never change it. */
  ghost predicate Coherent(rs: seq<Row>) {
    forall a, b :: 0 <= a < |rs| && 0 <= b < |rs| && rs[a].id == rs[b].id ==> rs[a] == rs[b]
  }

  function Others(cols: seq<Column>, rs: seq<Row>): seq<Row>
    requires rs != []
  {
    Filter(rs[1..], Differs(cols, rs[0]))
  }

  lemma {:induction false} DistinctIsSubset(cols: seq<Column>, rs: seq<Row>, y: Row)
    requires y in Distinct(cols, rs)
    ensures y in rs
    decreases |rs|
  {
    if y != rs[0] {
      DistinctIsSubset(cols, Others(cols, rs), y);
      assert y in rs[1..];
    }
  }

  lemma {:induction false} DistinctCoversAll(cols: seq<Column>, rs: seq<Row>, r: Row) returns (y: Row)
    requires r in rs
    ensures y in Distinct(cols, rs) && Project(cols, y) == Project(cols, r)
    decreases |rs|
  {
    if Project(cols, r) == Project(cols, rs[0]) {
      y := rs[0];
    } else {
      assert r in rs[1..];
      y := DistinctCoversAll(cols, Others(cols, rs), r);
    }
  }

  ghost predicate NoRepeats(cols: seq<Column>, ys: seq<Row>) {
    forall a, b :: 0 <= a < b < |ys| ==> Project(cols, ys[a]) != Project(cols, ys[b])
  }

  lemma {:induction false} DistinctHasNoRepeats(cols: seq<Column>, rs: seq<Row>)
    ensures NoRepeats(cols, Distinct(cols, rs))
    decreases |rs|
  {
    if rs != [] {
      var rest := Distinct(cols, Others(cols, rs));
      DistinctHasNoRepeats(cols, Others(cols, rs));
      forall b | 0 <= b < |rest|
        ensures Project(cols, rest[b]) != Project(cols, rs[0])
      {
        DistinctIsSubset(cols, Others(cols, rs), rest[b]);
      }
      assert Distinct(cols, rs) == [rs[0]] + rest;
    }
  }

  /** Two projections that identify the same rows have the same DISTINCT. */
  lemma {:induction false} DistinctDependsOnIdentity(c1: seq<Column>, c2: seq<Column>, rs: seq<Row>)
    requires forall a, b :: a in rs && b in rs ==>
               (Project(c1, a) == Project(c1, b) <==> Project(c2, a) == Project(c2, b))
    ensures Distinct(c1, rs) == Distinct(c2, rs)
    decreases |rs|
  {
    if rs != [] {
      assert rs[0] in rs && forall r :: r in rs[1..] ==> r in rs;
      FilterSame(rs[1..], Differs(c1, rs[0]), Differs(c2, rs[0]));
      assert Others(c1, rs) == Others(c2, rs);
      DistinctDependsOnIdentity(c1, c2, Others(c1, rs));
    }
  }

  lemma ProjectWithId(cols: seq<Column>, a: Row, b: Row)
    requires Id in cols && Project(cols, a) == Project(cols, b)
    ensures a.id == b.id
  {
    var i :| 0 <= i < |cols| && cols[i] == Id;
    assert Project(cols, a)[i] == Cell(a, Id) && Project(cols, b)[i] == Cell(b, Id);
  }

  /** With the ID among the columns, DISTINCT keeps the first row of each entity. */
  lemma DistinctById(c1: seq<Column>, c2: seq<Column>, rs: seq<Row>)
    requires Id in c1 && Id in c2 && Coherent(rs)
    ensures Distinct(c1, rs) == Distinct(c2, rs)
  {
    forall a, b | a in rs && b in rs
      ensures Project(c1, a) == Project(c1, b) <==> Project(c2, a) == Project(c2, b)
    {
      if Project(c1, a) == Project(c1, b) { ProjectWithId(c1, a, b); }
      if Project(c2, a) == Project(c2, b) { ProjectWithId(c2, a, b); }
    }
    DistinctDependsOnIdentity(c1, c2, rs);
  }

  // ---------------------------------------------------------------- sorting

  lemma {:induction false} InsertKeepsRows(keys: seq<OrderKey>, r: Row, rs: seq<Row>)
    ensures multiset(InsertSorted(keys, r, rs)) == multiset{r} + multiset(rs)
  {
    if rs != [] && Before(keys, rs[0], r) {
      InsertKeepsRows(keys, r, rs[1..]);
      assert rs == [rs[0]] + rs[1..];
    }
  }

  lemma {:induction false} SortKeepsRows(keys: seq<OrderKey>, rs: seq<Row>)
    ensures multiset(Sort(keys, rs)) == multiset(rs)
    ensures forall r :: r in Sort(keys, rs) <==> r in rs
  {
    if rs != [] {
      SortKeepsRows(keys, rs[1..]);
      InsertKeepsRows(keys, rs[0], Sort(keys, rs[1..]));
      assert rs == [rs[0]] + rs[1..];
    }
    assert forall r :: r in Sort(keys, rs) <==> r in multiset(Sort(keys, rs));
  }

  lemma {:induction false} SortWithoutKeys(rs: seq<Row>)
    ensures Sort([], rs) == rs
  {
    if rs != [] {
      SortWithoutKeys(rs[1..]);
    }
  }

  // ---------------------------------------------------------------- joins

  /** A joined row is a row of the table that is linked to a selected row. */
  lemma {:induction false} JoinIsImage(from: EntityType, to: EntityType, selected: seq<Row>, table: seq<Row>, r: Row)
    ensures r in Join(from, to, selected, table) <==> r in table && exists p :: p in selected && Linked(from, to, p, r)
  {
    if table != [] {
      JoinIsImage(from, to, selected, table[1..], r);
      var linked := Filter(selected, p => Linked(from, to, p, table[0]));
      if r == table[0] {
        if p :| p in selected && Linked(from, to, p, r) {
          assert p in linked;
          assert Repeat(table[0], |linked|)[0] == r;
        } else if linked != [] {
          assert linked[0] in linked;
        }
      }
    }
  }

  lemma JoinIsCoherent(from: EntityType, to: EntityType, selected: seq<Row>, table: seq<Row>)
    requires UniqueIds(table)
    ensures Coherent(Join(from, to, selected, table))
  {
    var rs := Join(from, to, selected, table);
    forall a, b | 0 <= a < |rs| && 0 <= b < |rs| && rs[a].id == rs[b].id
      ensures rs[a] == rs[b]
    {
      JoinIsImage(from, to, selected, table, rs[a]);
      JoinIsImage(from, to, selected, table, rs[b]);
    }
  }

  lemma SourceIsCoherent(c: Chain, db: Database)
    requires ValidDatabase(db)
    ensures Coherent(SourceRows(c, db))
  {
    match c
    case Start(_) =>
    case FromNode(from, id, st) =>
      JoinIsCoherent(from, st.entity, Filter(Table(db, from), (r: Row) => r.id == id), Table(db, st.entity));
    case Hop(prev, st) => JoinIsCoherent(prev.stage.entity, st.entity, QueryRows(prev, db), Table(db, st.entity));
  }

  /** The filtered and ordered source, before duplicates are removed. */
  function Base(c: Chain, db: Database): seq<Row> {
    Sort(c.stage.order, Filter(SourceRows(c, db), r => Satisfies(c.stage.preds, r)))
  }

  lemma BaseRows(c: Chain, db: Database)
    requires ValidDatabase(db)
    ensures Coherent(Base(c, db))
    ensures forall r :: r in Base(c, db) <==> r in SourceRows(c, db) && Satisfies(c.stage.preds, r)
  {
    SourceIsCoherent(c, db);
    var kept := Filter(SourceRows(c, db), r => Satisfies(c.stage.preds, r));
    SortKeepsRows(c.stage.order, kept);
    forall a, b | 0 <= a < |Base(c, db)| && 0 <= b < |Base(c, db)| && Base(c, db)[a].id == Base(c, db)[b].id
      ensures Base(c, db)[a] == Base(c, db)[b]
    {
      assert Base(c, db)[a] in kept && Base(c, db)[b] in kept;
      assert Base(c, db)[a] in SourceRows(c, db) && Base(c, db)[b] in SourceRows(c, db);
    }
  }

  // ---------------------------------------------------------------- the two compilations

  /** The entities left by predicates, duplicate removal and offset: what a limit then cuts from. */
  function Remaining(c: Chain, db: Database): seq<Row> {
    var q := SpecOf(c, db);
    Drop(Ordered(q.source, q.columns, q.unique, q.preds, q.order), q.offset)
  }

  /** The ID is in front of the columns of the entity path, and nowhere else. */
  lemma SpecColumnsHaveId(st: Stage)
    ensures SpecColumns(st) != [] && SpecColumns(st)[0] == Id && Id in SpecColumns(st)
    ensures forall b :: 0 < b < |SpecColumns(st)| ==> SpecColumns(st)[b] != Id
  {
    if st.fields == [] {
      ColumnsStartWithId(st.entity);
    } else {
      var others := Filter(st.fields, NotId);
      forall b | 0 < b < |SpecColumns(st)|
        ensures SpecColumns(st)[b] != Id
      {
        assert SpecColumns(st)[b] == others[b - 1] && others[b - 1] in others;
      }
    }
  }

  /** With the ID selected, both paths remove the same duplicates. */
  lemma SameDuplicates(c: Chain, db: Database)
    requires ValidDatabase(db) && (c.stage.fields == [] || Id in c.stage.fields)
    ensures Distinct(SpecColumns(c.stage), Base(c, db)) == Distinct(SelectedColumns(c.stage), Base(c, db))
  {
    SpecColumnsHaveId(c.stage);
    ColumnsStartWithId(c.stage.entity);
    BaseRows(c, db);
    DistinctById(SpecColumns(c.stage), SelectedColumns(c.stage), Base(c, db));
  }

  lemma DistinctKeepsEntity(cols: seq<Column>, rs: seq<Row>, r: Row)
    requires Id in cols && Coherent(rs) && r in rs
    ensures r in Distinct(cols, rs)
  {
    var y := DistinctCoversAll(cols, rs, r);
    DistinctIsSubset(cols, rs, y);
    ProjectWithId(cols, y, r);
  }

  // ---------------------------------------------------------------- terminal operations

  function WithLimit(c: Chain, n: nat): Chain {
    WithStage(c, c.stage.(limit := Some(n)))
  }

  function WithStage(c: Chain, st: Stage): Chain {
    match c
    case Start(_) => Start(st)
    case FromNode(from, id, _) => FromNode(from, id, st)
    case Hop(prev, _) => Hop(prev, st)
  }

  /** What `IDs` does to the builder before it scans. */
  function ForIds(c: Chain): Chain {
    WithStage(c, c.stage.(unique := if c.stage.unique == None && !c.Start? then Some(true) else c.stage.unique,
                          fields := c.stage.fields + [Id]))
  }

  /** Only's reading of the rows it gets. */
  function OnlyOf<T>(xs: seq<T>): Result<T, Error> {
    if |xs| == 1 then Ok(xs[0]) else if |xs| == 0 then Err(NotFound) else Err(NotSingular)
  }

  function Ids(rs: seq<Row>): (ids: seq<int>)
    ensures |ids| == |rs|
  {
    Map(rs, (r: Row) => r.id)
  }

  /** Scanning into a list of numbers fails unless exactly one column was selected. */
  function ScanIds(c: Chain, db: Database): Result<seq<int>, Error> {
    if PrepareError(c).Some? then Err(PrepareError(c).value)
    else if |SelectedColumns(c.stage)| != 1 then Err(ScanMismatch)
    else Ok(Ids(QueryRows(c, db)))
  }

  /** An earlier limit is forgotten, and fetching n rows shows exactly the first n that remain. */
  lemma LimitedRows(c: Chain, db: Database, n: nat)
    requires n > 0
    ensures NodeRows(WithLimit(c, n), db) == Take(Remaining(c, db), n)
  {
  }

  /** Two rows suffice: Only succeeds iff exactly one entity remains, whatever limit was set before. */
  lemma OnlyIsExact(c: Chain, db: Database)
    ensures OnlyOf(NodeRows(WithLimit(c, 2), db)) == OnlyOf(Remaining(c, db))
    ensures match OnlyOf(Remaining(c, db))
            case Ok(r) => Remaining(c, db) == [r]
            case Err(e) =>
              if e == NotFound then Remaining(c, db) == [] else e == NotSingular && |Remaining(c, db)| > 1
  {
    LimitedRows(c, db, 2);
  }

  /** Without earlier field selections, scanning IDs sees the entities that loading them would give. */
  lemma IdsMatchEntities(c: Chain, db: Database, n: nat)
    requires ValidDatabase(db) && c.stage.fields == [] && n > 0
    ensures PrepareError(ForIds(WithLimit(c, n))) == PrepareError(WithLimit(c, n)) == PrepareError(c)
    ensures PrepareError(c).None? ==> ScanIds(ForIds(WithLimit(c, n)), db) == Ok(Ids(Take(Remaining(c, db), n)))
  {
    IdsPrepare(c, n);
    IdsOrderedAlike(c, db, n);
  }

  lemma IdsPrepare(c: Chain, n: nat)
    requires c.stage.fields == []
    ensures ForIds(WithLimit(c, n)).stage.fields == [Id]
    ensures PrepareError(ForIds(WithLimit(c, n))) == PrepareError(WithLimit(c, n)) == PrepareError(c)
  {
    assert ForIds(WithLimit(c, n)).stage.fields == [Id];
    ColumnsStartWithId(c.stage.entity);
    assert InvalidField(c.stage.entity, [Id][1..]) == None;
  }

  lemma IdsOrderedAlike(c: Chain, db: Database, n: nat)
    requires ValidDatabase(db) && c.stage.fields == []
    ensures var q, q' := SpecOf(c, db), SqlQuery(ForIds(WithLimit(c, n)), db);
            Ordered(q.source, q.columns, q.unique, q.preds, q.order)
            == Ordered(q'.source, q'.columns, q'.distinct, q'.preds, q'.order)
  {
    var c' := ForIds(WithLimit(c, n));
    assert c'.stage.fields == [Id];
    assert SourceRows(c', db) == SourceRows(c, db) && Base(c', db) == Base(c, db);
    if c'.stage.unique == Some(true) {
      SpecColumnsHaveId(c.stage);
      BaseRows(c, db);
      DistinctById(SpecColumns(c.stage), [Id], Base(c, db));
    }
  }

  /** OnlyID gives Only's verdict and that entity's ID, on traversals too. */
  lemma OnlyIdIsExact(c: Chain, db: Database)
    requires ValidDatabase(db) && c.stage.fields == [] && PrepareError(c).None?
    ensures var scanned := ScanIds(ForIds(WithLimit(c, 2)), db);
            && scanned.Ok?
            && OnlyOf(scanned.value) == match OnlyOf(Remaining(c, db)) case Ok(r) => Ok(r.id) case Err(e) => Err(e)
  {
    IdsMatchEntities(c, db, 2);
  }

  /** Exist is true iff an entity remains. */
  lemma ExistIsExact(c: Chain, db: Database)
    requires ValidDatabase(db) && c.stage.fields == [] && PrepareError(c).None?
    ensures var scanned := ScanIds(ForIds(WithLimit(c, 1)), db);
            scanned.Ok? && (scanned.value != [] <==> Remaining(c, db) != [])
  {
    IdsMatchEntities(c, db, 1);
  }

  /** An earlier field selection makes every scan of IDs fail. */
  lemma EarlierFieldsBreakIds(c: Chain, db: Database, n: nat)
    requires c.stage.fields != []
    ensures ScanIds(ForIds(WithLimit(c, n)), db).Err?
  {
  }

  // ---------------------------------------------------------------- where a hop starts

  /** Some of these rows is linked to r. */
  ghost predicate HasLink(from: EntityType, to: EntityType, selected: seq<Row>, r: Row) {
    exists p :: p in selected && Linked(from, to, p, r)
  }

  /** The entity a path starts from, as a one-row selection. */
  function NodeRow(db: Database, from: EntityType, id: int): seq<Row> {
    Filter(Table(db, from), (r: Row) => r.id == id)
  }

  /** A hop starts from exactly the rows linked to what the previous builder selects under its own clauses. */
  lemma SourceIsImage(c: Chain, db: Database, r: Row)
    ensures r in SourceRows(c, db) <==>
            && r in Table(db, c.stage.entity)
            && (c.FromNode? ==> HasLink(c.from, c.stage.entity, NodeRow(db, c.from, c.id), r))
            && (c.Hop? ==> HasLink(c.prev.stage.entity, c.stage.entity, QueryRows(c.prev, db), r))
  {
    match c
    case Start(_) =>
    case FromNode(from, id, st) =>
      JoinIsImage(from, st.entity, Filter(Table(db, from), (r: Row) => r.id == id), Table(db, st.entity), r);
    case Hop(prev, st) => JoinIsImage(prev.stage.entity, st.entity, QueryRows(prev, db), Table(db, st.entity), r);
  }

  /** The edges of one certificate, and of one deployment. */
  lemma NeighborsOfOne(id: int, st: Stage, db: Database, r: Row)
    ensures st.entity.CertDeployment? ==>
              (r in SourceRows(FromNode(Certificate, id, st), db) <==>
               && r in db.deployments && ForeignKey(r) == Some(id)
               && exists c :: c in db.certificates && c.id == id)
    ensures st.entity.Certificate? ==>
              (r in SourceRows(FromNode(CertDeployment, id, st), db) <==>
               && r in db.certificates
               && exists d :: d in db.deployments && d.id == id && ForeignKey(d) == Some(r.id))
  {
    SourceIsImage(FromNode(Certificate, id, st), db, r);
    SourceIsImage(FromNode(CertDeployment, id, st), db, r);
  }

  /** Rows are ordered by the first key in which they differ. */
  lemma {:induction false} BeforeIsLexicographic(keys: seq<OrderKey>, a: Row, b: Row)
    ensures Before(keys, a, b) <==> exists i :: DiffersFirst(keys, a, b, i)
  {
    if keys != [] {
      BeforeIsLexicographic(keys[1..], a, b);
      if i :| DiffersFirst(keys[1..], a, b, i) && keys[0](a) == keys[0](b) {
        assert DiffersFirst(keys, a, b, i + 1);
      }
      if keys[0](a) < keys[0](b) {
        assert DiffersFirst(keys, a, b, 0);
      }
      if i :| DiffersFirst(keys, a, b, i) && i > 0 {
        assert keys[0](a) == keys[0](b) && keys[1..][i - 1] == keys[i];
        assert forall l :: 0 <= l < i - 1 ==> keys[1..][l] == keys[l + 1];
        assert DiffersFirst(keys[1..], a, b, i - 1);
      }
    }
  }

  predicate DiffersFirst(keys: seq<OrderKey>, a: Row, b: Row, i: int) {
    0 <= i < |keys| && keys[i](a) < keys[i](b) && forall l :: 0 <= l < i ==> keys[l](a) == keys[l](b)
  }
}
