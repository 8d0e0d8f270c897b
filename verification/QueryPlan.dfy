/**
  The meaning of a query builder. Its two compilations are `SqlQuery`, used for projections and
  as the inner selection of a traversal, and `SpecOf`, used to load entities; a selector and a
  query specification denote sequences of rows.
 */
module QueryPlan {
  import opened Relational
  import opened ChangeOrderFields

  type Predicate = Row -> bool
  type OrderKey = Row -> int

  const MAX_INT32 := 0x7fff_ffff

  /** sql.Selector: the rows it selects from, and the clauses added to it. */
  datatype SelectorValue = SelectorValue(
    source: seq<Row>, columns: seq<Column>, distinct: bool,
    preds: seq<Predicate>, order: seq<OrderKey>, offset: nat, limit: Option<nat>)

  /** sqlgraph.QuerySpec: zero stands for "no limit" and "no offset". */
  datatype QuerySpec = QuerySpec(
    source: seq<Row>, columns: seq<Column>, unique: bool,
    preds: seq<Predicate>, order: seq<OrderKey>, offset: nat, limit: nat)

  // ---------------------------------------------------------------- what selections denote

  predicate Satisfies(ps: seq<Predicate>, r: Row) {
    forall i :: 0 <= i < |ps| ==> ps[i](r)
  }

  predicate Before(keys: seq<OrderKey>, a: Row, b: Row) {
    keys != [] && (keys[0](a) < keys[0](b) || (keys[0](a) == keys[0](b) && Before(keys[1..], a, b)))
  }

  function InsertSorted(keys: seq<OrderKey>, r: Row, rs: seq<Row>): seq<Row> {
    if rs == [] || !Before(keys, rs[0], r) then [r] + rs
    else [rs[0]] + InsertSorted(keys, r, rs[1..])
  }

  /** A stable sort; no keys leave the order alone. */
  function Sort(keys: seq<OrderKey>, rs: seq<Row>): seq<Row> {
    if rs == [] then [] else InsertSorted(keys, rs[0], Sort(keys, rs[1..]))
  }

  function Project(cols: seq<Column>, r: Row): seq<Value> {
    Map(cols, c => Cell(r, c))
  }

  function Differs(cols: seq<Column>, from: Row): Predicate {
    (r: Row) => Project(cols, r) != Project(cols, from)
  }

  /** DISTINCT on a projection: the first row of each. */
  function Distinct(cols: seq<Column>, rs: seq<Row>): (ys: seq<Row>)
    ensures |ys| <= |rs|
    decreases |rs|
  {
    if rs == [] then []
    else [rs[0]] + Distinct(cols, Filter(rs[1..], Differs(cols, rs[0])))
  }

  /** Filtered, ordered and without duplicates: what offset and limit then cut from. */
  function Ordered(source: seq<Row>, cols: seq<Column>, distinct: bool, preds: seq<Predicate>,
                   order: seq<OrderKey>): seq<Row>
  {
    var sorted := Sort(order, Filter(source, r => Satisfies(preds, r)));
    if distinct then Distinct(cols, sorted) else sorted
  }

  function SelectedRows(s: SelectorValue): seq<Row> {
    var rows := Drop(Ordered(s.source, s.columns, s.distinct, s.preds, s.order), s.offset);
    if s.limit.Some? then Take(rows, s.limit.value) else rows
  }

  function SpecRows(q: QuerySpec): seq<Row> {
    var rows := Drop(Ordered(q.source, q.columns, q.unique, q.preds, q.order), q.offset);
    if q.limit != 0 then Take(rows, q.limit) else rows
  }

  // ---------------------------------------------------------------- builders and traversals

  datatype Database = Database(changeOrders: seq<Row>, certificates: seq<Row>, deployments: seq<Row>)

  function Table(db: Database, t: EntityType): seq<Row> {
    match t
    case ChangeOrder => db.changeOrders
    case Certificate => db.certificates
    case CertDeployment => db.deployments
  }

  predicate ValidDatabase(db: Database) {
    UniqueIds(db.changeOrders) && UniqueIds(db.certificates) && UniqueIds(db.deployments)
  }

  /** The state of one builder. */
  datatype Stage = Stage(entity: EntityType, fields: seq<Column>, unique: Option<bool>,
                         preds: seq<Predicate>, order: seq<OrderKey>, offset: Option<nat>, limit: Option<nat>)

  /** A new builder. */
  function EmptyStage(t: EntityType): Stage {
    Stage(t, [], None, [], [], None, None)
  }

  /** A builder and the path of builders that leads to it. */
  datatype Chain =
    | Start(stage: Stage)
    | FromNode(from: EntityType, id: int, stage: Stage)
    | Hop(prev: Chain, stage: Stage)

  /** The edge between certificates and their deployments, in both directions. */
  predicate Linked(from: EntityType, to: EntityType, p: Row, r: Row) {
    if from.Certificate? && to.CertDeployment? then ForeignKey(r) == Some(p.id)
    else if from.CertDeployment? && to.Certificate? then ForeignKey(p) == Some(r.id)
    else false
  }

  function Repeat<T>(x: T, n: nat): seq<T> {
    seq(n, _ => x)
  }

  /** sqlgraph.SetNeighbors: the target table joined with the selected rows, one row per pair. */
  function Join(from: EntityType, to: EntityType, selected: seq<Row>, table: seq<Row>): seq<Row> {
    if table == [] then []
    else Repeat(table[0], |Filter(selected, p => Linked(from, to, p, table[0]))|) + Join(from, to, selected, table[1..])
  }

  /** The rows a query selects from before its own clauses. */
  function SourceRows(c: Chain, db: Database): seq<Row>
    decreases c, 0
  {
    match c
    case Start(st) => Table(db, st.entity)
    case FromNode(from, id, st) =>
      Join(from, st.entity, Filter(Table(db, from), (r: Row) => r.id == id), Table(db, st.entity))
    case Hop(prev, st) => Join(prev.stage.entity, st.entity, QueryRows(prev, db), Table(db, st.entity))
  }

  function SelectedColumns(st: Stage): seq<Column> {
    if st.fields == [] then Columns(st.entity) else st.fields
  }

  function SqlQuery(c: Chain, db: Database): SelectorValue
    decreases c, 1
  {
    var st := c.stage;
    SelectorValue(SourceRows(c, db), SelectedColumns(st), st.unique == Some(true), st.preds, st.order,
                  if st.offset.Some? then st.offset.value else 0,
                  if st.limit.Some? then st.limit else if st.offset.Some? then Some(MAX_INT32) else None)
  }

  function QueryRows(c: Chain, db: Database): seq<Row>
    decreases c, 2
  {
    SelectedRows(SqlQuery(c, db))
  }

  predicate NotId(c: Column) {
    c != Id
  }

  /** The caller's fields with the ID in front, once. */
  function SpecColumns(st: Stage): seq<Column> {
    if st.fields == [] then Columns(st.entity) else [Id] + Filter(st.fields, NotId)
  }

  function SpecOf(c: Chain, db: Database): QuerySpec {
    var st := c.stage;
    QuerySpec(SourceRows(c, db), SpecColumns(st), if st.unique.Some? then st.unique.value else !c.Start?,
              st.preds, st.order,
              if st.offset.Some? then st.offset.value else 0,
              if st.limit.Some? then st.limit.value else 0)
  }

  function NodeRows(c: Chain, db: Database): seq<Row> {
    SpecRows(SpecOf(c, db))
  }

  /** The first column a builder asks for that its table does not have. */
  function InvalidField(t: EntityType, fields: seq<Column>): Option<Error> {
    if fields == [] then None
    else if !ValidColumn(t, fields[0]) then Some(Validation(fields[0]))
    else InvalidField(t, fields[1..])
  }

  /** prepareQuery: the builder's own fields first, then those along its path. */
  function PrepareError(c: Chain): Option<Error> {
    var own := InvalidField(c.stage.entity, c.stage.fields);
    if own.Some? then own
    else if c.Hop? then PrepareError(c.prev)
    else None
  }
}
