/**
  The query builders of certificates and deployments as objects updated in place, and the two
  compilations as the source performs them: step by step, on a selector that is itself mutable.
 */
module QueryBuilder {
  import opened Relational
  import opened ChangeOrderFields
  import opened QueryPlan
  import opened QueryTheorems
  import opened CompilationPaths
  import opened Projection

  /** sql.Selector */
  class Selector {
    const source: seq<Row>
    var columns: seq<Column>
    var distinct: bool
    var preds: seq<Predicate>
    var order: seq<OrderKey>
    var offset: nat
    var limit: Option<nat>

    constructor (source: seq<Row>, columns: seq<Column>)
      ensures View() == SelectorValue(source, columns, false, [], [], 0, None)
    {
      this.source, this.columns, distinct, preds, order, offset, limit := source, columns, false, [], [], 0, None;
    }

    function View(): SelectorValue
      reads this
    {
      SelectorValue(source, columns, distinct, preds, order, offset, limit)
    }

    method Clone() returns (r: Selector)
      ensures fresh(r) && r.View() == View()
    {
      r := new Selector(source, columns);
      r.distinct, r.preds, r.order, r.offset, r.limit := distinct, preds, order, offset, limit;
    }

    method Where(p: Predicate)
      modifies this`preds
      ensures preds == old(preds) + [p]
    {
      preds := preds + [p];
    }

    method OrderBy(k: OrderKey)
      modifies this`order
      ensures order == old(order) + [k]
    {
      order := order + [k];
    }
  }

  /** How a builder was reached: from its client, from one entity, or along an edge of another builder. */
  datatype Path = NoPath | FromEntity(from: EntityType, id: int) | FromQuery(query: Query)

  class Query {
    const entity: EntityType
    const path: Path
    ghost const level: nat          // the number of builders along the path
    ghost const along: set<Query>   // this builder and those along the path
    var limit: Option<nat>
    var offset: Option<nat>
    var unique: Option<bool>
    var fields: seq<Column>
    var predicates: seq<Predicate>
    var order: seq<OrderKey>
    var withEdge: Query?
    var withFKs: bool
    var sql: Selector?
    ghost var tree: set<Query>      // this builder and the eager-load builders below it

    constructor (entity: EntityType, path: Path)
      requires path.FromQuery? ==> path.query.Rooted()
      ensures this.entity == entity && this.path == path && Rooted()
      ensures limit == None && offset == None && unique == None && fields == [] && predicates == [] && order == []
      ensures withEdge == null && !withFKs && sql == null && tree == {this}
    {
      this.entity, this.path := entity, path;
      level := if path.FromQuery? then path.query.level + 1 else 0;
      along := {this} + (if path.FromQuery? then path.query.along else {});
      limit, offset, unique, fields, predicates, order := None, None, None, [], [], [];
      withEdge, withFKs, sql, tree := null, false, null, {this};
    }

    /** Paths lead to builders that existed before, so they end. */
    ghost predicate Rooted()
      decreases level
    {
      && along == {this} + (if path.FromQuery? then path.query.along else {})
      && (path.FromQuery? ==> path.query.level < level && this !in path.query.along && path.query.Rooted())
    }

    ghost function StageOf(): Stage
      reads this`limit, this`offset, this`unique, this`fields, this`predicates, this`order
    {
      Stage(entity, fields, unique, predicates, order, offset, limit)
    }

    /** The plan that the builders along the path hold at this moment. */
    ghost function Plan(): (c: Chain)
      requires Rooted()
      reads along`limit, along`offset, along`unique, along`fields, along`predicates, along`order
      ensures c.stage == StageOf() && (c.Start? <==> path.NoPath?)
      decreases level
    {
      match path
      case NoPath => Start(StageOf())
      case FromEntity(from, id) => FromNode(from, id, StageOf())
      case FromQuery(q) => Hop(q.Plan(), StageOf())
    }

    /** QueryDeployments, QueryCertificate: a builder whose path compiles this one when it is run. */
    method Traverse(to: EntityType) returns (q: Query)
      requires Valid()
      ensures fresh(q) && q.Valid() && q.path == FromQuery(this) && q.Plan() == Hop(Plan(), EmptyStage(to))
      ensures q.Treed() && q.sql == null
    {
      q := new Query(to, FromQuery(this));
    }

    // ---------------------------------------------------------------- clauses

    method Where(ps: seq<Predicate>)
      modifies this`predicates
      ensures predicates == old(predicates) + ps
    {
      predicates := predicates + ps;
    }

    method Limit(n: nat)
      modifies this`limit
      ensures limit == Some(n)
    {
      limit := Some(n);
    }

    method Select(cs: seq<Column>)
      modifies this`fields
      ensures fields == old(fields) + cs
    {
      fields := fields + cs;
    }

    // ---------------------------------------------------------------- compilation

    method FirstInvalidField() returns (err: Option<Error>)
      ensures err == InvalidField(entity, fields)
    {
      for i := 0 to |fields|
        invariant InvalidField(entity, fields) == InvalidField(entity, fields[i..])
      {
        if !ValidColumn(entity, fields[i]) {
          return Some(Validation(fields[i]));
        }
        assert fields[i..][1..] == fields[i + 1..];
      }
      err := None;
    }

    /** Only a path sets the intermediate selector. */
    ghost predicate Valid()
      reads along
    {
      Rooted() && forall q :: q in along && q.path.NoPath? ==> q.sql == null
    }

    /** The join selector that a path starts from, before the builder's own clauses. */
    ghost predicate Prepared(db: Database)
      requires Rooted()
      reads along, sql
    {
      if path.NoPath? then sql == null
      else sql != null && sql.View() == SelectorValue(SourceRows(Plan(), db), [], false, [], [], 0, None)
    }

    method PrepareQuery(db: Database) returns (err: Option<Error>)
      requires Valid()
      modifies along`sql
      ensures Valid() && err == PrepareError(Plan())
      ensures err.None? ==> Prepared(db) && (!path.NoPath? ==> fresh(sql))
      decreases level, 1
    {
      err := FirstInvalidField();
      if err.Some? {
        return;
      }
      match path {
        case NoPath =>
        case FromEntity(from, id) =>
          var selected := Filter(Table(db, from), (r: Row) => r.id == id);
          sql := new Selector(Join(from, entity, selected, Table(db, entity)), []);
        case FromQuery(q) =>
          var source;
          err, source := FollowPath(q, db);
          if err.Some? {
            return;
          }
          sql := new Selector(source, []);
      }
    }

    /** The closure that a traversal installs as `path`: it compiles the builder it starts from. */
    method FollowPath(q: Query, db: Database) returns (err: Option<Error>, source: seq<Row>)
      requires Valid() && path == FromQuery(q)
      modifies q.along`sql
      ensures q.Valid() && err == PrepareError(q.Plan())
      ensures err.None? ==> source == Join(q.entity, entity, QueryRows(q.Plan(), db), Table(db, entity))
      decreases level, 0
    {
      source := [];
      assert q.Valid();
      err := q.PrepareQuery(db);
      if err.None? {
        var selector := q.SqlQuery(db);
        source := Join(q.entity, entity, SelectedRows(selector.View()), Table(db, entity));
      }
    }

    method SqlQuery(db: Database) returns (selector: Selector)
      requires Rooted() && Prepared(db)
      modifies sql
      ensures selector.View() == QueryPlan.SqlQuery(Plan(), db)
      ensures sql == null ==> fresh(selector)
      ensures sql != null ==> selector == sql
    {
      var columns := if fields == [] then Columns(entity) else fields;
      selector := new Selector(Table(db, entity), columns);
      if sql != null {
        selector := sql;
        selector.columns := columns;
      }
      ghost var source := selector.source;
      assert source == SourceRows(Plan(), db);
      AddClauses(selector);
    }

    /** Everything after the projection. */
    method AddClauses(selector: Selector)
      requires selector.View() == SelectorValue(selector.source, selector.columns, false, [], [], 0, None)
      modifies selector
      ensures selector.View()
                == SelectorValue(selector.source, old(selector.columns), unique == Some(true), predicates, order,
                  if offset.Some? then offset.value else 0,
                  if limit.Some? then limit else if offset.Some? then Some(MAX_INT32) else None)
    {
      if unique == Some(true) {
        selector.distinct := true;
      }
      for i := 0 to |predicates|
        invariant selector.View()
               == SelectorValue(selector.source, old(selector.columns), unique == Some(true), predicates[..i], [],
                                0, None)
      {
        selector.Where(predicates[i]);
      }
      for i := 0 to |order|
        invariant selector.View()
               == SelectorValue(selector.source, old(selector.columns), unique == Some(true), predicates, order[..i],
                                0, None)
      {
        selector.OrderBy(order[i]);
      }
      if offset.Some? {
        selector.offset, selector.limit := offset.value, Some(MAX_INT32);
      }
      if limit.Some? {
        selector.limit := limit;
      }
    }

    /** The loop that puts the ID in front of the chosen fields and drops it behind. */
    method IdFirst() returns (columns: seq<Column>)
      ensures columns == [Id] + Filter(fields, NotId)
    {
      columns := [Id];
      for i := 0 to |fields|
        invariant columns == [Id] + Filter(fields[..i], NotId)
      {
        IdFirstNext(fields, i);
        if fields[i] != Id {
          columns := columns + [fields[i]];
        }
      }
      assert fields[..|fields|] == fields;
    }

    method QuerySpec(db: Database) returns (spec: QueryPlan.QuerySpec)
      requires Rooted() && Prepared(db)
      ensures spec == SpecOf(Plan(), db) && Projects(Columns(entity), fields, spec.columns)
    {
      SpecColumnsProject(StageOf());
      var source := if sql != null then sql.source else Table(db, entity);
      spec := QueryPlan.QuerySpec(source, Columns(entity), false, [], [], 0, 0);
      if unique.Some? {
        spec := spec.(unique := unique.value);
      } else if !path.NoPath? {
        spec := spec.(unique := true);
      }
      if fields != [] {
        var columns := IdFirst();
        spec := spec.(columns := columns);
      }
      spec := spec.(preds := predicates, order := order);
      if limit.Some? {
        spec := spec.(limit := limit.value);
      }
      if offset.Some? {
        spec := spec.(offset := offset.value);
      }
    }

    // ---------------------------------------------------------------- terminal operations

    /** IDs leaves its field selection, and on traversals its Unique, behind in the builder. */
    method IDs(db: Database) returns (r: Result<seq<int>, Error>)
      requires Valid()
      modifies this`unique, this`fields, along`sql
      ensures Valid() && Plan() == ForIds(old(Plan()))
      ensures r == ScanIds(ForIds(old(Plan())), db)
      ensures ValidDatabase(db) && old(fields) == [] ==> IdsAreExact(old(Plan()), db, r)
    {
      if ValidDatabase(db) && fields == [] {
        IdsAgreeIff(Plan(), db);
      }
      SelectId();
      r := ScanNumbers(db);
    }

    /** What IDs does to the builder. */
    method SelectId()
      requires Valid()
      modifies this`unique, this`fields
      ensures Valid() && Plan() == ForIds(old(Plan())) && |fields| > 0 && fields[|fields| - 1] == Id
    {
      if unique == None && !path.NoPath? {
        unique := Some(true);
      }
      Select([Id]);
    }

    /** Scanning the selected rows into a list of numbers. */
    method ScanNumbers(db: Database) returns (r: Result<seq<int>, Error>)
      requires Valid() && |fields| > 0 && fields[|fields| - 1] == Id
      modifies along`sql
      ensures Valid() && r == ScanIds(Plan(), db)
    {
      var err := PrepareQuery(db);
      if err.Some? {
        return Err(err.value);
      }
      var selector := SqlQuery(db);
      if |selector.columns| != 1 {
        return Err(ScanMismatch);
      }
      r := Ok(Ids(SelectedRows(selector.View())));
    }

    /**
      OnlyID. Without earlier field selections its verdict and ID are exact: it succeeds iff exactly
      one entity remains after predicates, duplicate removal and offset, whatever limit was set.
     */
    method OnlyID(db: Database) returns (r: Result<int, Error>)
      requires Valid()
      modifies this`limit, this`unique, this`fields, along`sql
      ensures Valid() && Plan() == ForIds(WithLimit(old(Plan()), 2))
      ensures old(fields) != [] ==> r.Err?
      ensures ValidDatabase(db) && old(fields) == [] ==>
                r == if PrepareError(old(Plan())).Some? then Err(PrepareError(old(Plan())).value)
                     else match OnlyOf(Remaining(old(Plan()), db)) case Ok(row) => Ok(row.id) case Err(e) => Err(e)
    {
      Limit(2);
      assert Plan() == WithLimit(old(Plan()), 2);
      var ids := IDs(db);
      if ValidDatabase(db) && old(fields) == [] {
        IdsMatchEntities(old(Plan()), db, 2);
      }
      if ids.Err? {
        return Err(ids.error);
      }
      match |ids.value| {
        case 1 => r := Ok(ids.value[0]);
        case 0 => r := Err(NotFound);
        case _ => r := Err(NotSingular);
      }
    }

    method FirstID(db: Database) returns (r: Result<int, Error>)
      requires Valid()
      modifies this`limit, this`unique, this`fields, along`sql
      ensures Valid() && Plan() == ForIds(WithLimit(old(Plan()), 1))
      ensures old(fields) != [] ==> r.Err? && !r.error.NotFound?
      ensures ValidDatabase(db) && old(fields) == [] ==>
                r == if PrepareError(old(Plan())).Some? then Err(PrepareError(old(Plan())).value)
                     else if Remaining(old(Plan()), db) == [] then Err(NotFound)
                     else Ok(Remaining(old(Plan()), db)[0].id)
    {
      Limit(1);
      assert Plan() == WithLimit(old(Plan()), 1);
      var ids := IDs(db);
      PrepareErrorIsValidation(Plan());
      if ValidDatabase(db) && old(fields) == [] {
        IdsMatchEntities(old(Plan()), db, 1);
      }
      if ids.Err? {
        return Err(ids.error);
      }
      if |ids.value| == 0 {
        return Err(NotFound);
      }
      r := Ok(ids.value[0]);
    }

    /** Exist: true iff an entity remains. It leaves a limit of 1 and the ID selection behind. */
    method Exist(db: Database) returns (r: Result<bool, Error>)
      requires Valid()
      modifies this`limit, this`unique, this`fields, along`sql
      ensures Valid() && Plan() == ForIds(WithLimit(old(Plan()), 1))
      ensures old(fields) != [] ==> r.Err?
      ensures ValidDatabase(db) && old(fields) == [] ==>
                r == if PrepareError(old(Plan())).Some? then Err(PrepareError(old(Plan())).value)
                     else Ok(Remaining(old(Plan()), db) != [])
    {
      PrepareErrorIsValidation(Plan());
      var first := FirstID(db);
      if first == Err(NotFound) {
        r := Ok(false);
      } else if first.Err? {
        r := Err(first.error);
      } else {
        r := Ok(true);
      }
    }

    /** The rows that sqlAll decodes into entities. */
    method FetchRows(db: Database) returns (r: Result<seq<Row>, Error>)
      requires Valid()
      modifies along`sql
      ensures Valid()
      ensures r == if PrepareError(Plan()).Some? then Err(PrepareError(Plan()).value) else Ok(NodeRows(Plan(), db))
    {
      var err := PrepareQuery(db);
      if err.Some? {
        return Err(err.value);
      }
      var spec := QuerySpec(db);
      r := Ok(SpecRows(spec));
    }

    /** Only, on the rows: succeeds iff exactly one entity remains, whatever limit was set before. */
    method Only(db: Database) returns (r: Result<Row, Error>)
      requires Valid()
      modifies this`limit, along`sql
      ensures Valid() && Plan() == WithLimit(old(Plan()), 2)
      ensures r == if PrepareError(old(Plan())).Some? then Err(PrepareError(old(Plan())).value)
                   else OnlyOf(Remaining(old(Plan()), db))
    {
      ghost var plan := Plan();
      Limit(2);
      assert Plan() == WithLimit(plan, 2);
      OnlyIsExact(plan, db);
      var rows := FetchRows(db);
      if rows.Err? {
        return Err(rows.error);
      }
      match |rows.value| {
        case 1 => r := Ok(rows.value[0]);
        case 0 => r := Err(NotFound);
        case _ => r := Err(NotSingular);
      }
    }

    /** First: the first entity that remains, whatever limit was set before. */
    method First(db: Database) returns (r: Result<Row, Error>)
      requires Valid()
      modifies this`limit, along`sql
      ensures Valid() && Plan() == WithLimit(old(Plan()), 1)
      ensures r == if PrepareError(old(Plan())).Some? then Err(PrepareError(old(Plan())).value)
                   else if Remaining(old(Plan()), db) == [] then Err(NotFound) else Ok(Remaining(old(Plan()), db)[0])
    {
      Limit(1);
      assert Plan() == WithLimit(old(Plan()), 1);
      LimitedRows(old(Plan()), db, 1);
      var rows := FetchRows(db);
      if rows.Err? {
        return Err(rows.error);
      }
      r := if |rows.value| == 0 then Err(NotFound) else Ok(rows.value[0]);
    }

    // ---------------------------------------------------------------- eager-load builders and clones

    /** The eager-load builders form a tree of their own objects; they come from a client, without a path. */
    ghost predicate Treed()
      reads this, tree
      decreases tree
    {
      && Rooted() && this in tree
      && (withEdge != null ==>
            && withEdge in tree && withEdge.tree <= tree && this !in withEdge.tree
            && withEdge.path.NoPath? && withEdge.Treed())
    }

    ghost function TreePlan(): TreeValue
      requires Treed()
      reads this, tree
      decreases tree
    {
      TreeValue(entity, path, StageOf(), withFKs, if withEdge == null then None else Some(withEdge.TreePlan()))
    }

    /**
      Clone: new builders all the way down, with the clauses of their originals at every depth; only
      the path is shared, and withFKs is not copied.
     */
    method Clone() returns (r: Query)
      requires Treed()
      ensures fresh(r) && fresh(r.tree) && r.Treed() && r.path == path
      ensures r.TreePlan() == WithoutFks(TreePlan()) && IsCopy(TreePlan(), r.TreePlan())
      ensures if sql == null then r.sql == null else r.sql != null && fresh(r.sql) && r.sql.View() == sql.View()
      decreases tree
    {
      r := CopyFields();
      if withEdge != null {
        var child := withEdge.Clone();
        r.With(child);
      }
      WithoutFksIsCopy(TreePlan());
    }

    /** WithDeployments, WithCertificate: replaces the eager-load builder by a fresh, configured one. */
    method With(child: Query)
      requires Treed() && child.Treed() && child.path.NoPath? && this !in child.tree
      modifies this`withEdge, this`tree
      ensures Treed() && withEdge == child && tree == old(tree) + child.tree
      ensures TreePlan() == old(TreePlan()).(eager := Some(child.TreePlan()))
    {
      withEdge, tree := child, tree + child.tree;
    }

    /** One call on this builder, or on an eager-load builder below it. */
    method Apply(c: Call)
      requires Treed()
      modifies tree
      ensures Treed() && fresh(tree - old(tree)) && TreePlan() == AfterCall(old(TreePlan()), c)
      decreases c, 0
    {
      match c {
        case AddWhere(p) => predicates := predicates + [p];
        case AddOrder(k) => order := order + [k];
        case SetLimit(n) => limit := Some(n);
        case SetOffset(n) => offset := Some(n);
        case SetUnique(u) => unique := Some(u);
        case AddFields(cs) => fields := fields + cs;
        case WithNew(t) =>
          var child := new Query(t, NoPath);
          With(child);
        case OnEager(inner) =>
          if withEdge != null {
            ApplyToEager(inner);
          }
      }
    }

    method ApplyToEager(c: Call)
      requires Treed() && withEdge != null
      modifies tree
      ensures Treed() && fresh(tree - old(tree))
      ensures TreePlan() == old(TreePlan()).(eager := Some(AfterCall(old(TreePlan()).eager.value, c)))
      decreases c, 1
    {
      withEdge.Apply(c);
      tree := tree + withEdge.tree;
    }

    method Run(cs: seq<Call>)
      requires Treed()
      modifies tree
      ensures Treed() && fresh(tree - old(tree)) && TreePlan() == AfterCalls(old(TreePlan()), cs)
    {
      for i := 0 to |cs|
        invariant Treed() && fresh(tree - old(tree))
        invariant AfterCalls(old(TreePlan()), cs) == AfterCalls(TreePlan(), cs[i..])
      {
        assert cs[i..][1..] == cs[i + 1..];
        Apply(cs[i]);
      }
    }

    /** The part of Clone that copies the query context, the lists and the intermediate selector. */
    method CopyFields() returns (r: Query)
      requires Rooted()
      ensures fresh(r) && r.Treed() && r.tree == {r} && r.path == path
      ensures r.TreePlan() == TreeValue(entity, path, StageOf(), false, None)
      ensures if sql == null then r.sql == null else r.sql != null && fresh(r.sql) && r.sql.View() == sql.View()
    {
      r := new Query(entity, path);
      r.limit, r.offset, r.unique, r.fields := limit, offset, unique, fields;
      r.order, r.predicates := order, predicates;
      if sql != null {
        r.sql := sql.Clone();
      }
    }
  }

  lemma IdFirstNext(fields: seq<Column>, i: nat)
    requires i < |fields|
    ensures [Id] + Filter(fields[..i + 1], NotId)
         == [Id] + Filter(fields[..i], NotId) + if fields[i] != Id then [fields[i]] else []
  {
    FilterNext(fields, i, NotId);
  }

  /** A builder and its eager-load builders, as a value. */
  datatype TreeValue = TreeValue(entity: EntityType, path: Path, stage: Stage, withFKs: bool, eager: Option<TreeValue>)

  function WithoutFks(t: TreeValue): TreeValue {
    t.(withFKs := false, eager := if t.eager.None? then None else Some(WithoutFks(t.eager.value)))
  }

  /** The same builder at every depth of eager loading, but for the foreign keys, which a copy does not ask for. */
  ghost predicate IsCopy(t: TreeValue, copy: TreeValue) {
    && copy.entity == t.entity && copy.path == t.path && copy.stage == t.stage && !copy.withFKs
    && (copy.eager.Some? <==> t.eager.Some?)
    && (t.eager.Some? ==> IsCopy(t.eager.value, copy.eager.value))
  }

  lemma {:induction false} WithoutFksIsCopy(t: TreeValue)
    ensures forall copy :: IsCopy(t, copy) <==> copy == WithoutFks(t)
  {
    if t.eager.Some? {
      WithoutFksIsCopy(t.eager.value);
    }
  }

  datatype Call =
    | AddWhere(p: Predicate) | AddOrder(k: OrderKey) | SetLimit(n: nat) | SetOffset(n: nat)
    | SetUnique(u: bool) | AddFields(cs: seq<Column>) | WithNew(t: EntityType) | OnEager(inner: Call)

  function AfterCall(t: TreeValue, c: Call): TreeValue {
    match c
    case AddWhere(p) => t.(stage := t.stage.(preds := t.stage.preds + [p]))
    case AddOrder(k) => t.(stage := t.stage.(order := t.stage.order + [k]))
    case SetLimit(n) => t.(stage := t.stage.(limit := Some(n)))
    case SetOffset(n) => t.(stage := t.stage.(offset := Some(n)))
    case SetUnique(u) => t.(stage := t.stage.(unique := Some(u)))
    case AddFields(cs) => t.(stage := t.stage.(fields := t.stage.fields + cs))
    case WithNew(e) => t.(eager := Some(TreeValue(e, NoPath, EmptyStage(e), false, None)))
    case OnEager(inner) => if t.eager.None? then t else t.(eager := Some(AfterCall(t.eager.value, inner)))
  }

  function AfterCalls(t: TreeValue, cs: seq<Call>): TreeValue
    decreases cs
  {
    if cs == [] then t else AfterCalls(AfterCall(t, cs[0]), cs[1..])
  }

  /**
    After Clone, any calls on either builder, at any depth of eager loading, act on that builder
    alone: each ends up exactly as if the other had not been called.
   */
  method CloneThenDiverge(q: Query, onOriginal: seq<Call>, onClone: seq<Call>) returns (r: Query)
    requires q.Treed()
    modifies q.tree
    ensures fresh(r) && r.Treed() && q.Treed()
    ensures q.TreePlan() == AfterCalls(old(q.TreePlan()), onOriginal)
    ensures var copy := WithoutFks(old(q.TreePlan()));
            IsCopy(old(q.TreePlan()), copy) && r.TreePlan() == AfterCalls(copy, onClone)
  {
    WithoutFksIsCopy(q.TreePlan());
    r := q.Clone();
    q.Run(onOriginal);
    r.Run(onClone);
  }

  // ---------------------------------------------------------------- what calls accumulate

  /** The calls that reach the builder of the next eager load: those after the last With. */
  function EagerCalls(cs: seq<Call>): seq<Call> {
    if cs == [] then []
    else
      var last, front := cs[|cs| - 1], EagerCalls(cs[..|cs| - 1]);
      if last.WithNew? then [] else if last.OnEager? then front + [last.inner] else front
  }

  /** The eager-load builder that those calls meet: the one there was, or the one the last With made. */
  function EagerBefore(eager: Option<TreeValue>, cs: seq<Call>): Option<TreeValue> {
    if cs == [] then eager
    else if cs[|cs| - 1].WithNew? then Some(NewTree(cs[|cs| - 1].t))
    else EagerBefore(eager, cs[..|cs| - 1])
  }

  /** A builder that nothing has been called on. */
  function NewTree(t: EntityType): TreeValue {
    TreeValue(t, NoPath, EmptyStage(t), false, None)
  }

  /** Lists grow in the order of the calls; of limits, offsets and Unique the last one counts. */
  function Accumulated(st: Stage, cs: seq<Call>): Stage {
    Stage(st.entity, st.fields + AllFields(cs), LastUnique(st.unique, cs), st.preds + AllPredicates(cs),
          st.order + AllOrders(cs), LastOffset(st.offset, cs), LastLimit(st.limit, cs))
  }

  function AllPredicates(cs: seq<Call>): seq<Predicate> {
    if cs == [] then []
    else AllPredicates(cs[..|cs| - 1]) + if cs[|cs| - 1].AddWhere? then [cs[|cs| - 1].p] else []
  }

  function AllOrders(cs: seq<Call>): seq<OrderKey> {
    if cs == [] then []
    else AllOrders(cs[..|cs| - 1]) + if cs[|cs| - 1].AddOrder? then [cs[|cs| - 1].k] else []
  }

  function AllFields(cs: seq<Call>): seq<Column> {
    if cs == [] then []
    else AllFields(cs[..|cs| - 1]) + if cs[|cs| - 1].AddFields? then cs[|cs| - 1].cs else []
  }

  function LastLimit(before: Option<nat>, cs: seq<Call>): Option<nat> {
    if cs == [] then before
    else if cs[|cs| - 1].SetLimit? then Some(cs[|cs| - 1].n)
    else LastLimit(before, cs[..|cs| - 1])
  }

  function LastOffset(before: Option<nat>, cs: seq<Call>): Option<nat> {
    if cs == [] then before
    else if cs[|cs| - 1].SetOffset? then Some(cs[|cs| - 1].n)
    else LastOffset(before, cs[..|cs| - 1])
  }

  function LastUnique(before: Option<bool>, cs: seq<Call>): Option<bool> {
    if cs == [] then before
    else if cs[|cs| - 1].SetUnique? then Some(cs[|cs| - 1].u)
    else LastUnique(before, cs[..|cs| - 1])
  }

  lemma {:induction false} OneMoreCall(t: TreeValue, cs: seq<Call>, c: Call)
    ensures AfterCalls(t, cs + [c]) == AfterCall(AfterCalls(t, cs), c)
    decreases |cs|
  {
    if cs == [] {
      assert ([] + [c])[1..] == [];
      assert AfterCalls(AfterCall(t, c), []) == AfterCall(t, c);
    } else {
      assert (cs + [c])[1..] == cs[1..] + [c];
      OneMoreCall(AfterCall(t, cs[0]), cs[1..], c);
    }
  }

  /**
    Any sequence of calls accumulates on the builder they are made on; calls on the eager-load
    builder accumulate there, and a With starts it afresh. Nothing else changes.
   */
  lemma {:induction false} CallsAccumulate(t: TreeValue, cs: seq<Call>)
    ensures var t' := AfterCalls(t, cs);
            && t'.stage == Accumulated(t.stage, cs)
            && t'.entity == t.entity && t'.path == t.path && t'.withFKs == t.withFKs
            && t'.eager == match EagerBefore(t.eager, cs)
                           case None => None
                           case Some(e) => Some(AfterCalls(e, EagerCalls(cs)))
    decreases |cs|
  {
    if cs != [] {
      var front, c := cs[..|cs| - 1], cs[|cs| - 1];
      assert cs == front + [c];
      CallsAccumulate(t, front);
      OneMoreCall(t, front, c);
      StageGrows(t.stage, front, c);
      if c.OnEager? && EagerBefore(t.eager, front).Some? {
        OneMoreCall(EagerBefore(t.eager, front).value, EagerCalls(front), c.inner);
      }
    }
  }

  lemma StageGrows(st: Stage, cs: seq<Call>, c: Call)
    ensures Accumulated(st, cs + [c]) == AfterCallOn(Accumulated(st, cs), c)
  {
    var all := cs + [c];
    assert all[..|all| - 1] == cs && all[|all| - 1] == c;
  }

  /** The effect of one call on the builder's own clauses. */
  function AfterCallOn(st: Stage, c: Call): Stage {
    AfterCall(TreeValue(st.entity, NoPath, st, false, None), c).stage
  }

  /** The columns sqlAll scans: the specification's, and the foreign keys when an edge needs them. */
  function ScannedColumns(t: TreeValue): seq<Column> {
    SpecColumns(t.stage) + if t.withFKs || t.eager.Some? then ForeignKeys(t.entity) else []
  }

  /**
    A clone compiles to the original's plan but for one flag: it scans other columns exactly when
    the original had been loaded as somebody's eager edge, keeps foreign keys, and loads no edge itself.
   */
  lemma CloneCompilesTheSameIff(t: TreeValue)
    ensures WithoutFks(t).stage == t.stage && WithoutFks(t).path == t.path
    ensures ScannedColumns(WithoutFks(t)) == ScannedColumns(t) <==>
              !t.withFKs || t.eager.Some? || !t.entity.CertDeployment?
  {
    if t.entity.CertDeployment? {
      assert |SpecColumns(t.stage) + [CertificateFk]| == |SpecColumns(t.stage) + []| + 1;
    }
  }

  function HasId(id: int): Predicate {
    (r: Row) => r.id == id
  }

  lemma {:induction false} AtMostOneHasId(rows: seq<Row>, id: int)
    requires UniqueIds(rows)
    ensures |Filter(rows, HasId(id))| <= 1
  {
    if rows != [] {
      AtMostOneHasId(rows[1..], id);
      var rest := Filter(rows[1..], HasId(id));
      if rest != [] {
        assert rest[0] in rows[1..] && rest[0].id == id;
      }
    }
  }

  lemma RowsWithId(t: EntityType, id: int, db: Database)
    ensures Remaining(Start(EmptyStage(t).(preds := [HasId(id)])), db) == Filter(Table(db, t), HasId(id))
  {
    var kept := Filter(Table(db, t), r => Satisfies([HasId(id)], r));
    SortWithoutKeys(kept);
    forall r
      ensures Satisfies([HasId(id)], r) == HasId(id)(r)
    {
      assert [HasId(id)][0](r) == HasId(id)(r);
    }
    FilterSame(Table(db, t), r => Satisfies([HasId(id)], r), HasId(id));
    assert Drop(kept, 0) == kept;
  }

  lemma OnlyWithId(t: EntityType, id: int, db: Database)
    requires ValidDatabase(db)
    ensures var r := OnlyOf(Remaining(Start(EmptyStage(t).(preds := [HasId(id)])), db));
            && (forall x :: x in Table(db, t) && x.id == id ==> r == Ok(x))
            && ((forall x :: x in Table(db, t) ==> x.id != id) ==> r == Err(NotFound))
  {
    RowsWithId(t, id, db);
    AtMostOneHasId(Table(db, t), id);
    var rows := Filter(Table(db, t), HasId(id));
    forall x | x in Table(db, t) && x.id == id
      ensures x in rows
    {
      assert HasId(id)(x);
    }
    if rows != [] {
      assert rows[0] in rows;
    }
  }

  /** The client's Get: the row with this ID, or "not found"; never "not singular". */
  method Get(t: EntityType, id: int, db: Database) returns (r: Result<Row, Error>)
    requires ValidDatabase(db)
    ensures forall x :: x in Table(db, t) && x.id == id ==> r == Ok(x)
    ensures (forall x :: x in Table(db, t) ==> x.id != id) ==> r == Err(NotFound)
  {
    var q := new Query(t, NoPath);
    q.Where([HasId(id)]);
    ghost var plan := q.Plan();
    assert plan == Start(EmptyStage(t).(preds := [HasId(id)]));
    r := q.Only(db);
    OnlyWithId(t, id, db);
  }

  lemma {:induction false} PrepareErrorIsValidation(c: Chain)
    ensures PrepareError(c).Some? ==> PrepareError(c).value.Validation?
    decreases c
  {
    InvalidFieldIsValidation(c.stage.entity, c.stage.fields);
    if c.Hop? {
      PrepareErrorIsValidation(c.prev);
    }
  }

  lemma {:induction false} InvalidFieldIsValidation(t: EntityType, fields: seq<Column>)
    ensures InvalidField(t, fields).Some? ==> InvalidField(t, fields).value.Validation?
  {
    if fields != [] {
      InvalidFieldIsValidation(t, fields[1..]);
    }
  }
}
