/**
  What traversals denote. A hop joins its table with what the previous builder selects, sorts the
  joined rows and removes duplicates; this is the table, filtered by the links and sorted.
 */
module Traversals {
  import opened Relational
  import opened QueryPlan
  import opened QueryTheorems
  import opened CompilationPaths

  // ---------------------------------------------------------------- sorting copies of a row

  /** What sorting n copies of a row in front of sorted rows comes to. */
  function InsertCopies(keys: seq<OrderKey>, t: Row, n: nat, rs: seq<Row>): seq<Row> {
    if n == 0 then rs else InsertSorted(keys, t, InsertCopies(keys, t, n - 1, rs))
  }

  lemma {:induction false} SortCopies(keys: seq<OrderKey>, t: Row, n: nat, rs: seq<Row>)
    ensures Sort(keys, Repeat(t, n) + rs) == InsertCopies(keys, t, n, Sort(keys, rs))
  {
    var all := Repeat(t, n) + rs;
    if n == 0 {
      assert all == rs;
    } else {
      assert all[0] == t && all[1..] == Repeat(t, n - 1) + rs;
      SortCopies(keys, t, n - 1, rs);
    }
  }

  lemma {:induction false} NotBeforeItself(keys: seq<OrderKey>, t: Row)
    ensures !Before(keys, t, t)
  {
    if keys != [] {
      NotBeforeItself(keys[1..], t);
    }
  }

  /** Copies stop in front of the first row that does not come before them. */
  lemma {:induction false} CopiesStop(keys: seq<OrderKey>, t: Row, n: nat, rs: seq<Row>)
    requires rs == [] || !Before(keys, rs[0], t)
    ensures InsertCopies(keys, t, n, rs) == Repeat(t, n) + rs
  {
    if n == 0 {
      assert Repeat(t, 0) + rs == rs;
    } else {
      CopiesStop(keys, t, n - 1, rs);
      NotBeforeItself(keys, t);
      assert Repeat(t, n) + rs == [t] + (Repeat(t, n - 1) + rs);
    }
  }

  lemma {:induction false} CopiesPass(keys: seq<OrderKey>, t: Row, n: nat, rs: seq<Row>)
    requires rs != [] && Before(keys, rs[0], t)
    ensures InsertCopies(keys, t, n, rs) == [rs[0]] + InsertCopies(keys, t, n, rs[1..])
  {
    if n > 0 {
      CopiesPass(keys, t, n - 1, rs);
      assert ([rs[0]] + InsertCopies(keys, t, n - 1, rs[1..]))[1..] == InsertCopies(keys, t, n - 1, rs[1..]);
    }
  }

  /** Insertion does not notice rows in front of its place that are filtered out. */
  lemma {:induction false} InsertFiltered(keys: seq<OrderKey>, t: Row, rs: seq<Row>, p: Row -> bool)
    requires p(t) && forall r :: r in rs && !p(r) ==> Before(keys, r, t)
    ensures Filter(InsertSorted(keys, t, rs), p) == InsertSorted(keys, t, Filter(rs, p))
  {
    if rs == [] || !Before(keys, rs[0], t) {
      FilterFront(t, rs, p);
      if rs != [] {
        FrontIsKept(rs, p);
      }
    } else {
      InsertFiltered(keys, t, rs[1..], p);
      FilterFront(rs[0], InsertSorted(keys, t, rs[1..]), p);
      InsertBehind(keys, t, rs, p);
    }
  }

  lemma FrontIsKept(rs: seq<Row>, p: Row -> bool)
    requires rs != [] && p(rs[0])
    ensures Filter(rs, p) != [] && Filter(rs, p)[0] == rs[0]
  {
  }

  lemma InsertBehind(keys: seq<OrderKey>, t: Row, rs: seq<Row>, p: Row -> bool)
    requires rs != [] && Before(keys, rs[0], t)
    ensures InsertSorted(keys, t, Filter(rs, p))
         == (if p(rs[0]) then [rs[0]] else []) + InsertSorted(keys, t, Filter(rs[1..], p))
  {
    assert rs == [rs[0]] + rs[1..];
    FilterFront(rs[0], rs[1..], p);
    if p(rs[0]) {
      InsertPasses(keys, t, rs[0], Filter(rs[1..], p));
    } else {
      assert [] + Filter(rs[1..], p) == Filter(rs[1..], p);
    }
  }

  lemma InsertPasses(keys: seq<OrderKey>, t: Row, r: Row, rs: seq<Row>)
    requires Before(keys, r, t)
    ensures InsertSorted(keys, t, [r] + rs) == [r] + InsertSorted(keys, t, rs)
  {
    assert ([r] + rs)[1..] == rs;
  }

  lemma {:induction false} InsertKeepsMembers(keys: seq<OrderKey>, t: Row, n: nat, rs: seq<Row>)
    ensures forall r :: r in InsertCopies(keys, t, n, rs) <==> r in rs || (n > 0 && r == t)
  {
    if n > 0 {
      var inner := InsertCopies(keys, t, n - 1, rs);
      InsertKeepsMembers(keys, t, n - 1, rs);
      InsertKeepsRows(keys, t, inner);
      assert forall r :: r in InsertSorted(keys, t, inner) <==> r in multiset(InsertSorted(keys, t, inner));
    }
  }

  lemma {:induction false} CopiesFiltered(keys: seq<OrderKey>, t: Row, n: nat, rs: seq<Row>, p: Row -> bool)
    requires p(t) && forall r :: r in rs && !p(r) ==> Before(keys, r, t)
    ensures Filter(InsertCopies(keys, t, n, rs), p) == InsertCopies(keys, t, n, Filter(rs, p))
  {
    if n > 0 {
      CopiesFiltered(keys, t, n - 1, rs, p);
      InsertKeepsMembers(keys, t, n - 1, rs);
      InsertFiltered(keys, t, InsertCopies(keys, t, n - 1, rs), p);
    }
  }

  // ---------------------------------------------------------------- DISTINCT on sorted copies

  lemma {:induction false} FilterCopies(t: Row, n: nat, p: Row -> bool)
    ensures Filter(Repeat(t, n), p) == Repeat(t, if p(t) then n else 0)
  {
    if n > 0 {
      FilterCopies(t, n - 1, p);
      assert Repeat(t, n)[1..] == Repeat(t, n - 1);
      assert Repeat(t, n) == [t] + Repeat(t, n - 1);
    }
  }

  /** Copies of one row in front of other rows collapse to one. */
  lemma DistinctCopies(cols: seq<Column>, t: Row, n: nat, rest: seq<Row>)
    requires n > 0 && Id in cols && forall r :: r in rest ==> r.id != t.id
    ensures Distinct(cols, Repeat(t, n) + rest) == [t] + Distinct(cols, rest)
  {
    var all := Repeat(t, n) + rest;
    assert all[0] == t && all[1..] == Repeat(t, n - 1) + rest;
    FilterConcat(Repeat(t, n - 1), rest, Differs(cols, t));
    FilterCopies(t, n - 1, Differs(cols, t));
    forall r | r in rest
      ensures Differs(cols, t)(r)
    {
      if Project(cols, r) == Project(cols, t) { ProjectWithId(cols, r, t); }
    }
    FilterAll(rest, Differs(cols, t));
    assert Repeat(t, 0) + rest == rest;
  }

  /** DISTINCT commutes with inserting copies of a new row: one of them stays, in its place. */
  lemma {:induction false} DistinctInsert(cols: seq<Column>, keys: seq<OrderKey>, t: Row, n: nat, rs: seq<Row>)
    requires n > 0 && Id in cols && Coherent(rs) && forall r :: r in rs ==> r.id != t.id
    ensures Distinct(cols, InsertCopies(keys, t, n, rs)) == InsertSorted(keys, t, Distinct(cols, rs))
    decreases |rs|
  {
    if rs == [] || !Before(keys, rs[0], t) {
      CopiesStop(keys, t, n, rs);
      DistinctCopies(cols, t, n, rs);
    } else {
      CopiesPass(keys, t, n, rs);
      KeptFront(cols, rs[0], InsertCopies(keys, t, n, rs[1..]));
      OthersInsert(cols, keys, t, n, rs);
      var others := Others(cols, rs);
      CoherentWithin(others, rs);
      DistinctInsert(cols, keys, t, n, others);
      DistinctUnfolds(cols, rs);
      InsertPasses(keys, t, rs[0], Distinct(cols, others));
    }
  }

  lemma OthersInsert(cols: seq<Column>, keys: seq<OrderKey>, t: Row, n: nat, rs: seq<Row>)
    requires rs != [] && Id in cols && Coherent(rs) && Before(keys, rs[0], t) && forall r :: r in rs ==> r.id != t.id
    ensures Filter(InsertCopies(keys, t, n, rs[1..]), Differs(cols, rs[0]))
         == InsertCopies(keys, t, n, Others(cols, rs))
  {
    if Project(cols, t) == Project(cols, rs[0]) { ProjectWithId(cols, t, rs[0]); }
    forall r | r in rs[1..] && !Differs(cols, rs[0])(r)
      ensures Before(keys, r, t)
    {
      ProjectWithId(cols, r, rs[0]);
      var k :| 0 <= k < |rs[1..]| && rs[1..][k] == r;
      assert rs[k + 1] == r;
    }
    CopiesFiltered(keys, t, n, rs[1..], Differs(cols, rs[0]));
  }

  // ---------------------------------------------------------------- one hop

  /** The rows of a table that are linked to the selection and satisfy the predicates. */
  ghost function Semijoin(from: EntityType, to: EntityType, selected: seq<Row>, preds: seq<Predicate>,
                          table: seq<Row>): seq<Row>
  {
    Filter(table, IsMatch(from, to, selected, preds))
  }

  ghost function IsMatch(from: EntityType, to: EntityType, selected: seq<Row>, preds: seq<Predicate>): Predicate {
    t => HasLink(from, to, selected, t) && Satisfies(preds, t)
  }

  function Keep(preds: seq<Predicate>): Predicate {
    r => Satisfies(preds, r)
  }

  /** A join, filtered, sorted and without duplicates, is the table filtered by the links and sorted. */
  lemma {:induction false} SortedJoin(cols: seq<Column>, keys: seq<OrderKey>, from: EntityType, to: EntityType,
                                      selected: seq<Row>, preds: seq<Predicate>, table: seq<Row>)
    requires Id in cols && UniqueIds(table)
    ensures Distinct(cols, Sort(keys, Filter(Join(from, to, selected, table), Keep(preds))))
         == Sort(keys, Semijoin(from, to, selected, preds, table))
  {
    if table != [] {
      var t := table[0];
      var rest := Filter(Join(from, to, selected, table[1..]), Keep(preds));
      var n := Copies(from, to, selected, preds, t);
      SortedJoin(cols, keys, from, to, selected, preds, table[1..]);
      assert Distinct(cols, Sort(keys, Filter(Join(from, to, selected, table), Keep(preds))))
          == (var unrepeated := Distinct(cols, Sort(keys, rest));
              if n > 0 then InsertSorted(keys, t, unrepeated) else unrepeated) by {
        JoinFront(from, to, selected, preds, table);
        SortCopies(keys, t, n, rest);
        RestOfJoin(keys, from, to, selected, preds, table);
        if n > 0 {
          DistinctInsert(cols, keys, t, n, Sort(keys, rest));
        }
      }
      SemijoinFront(keys, from, to, selected, preds, table);
    }
  }

  lemma SemijoinFront(keys: seq<OrderKey>, from: EntityType, to: EntityType, selected: seq<Row>,
                      preds: seq<Predicate>, table: seq<Row>)
    requires table != []
    ensures var rest := Sort(keys, Semijoin(from, to, selected, preds, table[1..]));
            Sort(keys, Semijoin(from, to, selected, preds, table))
            == (if Copies(from, to, selected, preds, table[0]) > 0 then InsertSorted(keys, table[0], rest) else rest)
  {
    var t, rest := table[0], Semijoin(from, to, selected, preds, table[1..]);
    assert Semijoin(from, to, selected, preds, table)
        == if IsMatch(from, to, selected, preds)(t) then [t] + rest else rest by {
      assert table == [t] + table[1..];
      FilterFront(t, table[1..], IsMatch(from, to, selected, preds));
    }
    assert IsMatch(from, to, selected, preds)(t) <==> Copies(from, to, selected, preds, t) > 0 by {
      HasLinkIff(from, to, selected, t);
    }
    assert ([t] + rest)[1..] == rest;
  }

  /** How often a row of the table passes the predicates in the join. */
  function Copies(from: EntityType, to: EntityType, selected: seq<Row>, preds: seq<Predicate>, t: Row): nat {
    if Satisfies(preds, t) then |Filter(selected, p => Linked(from, to, p, t))| else 0
  }

  lemma HasLinkIff(from: EntityType, to: EntityType, selected: seq<Row>, t: Row)
    ensures HasLink(from, to, selected, t) <==> |Filter(selected, p => Linked(from, to, p, t))| > 0
  {
    var linked := Filter(selected, p => Linked(from, to, p, t));
    if HasLink(from, to, selected, t) {
      var p :| p in selected && Linked(from, to, p, t);
      assert p in linked;
    }
    if linked != [] {
      assert linked[0] in linked;
    }
  }

  lemma JoinFront(from: EntityType, to: EntityType, selected: seq<Row>, preds: seq<Predicate>, table: seq<Row>)
    requires table != []
    ensures Filter(Join(from, to, selected, table), Keep(preds))
         == Repeat(table[0], Copies(from, to, selected, preds, table[0]))
            + Filter(Join(from, to, selected, table[1..]), Keep(preds))
  {
    var n := |Filter(selected, p => Linked(from, to, p, table[0]))|;
    FilterConcat(Repeat(table[0], n), Join(from, to, selected, table[1..]), Keep(preds));
    FilterCopies(table[0], n, Keep(preds));
  }

  lemma RestOfJoin(keys: seq<OrderKey>, from: EntityType, to: EntityType, selected: seq<Row>, preds: seq<Predicate>,
                   table: seq<Row>)
    requires table != [] && UniqueIds(table)
    ensures var rest := Sort(keys, Filter(Join(from, to, selected, table[1..]), Keep(preds)));
            Coherent(rest) && forall r :: r in rest ==> r.id != table[0].id
  {
    var joined := Join(from, to, selected, table[1..]);
    SortKeepsRows(keys, Filter(joined, Keep(preds)));
    JoinIsCoherent(from, to, selected, table[1..]);
    CoherentWithin(Sort(keys, Filter(joined, Keep(preds))), joined);
    forall r | r in joined
      ensures r.id != table[0].id
    {
      JoinIsImage(from, to, selected, table[1..], r);
    }
  }

  // ---------------------------------------------------------------- one stage of a traversal

  /** The rows of a stage's table that its path leads to, given what the previous builder selects. */
  ghost function Matches(c: Chain, db: Database, previous: seq<Row>): seq<Row> {
    var st := c.stage;
    match c
    case Start(_) => Filter(Table(db, st.entity), Keep(st.preds))
    case FromNode(from, id, _) => Semijoin(from, st.entity, NodeRow(db, from, id), st.preds, Table(db, st.entity))
    case Hop(prev, _) => Semijoin(prev.stage.entity, st.entity, previous, st.preds, Table(db, st.entity))
  }

  function Previous(c: Chain, db: Database): seq<Row> {
    if c.Hop? then QueryRows(c.prev, db) else []
  }

  lemma {:induction false} InsertUnique(keys: seq<OrderKey>, t: Row, rs: seq<Row>)
    requires UniqueIds(rs) && forall r :: r in rs ==> r.id != t.id
    ensures UniqueIds(InsertSorted(keys, t, rs))
    ensures forall r :: r in InsertSorted(keys, t, rs) <==> r == t || r in rs
  {
    if rs != [] && Before(keys, rs[0], t) {
      InsertUnique(keys, t, rs[1..]);
      assert forall r :: r in rs[1..] ==> r.id != rs[0].id;
      var inner := InsertSorted(keys, t, rs[1..]);
      assert forall b :: 0 <= b < |inner| ==> inner[b] in inner;
    }
  }

  lemma {:induction false} SortUnique(keys: seq<OrderKey>, rs: seq<Row>)
    requires UniqueIds(rs)
    ensures UniqueIds(Sort(keys, rs))
  {
    if rs != [] {
      SortUnique(keys, rs[1..]);
      SortKeepsRows(keys, rs[1..]);
      InsertUnique(keys, rs[0], Sort(keys, rs[1..]));
    }
  }

  lemma {:induction false} FilterUnique(rs: seq<Row>, p: Row -> bool)
    requires UniqueIds(rs)
    ensures UniqueIds(Filter(rs, p))
  {
    if rs != [] {
      FilterUnique(rs[1..], p);
      var rest := Filter(rs[1..], p);
      assert forall b :: 0 <= b < |rest| ==> rest[b] in rs[1..];
    }
  }

  lemma UniqueIsUnrepeated(cols: seq<Column>, rs: seq<Row>)
    requires Id in cols && UniqueIds(rs)
    ensures NoRepeats(cols, rs)
  {
    forall a, b | 0 <= a < b < |rs|
      ensures Project(cols, rs[a]) != Project(cols, rs[b])
    {
      if Project(cols, rs[a]) == Project(cols, rs[b]) { ProjectWithId(cols, rs[a], rs[b]); }
    }
  }

  /** The entities a builder reaches, each once: its table, filtered by the path and the predicates, and sorted. */
  lemma ReachedIsSorted(c: Chain, db: Database)
    requires ValidDatabase(db)
    ensures Reached(c, db) == Sort(c.stage.order, Matches(c, db, Previous(c, db)))
    ensures c.Start? ==> Base(c, db) == Reached(c, db)
  {
    var st, table := c.stage, Table(db, c.stage.entity);
    SpecColumnsHaveId(st);
    FilterSame(SourceRows(c, db), r => Satisfies(st.preds, r), Keep(st.preds));
    match c
    case Start(_) =>
      FilterUnique(table, Keep(st.preds));
      SortUnique(st.order, Filter(table, Keep(st.preds)));
      UniqueIsUnrepeated(SpecColumns(st), Base(c, db));
      DistinctOfUnrepeated(SpecColumns(st), Base(c, db));
    case FromNode(from, id, _) =>
      SortedJoin(SpecColumns(st), st.order, from, st.entity, NodeRow(db, from, id), st.preds, table);
    case Hop(prev, _) =>
      SortedJoin(SpecColumns(st), st.order, prev.stage.entity, st.entity, QueryRows(prev, db), st.preds, table);
  }

  /** Up to the end of what querySpec cuts no entity occurs twice; or nothing is left to cut. */
  ghost predicate NoRepeatsLoaded(rs: seq<Row>, st: Stage) {
    |rs| <= OffsetOf(st) || NoRepeats([Id], Take(rs, OffsetOf(st) + LoadWindow(st, |rs|)))
  }

  /** How many rows behind the offset querySpec shows, if there are enough. */
  function LoadWindow(st: Stage, all: nat): nat {
    if Limited(st) then st.limit.value else all + 1
  }

  predicate Limited(st: Stage) {
    st.limit.Some? && st.limit.value > 0
  }

  /** Loading names each entity once up to the end of its cut: always, unless duplicates are asked for. */
  ghost predicate LoadsOnce(c: Chain, db: Database) {
    c.Start? || c.stage.unique != Some(false) || NoRepeatsLoaded(Base(c, db), c.stage)
  }

  /**
    Loading a stage, whatever its clauses: this gives the matching rows of its table in its order,
    each once, then cut, exactly if nothing that Unique(false) repeats is shown or shifts the cut.
   */
  lemma LoadedHopIff(c: Chain, db: Database)
    requires ValidDatabase(db)
    ensures NodeRows(c, db) == SpecCut(c.stage, Sort(c.stage.order, Matches(c, db, Previous(c, db)))) <==>
              LoadsOnce(c, db)
  {
    PathsAreCuts(c, db);
    ReachedIsSorted(c, db);
    if !c.Start? && c.stage.unique == Some(false) {
      SpecColumnsHaveId(c.stage);
      BaseRows(c, db);
      DistinctById(SpecColumns(c.stage), [Id], Base(c, db));
      RepeatsLoadedIff(c.stage, Base(c, db));
    }
  }

  lemma RepeatsLoadedIff(st: Stage, rs: seq<Row>)
    ensures SpecCut(st, rs) == SpecCut(st, Distinct([Id], rs)) <==> NoRepeatsLoaded(rs, st)
  {
    CutsAgreeIff([Id], rs, OffsetOf(st), LoadWindow(st, |rs|));
    LoadedWindow(st, rs, |rs|);
    LoadedWindow(st, Distinct([Id], rs), |rs|);
  }

  lemma LoadedWindow(st: Stage, xs: seq<Row>, all: nat)
    requires |xs| <= all
    ensures SpecCut(st, xs) == Take(Drop(xs, OffsetOf(st)), LoadWindow(st, all))
  {
  }

  /** Up to the end of its cut the selection names each entity once. */
  ghost predicate NamesOnce(c: Chain, db: Database) {
    if c.stage.unique == Some(true) then c.stage.fields == [] || NoRepeatsShown(c.stage.fields, Reached(c, db), c.stage)
    else c.Start? || NoRepeatsShown([Id], Base(c, db), c.stage)
  }

  /**
    Compiling a stage as the start of the next one, whatever its clauses: this selects the matching
    rows in the stage's order, cut by its offset and limit, exactly if the cut names each entity once.
    Otherwise duplicates, or a DISTINCT on fields in which entities look alike, shift the cut.
   */
  lemma SelectedHopIff(c: Chain, db: Database)
    requires ValidDatabase(db)
    ensures QueryRows(c, db) == SqlCut(c.stage, Sort(c.stage.order, Matches(c, db, Previous(c, db)))) <==>
              NamesOnce(c, db)
  {
    var st, base, reached := c.stage, Base(c, db), Reached(c, db);
    PathsAreCuts(c, db);
    ReachedIsSorted(c, db);
    SpecColumnsHaveId(st);
    BaseRows(c, db);
    if st.unique == Some(true) {
      if st.fields == [] {
        SameDuplicates(c, db);
      } else {
        DistinctTwice(SpecColumns(st), st.fields, base);
        CutsCompare(st, reached, Distinct(st.fields, reached), |reached|);
        DistinctShownIff(st.fields, reached, st);
      }
    } else if !c.Start? {
      DistinctById(SpecColumns(st), [Id], base);
      CutsCompare(st, reached, base, |base|);
      DistinctShownIff([Id], base, st);
    }
  }

  // ---------------------------------------------------------------- chains of any length

  /**
    The image of the start set: at each hop the rows of the table that are linked to the image so
    far, under the hop's own predicates, in its own order, cut by its own offset and limit.
   */
  ghost function Image(c: Chain, db: Database): seq<Row>
    decreases c
  {
    SqlCut(c.stage, Sort(c.stage.order, Matches(c, db, if c.Hop? then Image(c.prev, db) else [])))
  }

  /** No stage shifts its cut; duplicates do no harm where nothing is cut. */
  ghost predicate CutsEntities(c: Chain, db: Database)
    decreases c
  {
    && (NamesOnce(c, db) || (c.stage.limit == None && c.stage.offset == None && c.stage.unique != Some(true)))
    && (c.Hop? ==> CutsEntities(c.prev, db))
  }

  /** Links depend on which rows are selected, not on their order or number. */
  lemma MatchesOfSet(c: Chain, db: Database, a: seq<Row>, b: seq<Row>)
    requires forall r :: r in a <==> r in b
    ensures Matches(c, db, a) == Matches(c, db, b)
  {
    if c.Hop? {
      var from, to := c.prev.stage.entity, c.stage.entity;
      FilterSame(Table(db, to), IsMatch(from, to, a, c.stage.preds), IsMatch(from, to, b, c.stage.preds));
    }
  }

  /** Where nothing is cut, a stage selects the rows that match, perhaps more than once. */
  lemma UncutStage(c: Chain, db: Database, r: Row)
    requires ValidDatabase(db) && c.stage.limit == None && c.stage.offset == None && c.stage.unique != Some(true)
    ensures r in QueryRows(c, db) <==> r in SqlCut(c.stage, Sort(c.stage.order, Matches(c, db, Previous(c, db))))
  {
    PathsAreCuts(c, db);
    ReachedIsSorted(c, db);
    SpecColumnsHaveId(c.stage);
    BaseRows(c, db);
    assert Drop(Base(c, db), 0) == Base(c, db) && Drop(Reached(c, db), 0) == Reached(c, db);
    if r in Base(c, db) {
      DistinctKeepsEntity(SpecColumns(c.stage), Base(c, db), r);
    }
    if r in Reached(c, db) {
      DistinctIsSubset(SpecColumns(c.stage), Base(c, db), r);
    }
  }

  /** Chains of any length, with any limits and offsets, denote the image of the start set. */
  lemma {:induction false} TraversalIsImage(c: Chain, db: Database)
    requires ValidDatabase(db) && CutsEntities(c, db)
    ensures forall r :: r in QueryRows(c, db) <==> r in Image(c, db)
    decreases c
  {
    if c.Hop? {
      TraversalIsImage(c.prev, db);
      MatchesOfSet(c, db, QueryRows(c.prev, db), Image(c.prev, db));
    }
    if NamesOnce(c, db) {
      SelectedHopIff(c, db);
    } else {
      forall r
        ensures r in QueryRows(c, db) <==> r in Image(c, db)
      {
        UncutStage(c, db, r);
      }
    }
  }

  /** Loading the end of a traversal gives the entities of the image in order, each once unless that is switched off. */
  lemma LoadedTraversalIff(c: Chain, db: Database)
    requires ValidDatabase(db) && c.Hop? && CutsEntities(c.prev, db)
    ensures NodeRows(c, db) == SpecCut(c.stage, Sort(c.stage.order, Matches(c, db, Image(c.prev, db)))) <==>
              LoadsOnce(c, db)
  {
    LoadedHopIff(c, db);
    TraversalIsImage(c.prev, db);
    MatchesOfSet(c, db, QueryRows(c.prev, db), Image(c.prev, db));
  }

  // ---------------------------------------------------------------- there and back

  /** Whatever a builder selects are rows of its table. */
  lemma SelectsFromTable(c: Chain, db: Database, r: Row)
    requires r in QueryRows(c, db)
    ensures r in Table(db, c.stage.entity)
  {
    PathsAreCuts(c, db);
    if c.stage.unique == Some(true) {
      if r in Distinct(SelectedColumns(c.stage), Base(c, db)) {
        DistinctIsSubset(SelectedColumns(c.stage), Base(c, db), r);
      }
    }
    BaseIsFromTable(c, db, r);
  }

  lemma BaseIsFromTable(c: Chain, db: Database, r: Row)
    requires r in Base(c, db)
    ensures r in Table(db, c.stage.entity)
  {
    SortKeepsRows(c.stage.order, Filter(SourceRows(c, db), r => Satisfies(c.stage.preds, r)));
    SourceIsImage(c, db, r);
  }

  /** Certificates -> deployments -> certificates gives exactly the starting certificates that have a deployment. */
  lemma ThereAndBack(start: Chain, db: Database, out: Stage, back: Stage)
    requires ValidDatabase(db) && start.stage.entity.Certificate?
    requires out == EmptyStage(CertDeployment) && back == EmptyStage(Certificate)
    ensures NodeRows(Hop(Hop(start, out), back), db) == Filter(db.certificates, IsBack(start, db))
  {
    var there := Hop(start, out);
    LoadedHopIff(Hop(there, back), db);
    forall t | t in db.certificates
      ensures IsMatch(CertDeployment, Certificate, QueryRows(there, db), [])(t) <==> IsBack(start, db)(t)
    {
      BackIff(start, db, out, t);
    }
    FilterSame(db.certificates, IsMatch(CertDeployment, Certificate, QueryRows(there, db), []), IsBack(start, db));
    SortWithoutKeys(Filter(db.certificates, IsBack(start, db)));
    assert Drop(Filter(db.certificates, IsBack(start, db)), 0) == Filter(db.certificates, IsBack(start, db));
  }

  /** A starting certificate that has a deployment. */
  ghost function IsBack(start: Chain, db: Database): Predicate {
    c => c in QueryRows(start, db) && exists d :: d in db.deployments && ForeignKey(d) == Some(c.id)
  }

  lemma BackIff(start: Chain, db: Database, out: Stage, t: Row)
    requires ValidDatabase(db) && start.stage.entity.Certificate? && t in db.certificates
    requires out == EmptyStage(CertDeployment)
    ensures HasLink(CertDeployment, Certificate, QueryRows(Hop(start, out), db), t) <==>
            t in QueryRows(start, db) && exists d :: d in db.deployments && ForeignKey(d) == Some(t.id)
  {
    OutRows(start, db, out);
    forall c | c in QueryRows(start, db)
      ensures c in db.certificates
    {
      SelectsFromTable(start, db, c);
    }
    LinksBackIff(db, QueryRows(start, db), QueryRows(Hop(start, out), db), t);
  }

  lemma LinksBackIff(db: Database, certificates: seq<Row>, deployments: seq<Row>, t: Row)
    requires ValidDatabase(db) && t in db.certificates && forall c :: c in certificates ==> c in db.certificates
    requires forall d :: d in deployments
                         <==> d in db.deployments && HasLink(Certificate, CertDeployment, certificates, d)
    ensures HasLink(CertDeployment, Certificate, deployments, t) <==>
            t in certificates && exists d :: d in db.deployments && ForeignKey(d) == Some(t.id)
  {
    if HasLink(CertDeployment, Certificate, deployments, t) {
      var d :| d in deployments && Linked(CertDeployment, Certificate, d, t);
      var c :| c in certificates && Linked(Certificate, CertDeployment, c, d);
      assert c == t;
    }
    if t in certificates {
      if d :| d in db.deployments && ForeignKey(d) == Some(t.id) {
        assert Linked(Certificate, CertDeployment, t, d);
        assert d in deployments && Linked(CertDeployment, Certificate, d, t);
      }
    }
  }

  lemma OutRows(start: Chain, db: Database, out: Stage)
    requires ValidDatabase(db) && start.stage.entity.Certificate? && out == EmptyStage(CertDeployment)
    ensures forall d :: d in QueryRows(Hop(start, out), db)
                        <==> d in db.deployments && HasLink(Certificate, CertDeployment, QueryRows(start, db), d)
  {
    var there := Hop(start, out);
    PathsAreCuts(there, db);
    BaseRows(there, db);
    assert Drop(Base(there, db), 0) == Base(there, db);
    forall d
      ensures d in SourceRows(there, db)
              <==> d in db.deployments && HasLink(Certificate, CertDeployment, QueryRows(start, db), d)
    {
      SourceIsImage(there, db, d);
    }
  }
}
