/** When the two compilations of a query builder select the same rows. */
module CompilationPaths {
  import opened Relational
  import opened QueryPlan
  import opened QueryTheorems
  import opened ChangeOrderFields

  // ---------------------------------------------------------------- DISTINCT and cuts

  /** The DISTINCT of a prefix is a prefix of the DISTINCT. */
  lemma {:induction false} DistinctPrefix(cols: seq<Column>, a: seq<Row>, b: seq<Row>)
    ensures Distinct(cols, a) <= Distinct(cols, a + b)
    decreases |a|
  {
    if a != [] {
      var differs := Differs(cols, a[0]);
      assert (a + b)[0] == a[0] && (a + b)[1..] == a[1..] + b;
      FilterConcat(a[1..], b, differs);
      DistinctPrefix(cols, Filter(a[1..], differs), Filter(b, differs));
    }
  }

  lemma {:induction false} FullFilter<T(!new)>(xs: seq<T>, p: T -> bool)
    requires |Filter(xs, p)| == |xs|
    ensures Filter(xs, p) == xs && forall x :: x in xs ==> p(x)
  {
    if xs != [] {
      FullFilter(xs[1..], p);
    }
  }

  lemma {:induction false} DistinctOfUnrepeated(cols: seq<Column>, rs: seq<Row>)
    requires NoRepeats(cols, rs)
    ensures Distinct(cols, rs) == rs
    decreases |rs|
  {
    if rs != [] {
      FilterAll(rs[1..], Differs(cols, rs[0]));
      DistinctOfUnrepeated(cols, rs[1..]);
    }
  }

  /** If DISTINCT removes nothing, there was nothing to remove. */
  lemma {:induction false} SameLengthIsUnrepeated(cols: seq<Column>, rs: seq<Row>)
    requires |Distinct(cols, rs)| == |rs|
    ensures NoRepeats(cols, rs)
    decreases |rs|
  {
    if rs != [] {
      var rest := rs[1..];
      var differs := Differs(cols, rs[0]);
      FullFilter(rest, differs);
      SameLengthIsUnrepeated(cols, rest);
      forall a, b | 0 <= a < b < |rs|
        ensures Project(cols, rs[a]) != Project(cols, rs[b])
      {
        assert rs[b] == rest[b - 1] && differs(rest[b - 1]);
        if a > 0 { assert rs[a] == rest[a - 1]; }
      }
    }
  }

  /** A cut shows the same rows with and without DISTINCT exactly if nothing is repeated up to its end. */
  lemma CutsAgreeIff(cols: seq<Column>, rs: seq<Row>, offset: nat, n: nat)
    requires n > 0
    ensures Take(Drop(rs, offset), n) == Take(Drop(Distinct(cols, rs), offset), n)
            <==> |rs| <= offset || NoRepeats(cols, Take(rs, offset + n))
  {
    if |rs| > offset {
      if NoRepeats(cols, Take(rs, offset + n)) {
        UnrepeatedShows(cols, rs, offset, n);
      } else {
        RepeatsShow(cols, rs, offset, n);
      }
    }
  }

  lemma UnrepeatedShows(cols: seq<Column>, rs: seq<Row>, offset: nat, n: nat)
    requires |rs| > offset && NoRepeats(cols, Take(rs, offset + n))
    ensures Take(Drop(rs, offset), n) == Take(Drop(Distinct(cols, rs), offset), n)
  {
    var seen := Take(rs, offset + n);
    assert rs == seen + rs[|seen|..];
    DistinctPrefix(cols, seen, rs[|seen|..]);
    DistinctOfUnrepeated(cols, seen);
    SamePrefixShows(rs, Distinct(cols, rs), offset, n);
  }

  lemma SamePrefixShows<T>(xs: seq<T>, ys: seq<T>, offset: nat, n: nat)
    requires |xs| > offset && Take(xs, offset + n) <= ys && (|xs| <= offset + n ==> ys == xs)
    ensures Take(Drop(xs, offset), n) == Take(Drop(ys, offset), n)
  {
    if |xs| > offset + n {
      assert xs[..offset + n] == ys[..offset + n];
      assert Take(Drop(xs, offset), n) == xs[..offset + n][offset..];
      assert Take(Drop(ys, offset), n) == ys[..offset + n][offset..];
    }
  }

  /** If a row is repeated by position p, what stands at p stands further in front after DISTINCT. */
  lemma MovesToTheFront(cols: seq<Column>, rs: seq<Row>, p: nat) returns (q: nat)
    requires p < |rs| && !NoRepeats(cols, rs[..p + 1])
    ensures q < p && q < |Distinct(cols, rs)| && Project(cols, Distinct(cols, rs)[q]) == Project(cols, rs[p])
  {
    var upto := rs[..p + 1];
    assert rs == upto + rs[p + 1..];
    DistinctPrefix(cols, upto, rs[p + 1..]);
    if |Distinct(cols, upto)| == |upto| {
      SameLengthIsUnrepeated(cols, upto);
    }
    assert upto[p] == rs[p];
    var y := DistinctCoversAll(cols, upto, rs[p]);
    q :| 0 <= q < |Distinct(cols, upto)| && Distinct(cols, upto)[q] == y;
  }

  lemma RepeatsShow(cols: seq<Column>, rs: seq<Row>, offset: nat, n: nat)
    requires n > 0 && |rs| > offset && !NoRepeats(cols, Take(rs, offset + n))
    ensures Take(Drop(rs, offset), n) != Take(Drop(Distinct(cols, rs), offset), n)
  {
    var ys := Distinct(cols, rs);
    var a, b :| 0 <= a < b < |Take(rs, offset + n)| && Project(cols, rs[a]) == Project(cols, rs[b]);
    var p := if b > offset then b else offset;
    assert rs[..p + 1][a] == rs[a] && rs[..p + 1][b] == rs[b];
    var q := MovesToTheFront(cols, rs, p);
    if p < |ys| {
      DistinctHasNoRepeats(cols, rs);
      assert Project(cols, ys[q]) != Project(cols, ys[p]);
    }
    CutsDiffer(rs, ys, offset, n, p);
  }

  lemma CutsDiffer<T>(xs: seq<T>, ys: seq<T>, offset: nat, n: nat, p: nat)
    requires offset <= p < offset + n && p < |xs| && (p < |ys| ==> ys[p] != xs[p])
    ensures Take(Drop(xs, offset), n) != Take(Drop(ys, offset), n)
  {
    var shown, shown' := Take(Drop(xs, offset), n), Take(Drop(ys, offset), n);
    assert shown[p - offset] == xs[p];
    assert p < |ys| ==> shown'[p - offset] == ys[p];
  }

  // ---------------------------------------------------------------- the cuts of the two compilations

  function OffsetOf(st: Stage): nat {
    if st.offset.Some? then st.offset.value else 0
  }

  /** What querySpec cuts: a limit of 0 is none. */
  function SpecCut(st: Stage, rs: seq<Row>): seq<Row> {
    var rows := Drop(rs, OffsetOf(st));
    if st.limit.Some? && st.limit.value != 0 then Take(rows, st.limit.value) else rows
  }

  /** What sqlQuery cuts: an offset without a limit brings MaxInt32 along. */
  function SqlCut(st: Stage, rs: seq<Row>): seq<Row> {
    var rows := Drop(rs, OffsetOf(st));
    if st.limit.Some? then Take(rows, st.limit.value) else if st.offset.Some? then Take(rows, MAX_INT32) else rows
  }

  /** How many rows behind the offset sqlQuery shows, if there are enough. */
  function Window(st: Stage, all: nat): nat {
    if st.limit.Some? then st.limit.value else if st.offset.Some? then MAX_INT32 else all
  }

  /** Up to the end of the cut no two rows look alike; or the cut shows nothing anyway. */
  ghost predicate NoRepeatsShown(cols: seq<Column>, rs: seq<Row>, st: Stage) {
    || st.limit == Some(0)
    || |rs| <= OffsetOf(st)
    || NoRepeats(cols, Take(rs, OffsetOf(st) + Window(st, |rs|)))
  }

  /** The two differences that are there even if the cuts are made from the same rows. */
  predicate CutsAlike(st: Stage, remaining: nat) {
    && (st.limit == Some(0) ==> remaining == 0)
    && (st.limit == None && st.offset.Some? ==> remaining <= MAX_INT32)
  }

  lemma CutsCompare(st: Stage, nodes: seq<Row>, rows: seq<Row>, all: nat)
    requires |nodes| <= all && |rows| <= all
    ensures SpecCut(st, nodes) == SqlCut(st, rows) <==>
            && CutsAlike(st, |Drop(nodes, OffsetOf(st))|)
            && Take(Drop(nodes, OffsetOf(st)), Window(st, all)) == Take(Drop(rows, OffsetOf(st)), Window(st, all))
    ensures SqlCut(st, nodes) == SqlCut(st, rows) <==>
            Take(Drop(nodes, OffsetOf(st)), Window(st, all)) == Take(Drop(rows, OffsetOf(st)), Window(st, all))
  {
  }

  /** Whether DISTINCT is applied before the cut makes no difference exactly if the cut shows no repeats. */
  lemma DistinctShownIff(cols: seq<Column>, rs: seq<Row>, st: Stage)
    ensures var w := Window(st, |rs|);
            Take(Drop(rs, OffsetOf(st)), w) == Take(Drop(Distinct(cols, rs), OffsetOf(st)), w)
            <==> NoRepeatsShown(cols, rs, st)
  {
    var offset, w := OffsetOf(st), Window(st, |rs|);
    if w > 0 {
      CutsAgreeIff(cols, rs, offset, w);
    }
    assert w == 0 ==> st.limit == Some(0) || rs == [];
  }

  // ---------------------------------------------------------------- agreement

  lemma PathsAreCuts(c: Chain, db: Database)
    ensures var base := Base(c, db);
            var removes := if c.stage.unique.Some? then c.stage.unique.value else !c.Start?;
            NodeRows(c, db) == SpecCut(c.stage, if removes then Distinct(SpecColumns(c.stage), base) else base)
    ensures var base := Base(c, db);
            QueryRows(c, db) ==
            SqlCut(c.stage, if c.stage.unique == Some(true) then Distinct(SelectedColumns(c.stage), base) else base)
    ensures var base := Base(c, db);
            var removes := if c.stage.unique.Some? then c.stage.unique.value else !c.Start?;
            Remaining(c, db) == Drop(if removes then Distinct(SpecColumns(c.stage), base) else base, OffsetOf(c.stage))
  {
  }

  /** The entities a builder reaches, each once: what querySpec cuts when it removes duplicates. */
  function Reached(c: Chain, db: Database): seq<Row> {
    Distinct(SpecColumns(c.stage), Base(c, db))
  }

  /** An unset Unique is read differently on a traversal: only the entity path removes duplicates. */
  lemma UnsetUniqueAgreesIff(c: Chain, db: Database)
    requires ValidDatabase(db) && c.stage.unique == None && !c.Start?
    ensures NodeRows(c, db) == QueryRows(c, db) <==>
            CutsAlike(c.stage, |Remaining(c, db)|) && NoRepeatsShown([Id], Base(c, db), c.stage)
  {
    var base := Base(c, db);
    PathsAreCuts(c, db);
    SpecColumnsHaveId(c.stage);
    BaseRows(c, db);
    DistinctById(SpecColumns(c.stage), [Id], base);
    CutsCompare(c.stage, Distinct([Id], base), base, |base|);
    DistinctShownIff([Id], base, c.stage);
  }

  /** DISTINCT on fields without the ID loses entities as soon as two of those shown look alike. */
  lemma ProjectionWithoutIdAgreesIff(c: Chain, db: Database)
    requires ValidDatabase(db) && c.stage.unique == Some(true) && c.stage.fields != []
    ensures NodeRows(c, db) == QueryRows(c, db) <==>
            CutsAlike(c.stage, |Remaining(c, db)|) && NoRepeatsShown(c.stage.fields, Reached(c, db), c.stage)
  {
    var base, reached, fields := Base(c, db), Reached(c, db), c.stage.fields;
    PathsAreCuts(c, db);
    SpecColumnsHaveId(c.stage);
    BaseRows(c, db);
    DistinctTwice(SpecColumns(c.stage), fields, base);
    CutsCompare(c.stage, reached, Distinct(fields, reached), |reached|);
    DistinctShownIff(fields, reached, c.stage);
  }

  /** A coarser DISTINCT may follow a finer one. */
  lemma {:induction false} DistinctTwice(fine: seq<Column>, coarse: seq<Column>, rs: seq<Row>)
    requires Id in fine && Coherent(rs)
    ensures Distinct(coarse, Distinct(fine, rs)) == Distinct(coarse, rs)
    decreases |rs|
  {
    if rs != [] {
      var fines := Differs(fine, rs[0]);
      var coarses := Differs(coarse, rs[0]);
      var others := Filter(rs[1..], fines);
      CoherentWithin(others, rs);
      CoherentWithin(Filter(others, coarses), rs);
      DistinctFilter(fine, others, coarses);
      DistinctTwice(fine, coarse, Filter(others, coarses));
      CoarserFilter(fine, coarse, rs);
      assert Distinct(fine, rs)[1..] == Distinct(fine, others);
    }
  }

  /** What the coarser projection tells apart, the finer one does too. */
  lemma CoarserFilter(fine: seq<Column>, coarse: seq<Column>, rs: seq<Row>)
    requires Id in fine && Coherent(rs) && rs != []
    ensures Filter(Filter(rs[1..], Differs(fine, rs[0])),
                   Differs(coarse, rs[0]))
         == Filter(rs[1..], Differs(coarse, rs[0]))
  {
    var fines := Differs(fine, rs[0]);
    var coarses := Differs(coarse, rs[0]);
    forall r | r in rs[1..]
      ensures coarses(r) == (fines(r) && coarses(r))
    {
      if !fines(r) { ProjectWithId(fine, r, rs[0]); }
    }
    FilterFilter(rs[1..], fines, coarses, coarses);
  }

  lemma CoherentWithin(xs: seq<Row>, rs: seq<Row>)
    requires Coherent(rs) && forall x :: x in xs ==> x in rs
    ensures Coherent(xs)
  {
    forall a, b | 0 <= a < |xs| && 0 <= b < |xs| && xs[a].id == xs[b].id
      ensures xs[a] == xs[b]
    {
      assert xs[a] in rs && xs[b] in rs;
    }
  }

  /** A filter that does not tell rows with the same ID apart may go before or after DISTINCT. */
  lemma {:induction false} DistinctFilter(cols: seq<Column>, rs: seq<Row>, p: Row -> bool)
    requires Id in cols && Coherent(rs)
    ensures Filter(Distinct(cols, rs), p) == Distinct(cols, Filter(rs, p))
    decreases |rs|
  {
    if rs != [] {
      var others, front := Others(cols, rs), if p(rs[0]) then [rs[0]] else [];
      assert Filter(Distinct(cols, rs), p) == front + Distinct(cols, Filter(others, p)) by {
        CoherentWithin(others, rs);
        DistinctFilter(cols, others, p);
        DistinctUnfolds(cols, rs);
        FilterFront(rs[0], Distinct(cols, others), p);
      }
      assert Filter(rs, p) == front + Filter(rs[1..], p);
      assert Distinct(cols, front + Filter(rs[1..], p)) == front + Distinct(cols, Filter(others, p)) by {
        FrontOfFiltered(cols, rs, p);
      }
    }
  }

  lemma FrontOfFiltered(cols: seq<Column>, rs: seq<Row>, p: Row -> bool)
    requires rs != [] && Id in cols && Coherent(rs)
    ensures var front := if p(rs[0]) then [rs[0]] else [];
            Distinct(cols, front + Filter(rs[1..], p)) == front + Distinct(cols, Filter(Others(cols, rs), p))
  {
    OthersFiltered(cols, rs, p);
    if p(rs[0]) {
      KeptFront(cols, rs[0], Filter(rs[1..], p));
    } else {
      OthersAreAll(cols, rs, p);
      assert [] + Filter(rs[1..], p) == Filter(rs[1..], p);
    }
  }

  lemma KeptFront(cols: seq<Column>, r: Row, rest: seq<Row>)
    ensures Distinct(cols, [r] + rest) == [r] + Distinct(cols, Filter(rest, Differs(cols, r)))
  {
    assert ([r] + rest)[1..] == rest;
    DistinctUnfolds(cols, [r] + rest);
  }

  lemma DistinctUnfolds(cols: seq<Column>, rs: seq<Row>)
    requires rs != []
    ensures Distinct(cols, rs) == [rs[0]] + Distinct(cols, Others(cols, rs))
  {
  }

  lemma FilterFront<T(!new)>(x: T, xs: seq<T>, p: T -> bool)
    ensures Filter([x] + xs, p) == (if p(x) then [x] else []) + Filter(xs, p)
  {
    assert ([x] + xs)[1..] == xs;
  }

  lemma OthersFiltered(cols: seq<Column>, rs: seq<Row>, p: Row -> bool)
    requires rs != []
    ensures Filter(Others(cols, rs), p) == Filter(Filter(rs[1..], p), Differs(cols, rs[0]))
  {
    var differs := Differs(cols, rs[0]);
    var both := (r: Row) => Differs(cols, rs[0])(r) && p(r);
    FilterFilter(rs[1..], differs, p, both);
    FilterFilter(rs[1..], p, differs, both);
  }

  lemma OthersAreAll(cols: seq<Column>, rs: seq<Row>, p: Row -> bool)
    requires rs != [] && Id in cols && Coherent(rs) && !p(rs[0])
    ensures Filter(Filter(rs[1..], p), Differs(cols, rs[0])) == Filter(rs[1..], p)
  {
    forall r | r in Filter(rs[1..], p)
      ensures Project(cols, r) != Project(cols, rs[0])
    {
      if Project(cols, r) == Project(cols, rs[0]) { ProjectWithId(cols, r, rs[0]); }
    }
    FilterAll(Filter(rs[1..], p), Differs(cols, rs[0]));
  }

  /** What has to hold of the rows that are shown, beyond the cuts being alike. */
  ghost predicate ShowsNoDifference(c: Chain, db: Database) {
    var st := c.stage;
    if st.unique == None && !c.Start? then NoRepeatsShown([Id], Base(c, db), st)
    else if st.unique == Some(true) && st.fields != [] then NoRepeatsShown(st.fields, Reached(c, db), st)
    else true
  }

  /**
    For every builder state the two compilations select the same rows exactly if
    - a limit of 0, which only sqlQuery honours, has nothing to cut,
    - the MaxInt32 rows that sqlQuery puts behind an offset are enough, and
    - up to the end of the cut no entity occurs twice, if Unique is unset on a traversal, and no two
      entities look alike, if Unique is set on chosen fields.
   */
  lemma PathsAgreeIff(c: Chain, db: Database)
    requires ValidDatabase(db)
    ensures NodeRows(c, db) == QueryRows(c, db) <==> CutsAlike(c.stage, |Remaining(c, db)|) && ShowsNoDifference(c, db)
  {
    if c.stage.unique == None && !c.Start? {
      UnsetUniqueAgreesIff(c, db);
    } else if c.stage.unique == Some(true) && c.stage.fields != [] {
      ProjectionWithoutIdAgreesIff(c, db);
    } else {
      PathsAreCuts(c, db);
      if c.stage.fields == [] {
        SameDuplicates(c, db);
      }
      var rows := if c.stage.unique == Some(true) then Reached(c, db) else Base(c, db);
      CutsCompare(c.stage, rows, rows, |rows|);
    }
  }

  /** With the ID among the chosen fields no two entities look alike. */
  lemma IdTellsEntitiesApart(c: Chain, db: Database)
    requires ValidDatabase(db) && c.stage.unique == Some(true) && Id in c.stage.fields
    ensures ShowsNoDifference(c, db)
  {
    SpecColumnsHaveId(c.stage);
    BaseRows(c, db);
    DistinctById(SpecColumns(c.stage), c.stage.fields, Base(c, db));
    DistinctHasNoRepeats(c.stage.fields, Base(c, db));
  }

  // ---------------------------------------------------------------- scanning IDs

  /** The selector that IDs runs and the specification that loading runs cut from the same rows. */
  lemma IdsCutAlike(c: Chain, db: Database)
    requires ValidDatabase(db) && c.stage.fields == []
    ensures var ids := ForIds(c);
            exists rows :: NodeRows(c, db) == SpecCut(c.stage, rows) && QueryRows(ids, db) == SqlCut(c.stage, rows)
                           && Remaining(c, db) == Drop(rows, OffsetOf(c.stage))
  {
    var ids, base := ForIds(c), Base(c, db);
    PathsAreCuts(c, db);
    PathsAreCuts(ids, db);
    assert ids.stage.fields == [Id];
    assert SourceRows(ids, db) == SourceRows(c, db) && Base(ids, db) == base;
    SpecColumnsHaveId(c.stage);
    BaseRows(c, db);
    DistinctById(SpecColumns(c.stage), [Id], base);
    SameCuts(c.stage, ids.stage, if ids.stage.unique == Some(true) then Distinct([Id], base) else base);
  }

  lemma SameCuts(st: Stage, st': Stage, rows: seq<Row>)
    requires st'.offset == st.offset && st'.limit == st.limit
    ensures SqlCut(st', rows) == SqlCut(st, rows)
  {
  }

  /** The cut of sqlQuery is the front of the cut of querySpec. */
  lemma SqlCutIsFront(st: Stage, rows: seq<Row>)
    ensures SqlCut(st, rows) <= SpecCut(st, rows)
    ensures |SqlCut(st, rows)| == |SpecCut(st, rows)| <==> CutsAlike(st, |Drop(rows, OffsetOf(st))|)
  {
  }

  /** These are the IDs of the entities that loading gives, exactly if the two cuts are alike; or the same error. */
  ghost predicate IdsAreExact(c: Chain, db: Database, r: Result<seq<int>, Error>) {
    match PrepareError(c)
    case Some(e) => r == Err(e)
    case None => r.Ok? && (r.value == Ids(NodeRows(c, db)) <==> CutsAlike(c.stage, |Remaining(c, db)|))
  }

  /**
    Without earlier field selections IDs gives exactly the IDs of the entities that loading would
    give, on traversals too and with whatever Unique, unless the cuts differ.
   */
  lemma IdsAgreeIff(c: Chain, db: Database)
    requires ValidDatabase(db) && c.stage.fields == []
    ensures IdsAreExact(c, db, ScanIds(ForIds(c), db))
  {
    IdFieldPrepares(c);
    IdsCutAlike(c, db);
    var rows :| NodeRows(c, db) == SpecCut(c.stage, rows) && QueryRows(ForIds(c), db) == SqlCut(c.stage, rows)
                && Remaining(c, db) == Drop(rows, OffsetOf(c.stage));
    SqlCutIsFront(c.stage, rows);
    assert ForIds(c).stage.fields == [Id];
  }

  lemma IdFieldPrepares(c: Chain)
    requires c.stage.fields == []
    ensures PrepareError(ForIds(c)) == PrepareError(c)
  {
    assert ForIds(c).stage.fields == [Id];
    ColumnsStartWithId(c.stage.entity);
    assert InvalidField(c.stage.entity, [Id][1..]) == None;
  }
}
