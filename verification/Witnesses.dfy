/** Concrete inputs on which the code does not do what one might expect. */
module Witnesses {
  import opened Relational
  import opened RowCodec
  import opened ChangeOrderFields
  import opened MutatorChain
  import opened ConflictOptions
  import opened QueryPlan
  import opened QueryTheorems
  import opened CompilationPaths
  import opened Traversals
  import opened QueryBuilder
  import opened EagerLoading
  import opened JoinTheorems
  import opened SecondRun
  import opened EdgeUpdate

  const CERTIFICATE := Row(1, map[])
  const DEPLOYMENT := Row(1, map[CertificateFk := Int(1)])
  const ANOTHER := Row(2, map[CertificateFk := Int(1)])
  const DB := Database([], [CERTIFICATE], [DEPLOYMENT, ANOTHER])

  /** Query().Limit(0): All returns the whole table, a projection or a traversal returns nothing. */
  lemma LimitZeroIsIgnored(t: EntityType, db: Database)
    ensures var c := Start(EmptyStage(t).(limit := Some(0))); NodeRows(c, db) == Table(db, t) && QueryRows(c, db) == []
  {
    var c := Start(EmptyStage(t).(limit := Some(0)));
    var kept := Filter(Table(db, t), r => Satisfies([], r));
    FilterAll(Table(db, t), r => Satisfies([], r));
    SortWithoutKeys(kept);
    PathsAreCuts(c, db);
    assert Drop(Table(db, t), 0) == Table(db, t);
  }

  /** Two deployments of one certificate: going on from QueryCertificate starts from it twice. */
  lemma TraversalRepeats()
    ensures var c := Hop(Start(EmptyStage(CertDeployment)), EmptyStage(Certificate));
            NodeRows(c, DB) == [CERTIFICATE] && QueryRows(c, DB) == [CERTIFICATE, CERTIFICATE]
  {
    var c := Hop(Start(EmptyStage(CertDeployment)), EmptyStage(Certificate));
    AllLeadTo(DB, CERTIFICATE);
    assert Repeat(CERTIFICATE, 2) == [CERTIFICATE, CERTIFICATE];
    TwiceTheCertificate(c);
    PathsAreCuts(c, DB);
    SpecColumnsHaveId(c.stage);
    DistinctCopies(SpecColumns(c.stage), CERTIFICATE, 2, []);
    assert [CERTIFICATE, CERTIFICATE] == Repeat(CERTIFICATE, 2) + [];
    assert Drop([CERTIFICATE, CERTIFICATE], 0) == [CERTIFICATE, CERTIFICATE] && Drop([CERTIFICATE], 0) == [CERTIFICATE];
  }

  lemma AllLeadTo(db: Database, t: Row)
    requires db.certificates == [t] && forall d :: d in db.deployments ==> ForeignKey(d) == Some(t.id)
    ensures SourceRows(Hop(Start(EmptyStage(CertDeployment)), EmptyStage(Certificate)), db)
         == Repeat(t, |db.deployments|)
  {
    WholeSelection(Start(EmptyStage(CertDeployment)), db);
    JoinOne(CertDeployment, Certificate, db.deployments, t);
  }

  lemma JoinOne(from: EntityType, to: EntityType, selected: seq<Row>, t: Row)
    requires forall p :: p in selected ==> Linked(from, to, p, t)
    ensures Join(from, to, selected, [t]) == Repeat(t, |selected|)
  {
    FilterAll(selected, p => Linked(from, to, p, t));
    assert [t][1..] == [] && Join(from, to, selected, []) == [];
    assert Repeat(t, |selected|) + [] == Repeat(t, |selected|);
  }

  lemma TwiceTheCertificate(c: Chain)
    requires c.stage == EmptyStage(Certificate) && SourceRows(c, DB) == [CERTIFICATE, CERTIFICATE]
    ensures Base(c, DB) == [CERTIFICATE, CERTIFICATE]
  {
    FilterAll([CERTIFICATE, CERTIFICATE], r => Satisfies([], r));
    SortWithoutKeys([CERTIFICATE, CERTIFICATE]);
  }

  lemma WholeSelection(c: Chain, db: Database)
    requires c == Start(EmptyStage(c.stage.entity))
    ensures QueryRows(c, db) == Table(db, c.stage.entity)
  {
    var table := Table(db, c.stage.entity);
    FilterAll(table, r => Satisfies([], r));
    SortWithoutKeys(table);
    assert Drop(table, 0) == table;
  }

  /** Unique(true).Select(status) on two deployments of the same status: only the entity path tells them apart. */
  lemma LookAlikesMerge(db: Database)
    requires ValidDatabase(db) && |db.deployments| == 2
    requires Cell(db.deployments[0], Status) == Cell(db.deployments[1], Status)
    ensures var c := Start(EmptyStage(CertDeployment).(unique := Some(true), fields := [Status]));
            NodeRows(c, db) != QueryRows(c, db)
  {
    var c := Start(EmptyStage(CertDeployment).(unique := Some(true), fields := [Status]));
    BothAreReached(c, db);
    ProjectionWithoutIdAgreesIff(c, db);
    assert Project([Status], db.deployments[0]) == Project([Status], db.deployments[1]);
    assert Take(db.deployments, 2) == db.deployments;
  }

  lemma BothAreReached(c: Chain, db: Database)
    requires ValidDatabase(db) && c.Start? && c.stage.entity.CertDeployment?
    requires c.stage.preds == [] && c.stage.order == []
    ensures Reached(c, db) == db.deployments
  {
    ReachedIsSorted(c, db);
    FilterAll(db.deployments, Traversals.Keep([]));
    SortWithoutKeys(db.deployments);
  }

  const OTHER := Row(2, map[])
  const OF_OTHER := Row(3, map[CertificateFk := Int(2)])
  const BOTH := Database([], [CERTIFICATE, OTHER], [DEPLOYMENT, ANOTHER, OF_OTHER])

  /** The first run returned certificate 2 only: in the second, certificate 1 wrongly lists nothing. */
  lemma SecondRunLosesChildren()
    ensures var child := Start(EmptyStage(CertDeployment));
            && ListOf(AddPredicate(child, FkIn([2])), [1, 2], 1, BOTH) == []
            && ListOf(child, [1, 2], 1, BOTH) == [DEPLOYMENT, ANOTHER]
  {
    var child := Start(EmptyStage(CertDeployment));
    NotAskedForBefore(child, [2], [1, 2], 1, BOTH);
    ListedOnce(child, [1, 2], 1, BOTH);
    WholeTable(CertDeployment, BOTH);
    ChildrenOfBoth();
  }

  lemma ChildrenOfBoth()
    ensures Children(BOTH.deployments, 1) == [DEPLOYMENT, ANOTHER]
  {
    assert BOTH.deployments == [DEPLOYMENT, ANOTHER] + [OF_OTHER];
    FilterConcat([DEPLOYMENT, ANOTHER], [OF_OTHER], KeyIs(1));
    FilterAll([DEPLOYMENT, ANOTHER], KeyIs(1));
    FilterNone([OF_OTHER], KeyIs(1));
  }

  /** The first run asked for certificate 2 only: in the second, certificate 1 is "not found" though it exists. */
  lemma SecondRunLosesCertificate()
    ensures var child, keys := Start(EmptyStage(Certificate)), RowKeys(BOTH.deployments);
            && CertificateOf(AddPredicate(child, IdIn([2])), keys, Some(1), BOTH) == None
            && CertificateOf(child, keys, Some(1), BOTH) == Some(CERTIFICATE)
  {
    var child, keys := Start(EmptyStage(Certificate)), RowKeys(BOTH.deployments);
    assert keys[0] == Some(1);
    NotFoundAgain(child, [2], keys, Some(1), BOTH);
    FoundInBoth(child, keys);
  }

  lemma FoundInBoth(child: Chain, keys: seq<Option<int>>)
    requires child == Start(EmptyStage(Certificate)) && Some(1) in keys
    ensures CertificateOf(child, keys, Some(1), BOTH) == Some(CERTIFICATE)
  {
    WholeTable(Certificate, BOTH);
    assert BOTH.certificates[0] == CERTIFICATE;
    FoundOnce(child, keys, CERTIFICATE, BOTH);
  }

  /** Limit(2) in the middle of a traversal counts certificate 1 twice and never comes to certificate 2. */
  lemma LimitCountsRepeats()
    ensures var c := Hop(Start(EmptyStage(CertDeployment)), EmptyStage(Certificate).(limit := Some(2)));
            NodeRows(c, BOTH) == [CERTIFICATE, OTHER] && QueryRows(c, BOTH) == [CERTIFICATE, CERTIFICATE]
  {
    var c := Hop(Start(EmptyStage(CertDeployment)), EmptyStage(Certificate).(limit := Some(2)));
    BaseOfBoth(c);
    PathsAreCuts(c, BOTH);
    SpecColumnsHaveId(c.stage);
    DistinctOfThree(SpecColumns(c.stage));
    CutToTwo(c.stage, [CERTIFICATE, CERTIFICATE, OTHER]);
    CutToTwo(c.stage, [CERTIFICATE, OTHER]);
  }

  lemma BaseOfBoth(c: Chain)
    requires c.Hop? && c.prev == Start(EmptyStage(CertDeployment)) && c.stage.entity.Certificate?
    requires c.stage.preds == [] && c.stage.order == []
    ensures Base(c, BOTH) == [CERTIFICATE, CERTIFICATE, OTHER]
  {
    var three := [CERTIFICATE, CERTIFICATE, OTHER];
    WholeSelection(c.prev, BOTH);
    JoinOfBoth();
    assert SourceRows(c, BOTH) == three;
    FilterAll(three, r => Satisfies([], r));
    SortWithoutKeys(three);
  }

  lemma CutToTwo(st: Stage, rs: seq<Row>)
    requires st.limit == Some(2) && st.offset == None && |rs| >= 2
    ensures SpecCut(st, rs) == rs[..2] == SqlCut(st, rs)
  {
    assert Drop(rs, 0) == rs;
  }

  lemma JoinOfBoth()
    ensures Join(CertDeployment, Certificate, BOTH.deployments, BOTH.certificates)
         == [CERTIFICATE, CERTIFICATE, OTHER]
  {
    var ones, others := [DEPLOYMENT, ANOTHER], [OF_OTHER];
    assert BOTH.deployments == [] + ones + others && BOTH.deployments == ones + others + [];
    assert BOTH.certificates == [CERTIFICATE] + [OTHER] && [OTHER] == [OTHER] + [];
    JoinFrom(CertDeployment, Certificate, [], ones, others, CERTIFICATE, [OTHER]);
    JoinFrom(CertDeployment, Certificate, ones, others, [], OTHER, []);
    assert Repeat(CERTIFICATE, 2) == [CERTIFICATE, CERTIFICATE] && Repeat(OTHER, 1) == [OTHER];
  }

  lemma JoinFrom(from: EntityType, to: EntityType, a: seq<Row>, linked: seq<Row>, b: seq<Row>, t: Row, table: seq<Row>)
    requires forall p :: p in linked ==> Linked(from, to, p, t)
    requires forall p :: p in a || p in b ==> !Linked(from, to, p, t)
    ensures Join(from, to, a + linked + b, [t] + table)
         == Repeat(t, |linked|) + Join(from, to, a + linked + b, table)
  {
    var leads: Row -> bool := p => Linked(from, to, p, t);
    FilterConcat(a + linked, b, leads);
    FilterConcat(a, linked, leads);
    FilterNone(a, leads);
    FilterAll(linked, leads);
    FilterNone(b, leads);
    assert Filter(a + linked + b, leads) == linked;
    assert ([t] + table)[1..] == table;
  }

  lemma DistinctOfThree(cols: seq<Column>)
    requires Id in cols
    ensures Distinct(cols, [CERTIFICATE, CERTIFICATE, OTHER]) == [CERTIFICATE, OTHER]
  {
    assert [CERTIFICATE, CERTIFICATE, OTHER] == Repeat(CERTIFICATE, 2) + [OTHER];
    DistinctCopies(cols, CERTIFICATE, 2, [OTHER]);
    assert [OTHER] == Repeat(OTHER, 1) + [];
    DistinctCopies(cols, OTHER, 1, []);
  }

  /** A table of one row more than MaxInt32. */
  function Huge(): Database {
    Database([], [], seq(MAX_INT32 + 1, i => Row(i, map[])))
  }

  /** Offset(0) on it: loading returns every row, a projection or a traversal leaves out the last one. */
  lemma OffsetCutsAtMaxInt32()
    ensures var c := Start(EmptyStage(CertDeployment).(offset := Some(0)));
            NodeRows(c, Huge()) == Huge().deployments && QueryRows(c, Huge()) == Huge().deployments[..MAX_INT32]
  {
    OffsetBringsLimit(CertDeployment, Huge());
  }

  lemma OffsetBringsLimit(t: EntityType, db: Database)
    ensures var c := Start(EmptyStage(t).(offset := Some(0)));
            NodeRows(c, db) == Table(db, t) && QueryRows(c, db) == Take(Table(db, t), MAX_INT32)
  {
    var c, table := Start(EmptyStage(t).(offset := Some(0))), Table(db, t);
    FilterAll(table, r => Satisfies([], r));
    SortWithoutKeys(table);
    PathsAreCuts(c, db);
    assert Drop(table, 0) == table;
  }

  /** A limit set on the builder that a path leads through, after cloning, reaches the clone as well. */
  method CloneSharesItsPath() returns (original: Query, clone: Query)
    ensures original != clone && original.Rooted() && clone.Rooted() && original.Plan() == clone.Plan()
    ensures clone.Plan() == Hop(Start(EmptyStage(CertDeployment).(limit := Some(1))), EmptyStage(Certificate))
  {
    var from := new Query(CertDeployment, NoPath);
    original := from.Traverse(Certificate);
    clone := original.Clone();
    from.Limit(1);
  }

  /** A clone of a builder that had been loaded as somebody's edge no longer scans the foreign key. */
  lemma CloneForgetsForeignKeys()
    ensures var t := TreeValue(CertDeployment, NoPath, EmptyStage(CertDeployment), true, None);
            CertificateFk in ScannedColumns(t) && CertificateFk !in ScannedColumns(WithoutFks(t))
  {
  }

  /** A NULL in the ID column makes ID 5 an ID 0; a NULL in the title leaves the title. */
  lemma NullResetsOnlyTheId(j: JsonCodec)
    ensures var e := EntityValue(5, map[Title := Text("x")], map[]);
            && AssignColumn(ChangeOrder, j, e, Id, Fill(Slot(IdKind), Null)) == Ok(e.(id := 0))
            && AssignColumn(ChangeOrder, j, e, Title, Fill(Slot(TextKind), Null)) == Ok(e)
  {
  }

  /** AddDeployTaskIDs(1).ClearDeployTasks() leaves task 1 linked. */
  lemma ClearKeepsAdditions()
    ensures var cs := [AddIds([1]), ClearAll];
            Effect(EdgeUpdate.AfterCalls(cs), {}) == {1} && OneByOne(cs, {}) == {}
  {
    var cs := [AddIds([1]), ClearAll];
    assert cs[..1] == [AddIds([1])] && cs[..1][..0] == [];
    assert EdgeUpdate.AfterCalls(cs[..1]) == EdgeUpdate.AfterCall(UNTOUCHED, AddIds([1]));
    assert ToSet([1]) == {1};
  }

  /** One builder sets a comment, the other does not: the bulk erases the comment of the other's row. */
  lemma BulkUpsertErasesComment(j: JsonCodec)
    ensures var r := Request([map[Comment := Text("new")], map[Title := Text("x")]],
                             [map[Comment := Text("new")], map[Title := Text("x")]]);
            var row := Row(1, map[Comment := Text("old")]);
            BulkCell([], j, r, 1, 2, row, Comment) == Null && OwnCell([], j, r, 1, 2, row, Comment) == Text("old")
  {
    var f, g := map[Comment := Text("new")], map[Title := Text("x")];
    var r := Request([f, g], [f, g]);
    assert Comment in r.specs[0];
    BothCells([], j, r, 1, 2, Row(1, map[Comment := Text("old")]), Comment);
  }
}
