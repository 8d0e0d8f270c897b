/** The two eager loads seen together. */
module JoinTheorems {
  import opened Relational
  import opened QueryPlan
  import opened QueryTheorems
  import opened QueryBuilder
  import opened RowCodec
  import opened RowReading
  import opened Projection
  import opened EagerLoading

  /** A builder with these predicates and nothing else. */
  function Plain(t: EntityType, ps: seq<Predicate>): Chain {
    Start(EmptyStage(t).(preds := ps))
  }

  function Conjunction(ps: seq<Predicate>): Predicate {
    r => Satisfies(ps, r)
  }

  lemma PlainRows(t: EntityType, ps: seq<Predicate>, db: Database)
    ensures NodeRows(Plain(t, ps), db) == Filter(Table(db, t), Conjunction(ps))
  {
    var kept := Filter(Table(db, t), r => Satisfies(ps, r));
    SortWithoutKeys(kept);
    FilterSame(Table(db, t), r => Satisfies(ps, r), Conjunction(ps));
  }

  function KeyIs(id: int): Predicate {
    r => ForeignKey(r) == Some(id)
  }

  /** The nested-loop join on rows: the rows whose foreign key is this ID. */
  function Children(rows: seq<Row>, id: int): seq<Row> {
    Filter(rows, KeyIs(id))
  }

  /** The hash join's list, on rows, is the nested-loop join's. */
  lemma {:induction false} PickIsNestedLoop(rows: seq<Row>, id: int)
    ensures Pick(rows, RowKeys(rows), id) == Children(rows, id)
  {
    if rows != [] {
      PickIsNestedLoop(rows[1..], id);
      assert RowKeys(rows)[1..] == RowKeys(rows[1..]);
    }
  }

  /** The child rows that loading the deployments of these certificates brings back. */
  function LoadedChildren(db: Database, ids: seq<int>): seq<Row> {
    NodeRows(Plain(CertDeployment, [FkIn(ids)]), db)
  }

  /** The parent rows that loading the certificates of these deployments brings back. */
  function LoadedParents(db: Database, deployments: seq<Row>): seq<Row> {
    NodeRows(Plain(Certificate, [IdIn(FirstOccurrences(RowKeys(deployments)))]), db)
  }

  lemma LoadedChildIff(db: Database, ids: seq<int>, d: Row)
    ensures d in LoadedChildren(db, ids) <==> d in db.deployments && FkIn(ids)(d)
  {
    PlainRows(CertDeployment, [FkIn(ids)], db);
    assert [FkIn(ids)][0](d) == FkIn(ids)(d);
    assert Conjunction([FkIn(ids)])(d) == FkIn(ids)(d);
  }

  lemma HasItsId(rows: seq<Row>, r: Row)
    requires r in rows
    ensures r.id in Ids(rows)
  {
    var i :| 0 <= i < |rows| && rows[i] == r;
    assert Ids(rows)[i] == r.id;
  }

  /** With every certificate loaded, c lists exactly the deployments whose key is c's ID. */
  lemma ListedIff(db: Database, c: Row, d: Row)
    requires c in db.certificates
    ensures var children := LoadedChildren(db, Ids(db.certificates));
            d in Pick(children, RowKeys(children), c.id) <==> d in db.deployments && ForeignKey(d) == Some(c.id)
  {
    LoadedChildIff(db, Ids(db.certificates), d);
    PickIsNestedLoop(LoadedChildren(db, Ids(db.certificates)), c.id);
    HasItsId(db.certificates, c);
  }

  /** A certificate is brought back for these deployments iff one of them names it. */
  lemma BroughtBackIff(db: Database, deployments: seq<Row>, c: Row)
    ensures c in LoadedParents(db, deployments) <==> c in db.certificates && Some(c.id) in RowKeys(deployments)
  {
    var wanted := FirstOccurrences(RowKeys(deployments));
    PlainRows(Certificate, [IdIn(wanted)], db);
    assert [IdIn(wanted)][0](c) == (c.id in wanted);
    assert Conjunction([IdIn(wanted)])(c) == (c.id in wanted);
  }

  /** The row that a child's edge is set to: the one the map of parents has for its key. */
  function EdgeOf(parents: seq<Row>, key: Option<int>): Option<Row> {
    if key.Some? && key.value in Ids(parents) then
      LastWithIsLast(Ids(parents), key.value);
      Some(parents[LastWith(Ids(parents), key.value).value])
    else None
  }

  /** The two directions are inverse: d is in c's loaded list iff d's loaded edge is c. */
  lemma JoinsAreInverse(db: Database, c: Row, d: Row)
    requires ValidDatabase(db) && c in db.certificates && d in db.deployments
    ensures var children := LoadedChildren(db, Ids(db.certificates));
            d in Pick(children, RowKeys(children), c.id) <==>
            EdgeOf(LoadedParents(db, db.deployments), ForeignKey(d)) == Some(c)
  {
    ListedIff(db, c, d);
    if ForeignKey(d) == Some(c.id) {
      IsReturned(db, c, d);
    }
    ParentsAreRows(db, db.deployments);
    EdgeIff(db.certificates, LoadedParents(db, db.deployments), c, ForeignKey(d));
  }

  lemma IsReturned(db: Database, c: Row, d: Row)
    requires c in db.certificates && d in db.deployments && ForeignKey(d) == Some(c.id)
    ensures c in LoadedParents(db, db.deployments)
  {
    BroughtBackIff(db, db.deployments, c);
    var l :| 0 <= l < |db.deployments| && db.deployments[l] == d;
    assert RowKeys(db.deployments)[l] == ForeignKey(d);
  }

  lemma ParentsAreRows(db: Database, deployments: seq<Row>)
    ensures forall p :: p in LoadedParents(db, deployments) ==> p in db.certificates
  {
    forall p | p in LoadedParents(db, deployments)
      ensures p in db.certificates
    {
      BroughtBackIff(db, deployments, p);
    }
  }

  /** With unique IDs the edge of a key is the returned row with that ID. */
  lemma EdgeIff(certificates: seq<Row>, parents: seq<Row>, c: Row, key: Option<int>)
    requires UniqueIds(certificates) && c in certificates && forall p :: p in parents ==> p in certificates
    ensures EdgeOf(parents, key) == Some(c) <==> c in parents && key == Some(c.id)
  {
    EdgeIsParent(parents, key);
    if c in parents {
      HasItsId(parents, c);
    }
  }

  lemma EdgeIsParent(parents: seq<Row>, key: Option<int>)
    ensures var edge := EdgeOf(parents, key);
            && (edge.Some? ==> edge.value in parents && key == Some(edge.value.id))
            && (edge.None? ==> key.None? || key.value !in Ids(parents))
  {
    if key.Some? && key.value in Ids(parents) {
      LastWithIsLast(Ids(parents), key.value);
    }
  }

  // ---------------------------------------------------------------- on the loaded objects

  /** The certificate's accessor lists a deployment with this ID. */
  ghost predicate Lists(c: Entity, id: int)
    reads c, if c.many.Some? then c.many.value else []
  {
    DeploymentsOrErr(c).Ok? && exists k :: 0 <= k < |DeploymentsOrErr(c).value| && DeploymentsOrErr(c).value[k].id == id
  }

  /** The deployment's accessor returns the certificate with this ID. */
  ghost predicate PointsTo(d: Entity, id: int)
    reads d, if d.one == null then {} else {d.one}
  {
    CertificateOrErr(d).Ok? && CertificateOrErr(d).value.id == id
  }

  /** The one JSON column of a certificate can be unmarshalled. */
  predicate CanBeDecoded(j: JsonCodec, c: Row) {
    TextOf(Cell(c, San)).Some? ==> j.unmarshal(TextOf(Cell(c, San)).value, None).Some?
  }

  lemma DecodedIff(t: EntityType, j: JsonCodec, r: Row)
    requires t.Certificate? || t.CertDeployment?
    ensures IsReadable(t, j, Times(t, [], false), r) <==> (t.Certificate? ==> CanBeDecoded(j, r))
  {
    assert forall c :: KindOf(t, c) == JsonKind <==> t.Certificate? && c == San;
    if t.Certificate? {
      SanIsReadOnce();
      ReadOnce(j, Cell(r, San), 1);
    }
  }

  lemma SanIsReadOnce()
    ensures Times(Certificate, [], false)(San) == 1
  {
    KnownInCertificate(San);
    ChosenOnce(Certificate, [], false, San);
  }

  /** Without chosen fields a load fails only on a certificate that cannot be decoded. */
  lemma PlainSucceedsIff(t: EntityType, ps: seq<Predicate>, j: JsonCodec, db: Database)
    requires t.Certificate? || t.CertDeployment?
    ensures Succeeds(Plain(t, ps), j, db) <==>
              (t.Certificate? ==> forall r :: r in NodeRows(Plain(t, ps), db) ==> CanBeDecoded(j, r))
  {
    var rows := NodeRows(Plain(t, ps), db);
    forall i | 0 <= i < |rows|
      ensures IsReadable(t, j, Times(t, [], false), rows[i]) <==> (t.Certificate? ==> CanBeDecoded(j, rows[i]))
    {
      DecodedIff(t, j, rows[i]);
    }
  }

  /**
    Loading every certificate with its deployments, and every deployment with its certificate, over
    the same tables: this succeeds exactly if every certificate can be decoded, and then a
    certificate lists a deployment iff that deployment points to it.
   */
  method LoadBothWays(db: Database, j: JsonCodec)
    returns (certificates: seq<Entity>, deployments: seq<Entity>, err: Option<LoadError>)
    requires ValidDatabase(db)
    ensures err.None? <==> forall c :: c in db.certificates ==> CanBeDecoded(j, c)
    ensures err.None? ==> HaveIds(certificates, Ids(db.certificates)) && HaveIds(deployments, Ids(db.deployments))
    ensures err.None? ==> forall c, d :: c in certificates && d in deployments ==>
              (Lists(c, d.id) <==> PointsTo(d, c.id))
  {
    deployments := [];
    ghost var neighbors, children, parents;
    certificates, err, neighbors, children := LoadCertificates(db, j);
    if err.Some? {
      return;
    }
    deployments, err, parents := LoadAllDeployments(db, j);
    ParentsAreRows(db, db.deployments);
    if err.None? {
      AllAreInverse(db, certificates, neighbors, children, deployments, parents);
    }
  }

  lemma AllAreInverse(db: Database, certificates: seq<Entity>, neighbors: seq<Entity>, children: seq<Row>,
                      deployments: seq<Entity>, parents: seq<Entity>)
    requires ValidDatabase(db)
    requires HaveIds(certificates, Ids(db.certificates)) && children == LoadedChildren(db, Ids(db.certificates))
    requires certificates != [] ==> ListsAreFaithful(certificates, Ids(db.certificates), neighbors, children)
    requires HaveIds(deployments, Ids(db.deployments)) && PointFaithfully(db, deployments, parents)
    ensures forall c, d :: c in certificates && d in deployments ==> (Lists(c, d.id) <==> PointsTo(d, c.id))
  {
    forall c, d | c in certificates && d in deployments
      ensures Lists(c, d.id) <==> PointsTo(d, c.id)
    {
      AccessorsAreInverse(db, certificates, neighbors, children, deployments, parents, c, d);
    }
  }

  /** client.T.Query().WithEdge() */
  method EagerQuery(t: EntityType, edge: EntityType) returns (q: Query)
    ensures fresh(q) && q.withEdge != null && fresh(q.withEdge) && q.along == {q} && EagerReady(q, t, edge)
    ensures q.Plan() == Start(EmptyStage(t)) && q.withEdge.Plan() == Start(EmptyStage(edge))
  {
    q := new Query(t, NoPath);
    var child := new Query(edge, NoPath);
    q.With(child);
  }

  method LoadCertificates(db: Database, j: JsonCodec)
    returns (certificates: seq<Entity>, err: Option<LoadError>, ghost neighbors: seq<Entity>, ghost children: seq<Row>)
    ensures err.None? <==> forall c :: c in db.certificates ==> CanBeDecoded(j, c)
    ensures err.None? ==>
              && HaveIds(certificates, Ids(db.certificates)) && children == LoadedChildren(db, Ids(db.certificates))
              && (certificates != [] ==> ListsAreFaithful(certificates, Ids(db.certificates), neighbors, children))
  {
    var q := EagerQuery(Certificate, CertDeployment);
    ghost var rows, times, asked := [], LoadTimes(q), ListPlan(q, db);
    certificates, err, rows, neighbors, children := AllCertificates(q, db, j);
    WholeTable(Certificate, db);
    PlainPlan(CertDeployment, FkIn(Ids(rows)));
    CertificatesEnd(db, j, asked, err);
    if err.None? {
      ShownHaveIds(Certificate, j, times, rows, certificates);
    }
    children := LoadedChildren(db, Ids(db.certificates));
  }

  lemma CertificatesEnd(db: Database, j: JsonCodec, asked: Option<Chain>, err: Option<LoadError>)
    requires LoadEnds(Start(EmptyStage(Certificate)), asked, j, db, err)
    requires asked.Some? ==> asked == Some(Plain(CertDeployment, [FkIn(Ids(db.certificates))]))
    ensures err.None? <==> forall c :: c in db.certificates ==> CanBeDecoded(j, c)
  {
    LoadSucceedsIff(Start(EmptyStage(Certificate)), asked, j, db, err);
    assert Plain(Certificate, []) == Start(EmptyStage(Certificate));
    WholeTable(Certificate, db);
    PlainSucceedsIff(Certificate, [], j, db);
    PlainSucceedsIff(CertDeployment, [FkIn(Ids(db.certificates))], j, db);
  }

  /** The certificates that loading every deployment's edge brings back; without any key none is asked for. */
  function ReturnedParents(db: Database): seq<Row> {
    if FirstOccurrences(RowKeys(db.deployments)) == [] then [] else LoadedParents(db, db.deployments)
  }

  /** The deployments' accessors tell the truth about these certificates, which are those that came back. */
  ghost predicate PointFaithfully(db: Database, deployments: seq<Entity>, parents: seq<Entity>)
    reads deployments, parents`id
  {
    && HaveIds(parents, Ids(ReturnedParents(db)))
    && AreFaithful(deployments, true, RowKeys(db.deployments), parents, Ids(ReturnedParents(db)))
  }

  method LoadAllDeployments(db: Database, j: JsonCodec)
    returns (deployments: seq<Entity>, err: Option<LoadError>, ghost parents: seq<Entity>)
    ensures err.None? <==> forall c :: c in ReturnedParents(db) ==> CanBeDecoded(j, c)
    ensures err.None? ==>
              HaveIds(deployments, Ids(db.deployments)) && PointFaithfully(db, deployments, parents)
  {
    var q := EagerQuery(CertDeployment, Certificate);
    ghost var rows;
    deployments, err, rows, parents := AllDeployments(q, db, j);
    WholeTable(CertDeployment, db);
    DeploymentsEnd(db, j, err);
    if err.None? {
      LoadedDeployments(db, j, deployments, parents);
    }
  }

  lemma DeploymentsEnd(db: Database, j: JsonCodec, err: Option<LoadError>)
    requires LoadEnds(Start(EmptyStage(CertDeployment)),
                      EdgePlan(Some(Start(EmptyStage(Certificate))), db.deployments), j, db, err)
    ensures err.None? <==> forall c :: c in ReturnedParents(db) ==> CanBeDecoded(j, c)
  {
    var wanted := FirstOccurrences(RowKeys(db.deployments));
    LoadSucceedsIff(Start(EmptyStage(CertDeployment)), EdgePlan(Some(Start(EmptyStage(Certificate))), db.deployments),
                    j, db, err);
    assert Plain(CertDeployment, []) == Start(EmptyStage(CertDeployment));
    PlainSucceedsIff(CertDeployment, [], j, db);
    PlainPlan(Certificate, IdIn(wanted));
    PlainSucceedsIff(Certificate, [IdIn(wanted)], j, db);
  }

  lemma LoadedDeployments(db: Database, j: JsonCodec, deployments: seq<Entity>, parents: seq<Entity>)
    requires Loads(Start(EmptyStage(CertDeployment)), Some(Start(EmptyStage(Certificate))), j, true, db,
                   db.deployments, deployments, None, parents)
    ensures HaveIds(deployments, Ids(db.deployments)) && PointFaithfully(db, deployments, parents)
  {
    ShownHaveIds(CertDeployment, j, Times(CertDeployment, [], true), db.deployments, deployments);
    PlainPlan(Certificate, IdIn(FirstOccurrences(RowKeys(db.deployments))));
    ShownHaveIds(Certificate, j, Times(Certificate, [], true), ReturnedParents(db), parents);
  }

  lemma WholeTable(t: EntityType, db: Database)
    ensures NodeRows(Start(EmptyStage(t)), db) == Table(db, t)
  {
    assert Plain(t, []) == Start(EmptyStage(t));
    PlainRows(t, [], db);
    FilterAll(Table(db, t), Conjunction([]));
  }

  lemma PlainPlan(t: EntityType, p: Predicate)
    ensures AddPredicate(Start(EmptyStage(t)), p) == Plain(t, [p])
  {
  }

  lemma AccessorsAreInverse(db: Database, certificates: seq<Entity>, neighbors: seq<Entity>, children: seq<Row>,
                            deployments: seq<Entity>, parents: seq<Entity>, c: Entity, d: Entity)
    requires ValidDatabase(db) && c in certificates && d in deployments
    requires HaveIds(certificates, Ids(db.certificates)) && children == LoadedChildren(db, Ids(db.certificates))
    requires ListsAreFaithful(certificates, Ids(db.certificates), neighbors, children)
    requires HaveIds(deployments, Ids(db.deployments)) && PointFaithfully(db, deployments, parents)
    ensures Lists(c, d.id) <==> PointsTo(d, c.id)
  {
    var i :| 0 <= i < |certificates| && certificates[i] == c;
    var k :| 0 <= k < |deployments| && deployments[k] == d;
    ListsIff(db, certificates, neighbors, children, i, k, d.id);
    PointsToIff(db, deployments, parents, i, k);
  }

  lemma ListsIff(db: Database, certificates: seq<Entity>, neighbors: seq<Entity>, children: seq<Row>, i: nat, k: nat,
                 id: int)
    requires ValidDatabase(db) && i < |db.certificates| && k < |db.deployments| && id == db.deployments[k].id
    requires HaveIds(certificates, Ids(db.certificates)) && children == LoadedChildren(db, Ids(db.certificates))
    requires ListsAreFaithful(certificates, Ids(db.certificates), neighbors, children)
    ensures Lists(certificates[i], id) <==> ForeignKey(db.deployments[k]) == Some(db.certificates[i].id)
  {
    var c, d := db.certificates[i], db.deployments[k];
    UniqueIsLast(db.certificates, i);
    assert DeploymentsOrErr(certificates[i]) == Ok(Pick(neighbors, RowKeys(children), c.id));
    PickedIds(neighbors, children, c.id, id);
    ListedIdIff(db, c, d);
  }

  lemma UniqueIsLast(rows: seq<Row>, i: nat)
    requires UniqueIds(rows) && i < |rows|
    ensures IsLast(Ids(rows), i) && Ids(rows)[i] == rows[i].id
  {
  }

  /** A list names a deployment by its ID iff it contains that deployment. */
  lemma ListedIdIff(db: Database, c: Row, d: Row)
    requires ValidDatabase(db) && c in db.certificates && d in db.deployments
    ensures var children := LoadedChildren(db, Ids(db.certificates));
            (exists r :: r in Pick(children, RowKeys(children), c.id) && r.id == d.id) <==> ForeignKey(d) == Some(c.id)
  {
    var children := LoadedChildren(db, Ids(db.certificates));
    var list := Pick(children, RowKeys(children), c.id);
    forall r | r in list
      ensures r in db.deployments
    {
      ListedIff(db, c, r);
    }
    NamedIff(db.deployments, list, d);
    ListedIff(db, c, d);
  }

  lemma NamedIff(rows: seq<Row>, list: seq<Row>, d: Row)
    requires UniqueIds(rows) && d in rows && forall r :: r in list ==> r in rows
    ensures (exists r :: r in list && r.id == d.id) <==> d in list
  {
    if r :| r in list && r.id == d.id {
      assert r == d;
    }
  }

  /** The objects in a list are those of the rows in the nested-loop join. */
  lemma PickedIds(neighbors: seq<Entity>, children: seq<Row>, k: int, id: int)
    requires HaveIds(neighbors, Ids(children))
    ensures var list := Pick(neighbors, RowKeys(children), k);
            (exists a :: 0 <= a < |list| && list[a].id == id)
            <==> exists d :: d in Pick(children, RowKeys(children), k) && d.id == id
  {
    var keys := RowKeys(children);
    var list := Pick(neighbors, keys, k);
    if a :| 0 <= a < |list| && list[a].id == id {
      PickMembers(neighbors, keys, k, list[a]);
      var m :| 0 <= m < |neighbors| && keys[m] == Some(k) && neighbors[m] == list[a];
      PickMembers(children, keys, k, children[m]);
      assert Ids(children)[m] == id;
    }
    if d :| d in Pick(children, keys, k) && d.id == id {
      PickMembers(children, keys, k, d);
      var m :| 0 <= m < |children| && keys[m] == Some(k) && children[m] == d;
      PickMembers(neighbors, keys, k, neighbors[m]);
      assert Ids(children)[m] == id;
    }
  }

  lemma PointsToIff(db: Database, deployments: seq<Entity>, parents: seq<Entity>, i: nat, k: nat)
    requires ValidDatabase(db) && i < |db.certificates| && k < |db.deployments|
    requires HaveIds(deployments, Ids(db.deployments)) && PointFaithfully(db, deployments, parents)
    ensures PointsTo(deployments[k], db.certificates[i].id) <==>
              ForeignKey(db.deployments[k]) == Some(db.certificates[i].id)
  {
    var c, keys, parentIds := db.certificates[i], RowKeys(db.deployments), Ids(ReturnedParents(db));
    assert VerdictIsFaithful(deployments[k], true, keys[k], parents, parentIds);
    if keys[k].Some? {
      LastWithIsLast(parentIds, keys[k].value);
    }
    if keys[k] == Some(c.id) {
      assert Some(c.id) in keys;
      assert c.id in FirstOccurrences(keys);
      BroughtBackIff(db, db.deployments, c);
      HasItsId(ReturnedParents(db), c);
    }
  }
}
