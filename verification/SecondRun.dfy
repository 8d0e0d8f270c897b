/**
  What a second run of the same builder loads. Its eager-load builder still carries the IN list of
  the first run, so only what that run had asked for can come back, silently.
 */
module SecondRun {
  import opened Relational
  import opened RowCodec
  import opened QueryPlan
  import opened QueryTheorems
  import opened CompilationPaths
  import opened Traversals
  import opened QueryBuilder
  import opened ChangeOrderFields
  import opened EagerLoading
  import opened JoinTheorems

  // ---------------------------------------------------------------- filtering before or after sorting

  lemma {:induction false} BeforeSplits(keys: seq<OrderKey>, a: Row, r: Row, b: Row)
    requires Before(keys, a, b)
    ensures Before(keys, a, r) || Before(keys, r, b)
  {
    if keys[0](a) == keys[0](b) {
      BeforeSplits(keys[1..], a, r, b);
    }
  }

  lemma {:induction false} NotBothBefore(keys: seq<OrderKey>, a: Row, b: Row)
    requires Before(keys, a, b)
    ensures !Before(keys, b, a)
  {
    if keys[0](a) == keys[0](b) {
      NotBothBefore(keys[1..], a, b);
    }
  }

  ghost predicate IsSorted(keys: seq<OrderKey>, rs: seq<Row>) {
    forall a, b :: 0 <= a < b < |rs| ==> !Before(keys, rs[b], rs[a])
  }

  /** A row that may stand in front of sorted rows comes before none of them too late. */
  lemma FrontOfSorted(keys: seq<OrderKey>, t: Row, rs: seq<Row>)
    requires IsSorted(keys, rs) && rs != [] && !Before(keys, rs[0], t)
    ensures forall r :: r in rs ==> !Before(keys, r, t)
  {
    forall r | r in rs
      ensures !Before(keys, r, t)
    {
      var b :| 0 <= b < |rs| && rs[b] == r;
      if Before(keys, r, t) {
        BeforeSplits(keys, r, rs[0], t);
      }
    }
  }

  lemma {:induction false} InsertIsSorted(keys: seq<OrderKey>, t: Row, rs: seq<Row>)
    requires IsSorted(keys, rs)
    ensures IsSorted(keys, InsertSorted(keys, t, rs))
  {
    if rs != [] {
      if Before(keys, rs[0], t) {
        var inner := InsertSorted(keys, t, rs[1..]);
        InsertIsSorted(keys, t, rs[1..]);
        InsertKeepsMembers(keys, t, 1, rs[1..]);
        assert InsertCopies(keys, t, 1, rs[1..]) == InsertSorted(keys, t, InsertCopies(keys, t, 0, rs[1..]));
        NotBothBefore(keys, rs[0], t);
        forall b | 0 <= b < |inner|
          ensures !Before(keys, inner[b], rs[0])
        {
          assert inner[b] == t || inner[b] in rs[1..];
        }
      } else {
        FrontOfSorted(keys, t, rs);
      }
    }
  }

  lemma {:induction false} SortIsSorted(keys: seq<OrderKey>, rs: seq<Row>)
    ensures IsSorted(keys, Sort(keys, rs))
  {
    if rs != [] {
      SortIsSorted(keys, rs[1..]);
      InsertIsSorted(keys, rs[0], Sort(keys, rs[1..]));
    }
  }

  lemma {:induction false} FilterInsert(keys: seq<OrderKey>, t: Row, rs: seq<Row>, p: Row -> bool)
    requires IsSorted(keys, rs)
    ensures Filter(InsertSorted(keys, t, rs), p)
         == if p(t) then InsertSorted(keys, t, Filter(rs, p)) else Filter(rs, p)
  {
    if rs != [] && Before(keys, rs[0], t) {
      FilterInsert(keys, t, rs[1..], p);
      FilterFront(rs[0], InsertSorted(keys, t, rs[1..]), p);
      InsertBehind(keys, t, rs, p);
    } else {
      FilterFront(t, rs, p);
      if rs != [] {
        FrontOfSorted(keys, t, rs);
        assert Filter(rs, p) != [] ==> Filter(rs, p)[0] in rs;
      }
    }
  }

  /** The sort is stable, so it does not matter whether rows are filtered before or after it. */
  lemma {:induction false} FilterSort(keys: seq<OrderKey>, rs: seq<Row>, p: Row -> bool)
    ensures Filter(Sort(keys, rs), p) == Sort(keys, Filter(rs, p))
  {
    if rs != [] {
      FilterSort(keys, rs[1..], p);
      SortIsSorted(keys, rs[1..]);
      FilterInsert(keys, rs[0], Sort(keys, rs[1..]), p);
      assert Filter(rs, p) == (if p(rs[0]) then [rs[0]] else []) + Filter(rs[1..], p);
      assert [] + Filter(rs[1..], p) == Filter(rs[1..], p);
      SortFront(keys, rs[0], Filter(rs[1..], p));
    }
  }

  lemma SortFront(keys: seq<OrderKey>, t: Row, rs: seq<Row>)
    ensures Sort(keys, [t] + rs) == InsertSorted(keys, t, Sort(keys, rs))
  {
    assert ([t] + rs)[1..] == rs;
  }

  // ---------------------------------------------------------------- adding a predicate

  /** A builder without a path that cuts nothing off: any predicates, order, fields and Unique. */
  predicate IsUncut(c: Chain) {
    c.Start? && !Limited(c.stage) && OffsetOf(c.stage) == 0
  }

  lemma UncutRows(c: Chain, db: Database)
    requires ValidDatabase(db) && IsUncut(c)
    ensures NodeRows(c, db) == Sort(c.stage.order, Filter(Table(db, c.stage.entity), Traversals.Keep(c.stage.preds)))
  {
    LoadedHopIff(c, db);
    var rows := Sort(c.stage.order, Matches(c, db, Previous(c, db)));
    assert Drop(rows, 0) == rows;
  }

  /** Where nothing is cut off, a further predicate filters what the builder selects. */
  lemma AddPredicateFilters(c: Chain, p: Predicate, db: Database)
    requires ValidDatabase(db) && IsUncut(c)
    ensures IsUncut(AddPredicate(c, p)) && NodeRows(AddPredicate(c, p), db) == Filter(NodeRows(c, db), p)
  {
    var table, ps := Table(db, c.stage.entity), c.stage.preds;
    UncutRows(c, db);
    UncutRows(AddPredicate(c, p), db);
    forall r | r in table
      ensures Traversals.Keep(ps + [p])(r) == (Traversals.Keep(ps)(r) && p(r))
    {
      OneMore(ps, p, r);
    }
    FilterFilter(table, Traversals.Keep(ps), p, Traversals.Keep(ps + [p]));
    FilterSort(c.stage.order, Filter(table, Traversals.Keep(ps)), p);
  }

  lemma OneMore(ps: seq<Predicate>, p: Predicate, r: Row)
    ensures Satisfies(ps + [p], r) <==> Satisfies(ps, r) && p(r)
  {
    var all := ps + [p];
    assert all[|ps|] == p;
    if Satisfies(all, r) {
      assert forall i :: 0 <= i < |ps| ==> all[i] == ps[i];
    }
  }

  // ---------------------------------------------------------------- certificates with their deployments

  /** The deployments that an eager load lists under a certificate. */
  function ListOf(child: Chain, wanted: seq<int>, id: int, db: Database): seq<Row> {
    var rows := NodeRows(AddPredicate(child, FkIn(wanted)), db);
    Pick(rows, RowKeys(rows), id)
  }

  /** A load that asks for a certificate lists all that the child builder selects for it. */
  lemma ListedOnce(child: Chain, wanted: seq<int>, id: int, db: Database)
    requires ValidDatabase(db) && IsUncut(child) && id in wanted
    ensures ListOf(child, wanted, id, db) == Children(NodeRows(child, db), id)
  {
    var all := NodeRows(child, db);
    AddPredicateFilters(child, FkIn(wanted), db);
    PickIsNestedLoop(Filter(all, FkIn(wanted)), id);
    FilterFilter(all, FkIn(wanted), KeyIs(id), KeyIs(id));
  }

  /** A certificate that the first run did not return lists nothing in the second, whatever the child builder. */
  lemma NotAskedForBefore(child: Chain, first: seq<int>, second: seq<int>, id: int, db: Database)
    requires id !in first
    ensures ListOf(AddPredicate(child, FkIn(first)), second, id, db) == []
  {
    var c := AddPredicate(AddPredicate(child, FkIn(first)), FkIn(second));
    var rows := NodeRows(c, db);
    var n := |child.stage.preds|;
    assert c.stage.preds[n] == FkIn(first);
    PickIsNestedLoop(rows, id);
    forall r | r in rows
      ensures !KeyIs(id)(r)
    {
      NodeRowsSatisfy(c, db, r);
      assert c.stage.preds[n](r);
    }
    FilterNone(rows, KeyIs(id));
  }

  /**
    Running a certificate builder twice: in the second run a certificate lists all that the child
    builder selects for it exactly if the first run had returned it too, or there is nothing to list.
   */
  lemma SecondRunListsIff(child: Chain, first: seq<int>, second: seq<int>, id: int, db: Database)
    requires ValidDatabase(db) && IsUncut(child) && id in second
    ensures ListOf(AddPredicate(child, FkIn(first)), second, id, db) == Children(NodeRows(child, db), id)
            <==> id in first || Children(NodeRows(child, db), id) == []
  {
    if id in first {
      var all := NodeRows(child, db);
      AddPredicateFilters(child, FkIn(first), db);
      ListedOnce(AddPredicate(child, FkIn(first)), second, id, db);
      FilterFilter(all, FkIn(first), KeyIs(id), KeyIs(id));
    } else {
      NotAskedForBefore(child, first, second, id, db);
    }
  }

  // ---------------------------------------------------------------- deployments with their certificate

  /** The certificate that an eager load sets a deployment's edge to. */
  function CertificateOf(child: Chain, keys: seq<Option<int>>, key: Option<int>, db: Database): Option<Row> {
    EdgeOf(ParentRows(child, keys, db), key)
  }

  lemma AskedFor(child: Chain, keys: seq<Option<int>>, r: Row, db: Database)
    requires ValidDatabase(db) && IsUncut(child) && Some(r.id) in keys
    ensures r in ParentRows(child, keys, db) <==> r in NodeRows(child, db)
  {
    AddPredicateFilters(child, IdIn(FirstOccurrences(keys)), db);
  }

  lemma UncutFromTable(child: Chain, r: Row, db: Database)
    requires ValidDatabase(db) && IsUncut(child) && r in NodeRows(child, db)
    ensures r in Table(db, child.stage.entity)
  {
    UncutRows(child, db);
    SortKeepsRows(child.stage.order, Filter(Table(db, child.stage.entity), Traversals.Keep(child.stage.preds)));
    assert r in multiset(NodeRows(child, db));
  }

  /** A load that asks for a certificate finds it iff the child builder selects it. */
  lemma FoundOnce(child: Chain, keys: seq<Option<int>>, c: Row, db: Database)
    requires ValidDatabase(db) && IsUncut(child) && child.stage.entity.Certificate?
    requires c in db.certificates && Some(c.id) in keys
    ensures CertificateOf(child, keys, Some(c.id), db) == Some(c) <==> c in NodeRows(child, db)
  {
    var parents := ParentRows(child, keys, db);
    forall p | p in parents
      ensures p in db.certificates
    {
      AddPredicateFilters(child, IdIn(FirstOccurrences(keys)), db);
      UncutFromTable(child, p, db);
    }
    EdgeIff(db.certificates, parents, c, Some(c.id));
    AskedFor(child, keys, c, db);
  }

  /**
    Running a deployment builder twice: the second run finds a certificate exactly if the child
    builder selects it and the first run had asked for it too. Otherwise the accessor reports "not
    found" for a certificate that exists.
   */
  lemma SecondRunFindsIff(child: Chain, first: seq<int>, keys: seq<Option<int>>, c: Row, db: Database)
    requires ValidDatabase(db) && IsUncut(child) && child.stage.entity.Certificate?
    requires c in db.certificates && Some(c.id) in keys
    ensures CertificateOf(AddPredicate(child, IdIn(first)), keys, Some(c.id), db) == Some(c)
            <==> c.id in first && CertificateOf(child, keys, Some(c.id), db) == Some(c)
  {
    AddPredicateFilters(child, IdIn(first), db);
    FoundOnce(child, keys, c, db);
    FoundOnce(AddPredicate(child, IdIn(first)), keys, c, db);
  }

  /** A key that the first run did not ask for finds nothing, whatever the child builder. */
  lemma NotFoundAgain(child: Chain, first: seq<int>, keys: seq<Option<int>>, key: Option<int>, db: Database)
    requires key.Some? ==> key.value !in first
    ensures CertificateOf(AddPredicate(child, IdIn(first)), keys, key, db) == None
  {
    var again := ParentRows(AddPredicate(child, IdIn(first)), keys, db);
    var n := |child.stage.preds|;
    EdgeIsParent(again, key);
    forall r | r in again
      ensures r.id in first
    {
      var c := AddPredicate(AddPredicate(child, IdIn(first)), IdIn(FirstOccurrences(keys)));
      NodeRowsSatisfy(c, db, r);
      assert c.stage.preds[n] == IdIn(first);
      assert c.stage.preds[n](r);
    }
  }

  /** On the loaded objects: the accessor returns that certificate, or reports "not found" if there is none. */
  lemma VerdictShowsCertificate(node: Entity, parents: seq<Entity>, child: Chain, keys: seq<Option<int>>,
                                key: Option<int>, db: Database)
    requires HaveIds(parents, Ids(ParentRows(child, keys, db)))
    requires VerdictIsFaithful(node, true, key, parents, Ids(ParentRows(child, keys, db)))
    ensures match CertificateOf(child, keys, key, db)
            case None => CertificateOrErr(node) == Err(NotFound)
            case Some(c) => CertificateOrErr(node).Ok? && CertificateOrErr(node).value.id == c.id
  {
    if key.Some? {
      LastWithIsLast(Ids(ParentRows(child, keys, db)), key.value);
    }
  }
}
