/**
  Eager loading: `sqlAll`, and the hash joins `loadDeployments` (one certificate to many
  deployments) and `loadCertificate` (many deployments to one certificate), on entity objects
  whose edges are filled in place.
 */
module EagerLoading {
  import opened Relational
  import opened RowCodec
  import opened RowReading
  import opened Projection
  import opened ChangeOrderFields
  import opened QueryPlan
  import opened QueryTheorems
  import opened QueryBuilder

  datatype LoadError = QueryFailed(error: Error) | DecodeFailed(reason: DecodeError) | NilForeignKey | UnexpectedKey

  // ---------------------------------------------------------------- sqlAll

  /** The columns of a node show its row; the edges are another matter. */
  ghost predicate Shows(t: EntityType, j: JsonCodec, times: Column -> nat, r: Row, n: Entity)
    reads n`id, n`fields, n`selected
  {
    Reads(t, j, times, r, EntityValue(n.id, n.fields, n.selected))
  }

  ghost predicate AreShown(t: EntityType, j: JsonCodec, times: Column -> nat, rs: seq<Row>, ns: seq<Entity>)
    reads ns`id, ns`fields, ns`selected
  {
    |ns| == |rs| && forall i :: 0 <= i < |ns| ==> Shows(t, j, times, rs[i], ns[i])
  }

  /** A loaded node: it shows its row, with no edge filled in yet. */
  ghost predicate IsLoaded(t: EntityType, j: JsonCodec, times: Column -> nat, r: Row, edge: bool, n: Entity)
    reads n
  {
    Shows(t, j, times, r, n) && n.many == None && n.one == null && n.loaded == edge
  }

  ghost predicate AreLoaded(t: EntityType, j: JsonCodec, times: Column -> nat, rs: seq<Row>, edge: bool,
                            ns: seq<Entity>)
    reads ns
  {
    && |ns| == |rs|
    && (forall i :: 0 <= i < |ns| ==> IsLoaded(t, j, times, rs[i], edge, ns[i]))
    && (forall a, b :: 0 <= a < b < |ns| ==> ns[a] != ns[b])
  }

  lemma ShownHaveIds(t: EntityType, j: JsonCodec, times: Column -> nat, rs: seq<Row>, ns: seq<Entity>)
    requires AreShown(t, j, times, rs, ns)
    ensures HaveIds(ns, Ids(rs))
  {
    forall k | 0 <= k < |ns|
      ensures ns[k].id == Ids(rs)[k]
    {
      assert Shows(t, j, times, rs[k], ns[k]);
    }
  }

  /** If the foreign keys are scanned, the nodes have their rows' keys. */
  lemma ShownHaveKeys(j: JsonCodec, times: Column -> nat, rs: seq<Row>, ns: seq<Entity>)
    requires AreShown(CertDeployment, j, times, rs, ns) && times(CertificateFk) > 0
    ensures HaveKeys(ns, RowKeys(rs))
  {
    forall k | 0 <= k < |ns|
      ensures ns[k].ForeignKey() == RowKeys(rs)[k]
    {
      ShowsKey(j, times, rs[k], ns[k]);
    }
  }

  lemma ShowsKey(j: JsonCodec, times: Column -> nat, r: Row, n: Entity)
    requires Shows(CertDeployment, j, times, r, n) && times(CertificateFk) > 0
    ensures n.ForeignKey() == ForeignKey(r)
  {
    assert Lookup(n.fields, CertificateFk) == FieldOf(CertDeployment, j, times, r, CertificateFk);
  }

  lemma ShowSame(t: EntityType, j: JsonCodec, x: Column -> nat, y: Column -> nat, rs: seq<Row>, ns: seq<Entity>)
    requires AreShown(t, j, x, rs, ns) && forall c :: x(c) == y(c)
    ensures AreShown(t, j, y, rs, ns)
  {
    forall i | 0 <= i < |ns|
      ensures Shows(t, j, y, rs[i], ns[i])
    {
      assert Shows(t, j, x, rs[i], ns[i]);
      SameTimes(t, j, x, y, rs[i]);
    }
  }

  /** The columns sqlAll scans. */
  function LoadColumns(q: Query): seq<Column>
    reads q`limit, q`offset, q`unique, q`fields, q`predicates, q`order, q`withEdge, q`withFKs
  {
    SpecColumns(Stage(q.entity, q.fields, q.unique, q.predicates, q.order, q.offset, q.limit))
    + if q.withFKs || q.withEdge != null then ForeignKeys(q.entity) else []
  }

  /** `_spec.ScanValues`, and the driver's Scan of one row. */
  method ScanRow(t: EntityType, cols: seq<Column>, r: Row) returns (holders: array<Holder>)
    ensures fresh(holders) && holders[..] == Scanned(t, cols, r)
  {
    holders := ScanValues(t, cols);
    for i := 0 to |cols|
      invariant forall k :: 0 <= k < i ==> holders[k] == Fill(Slot(KindOf(t, cols[k])), Cell(r, cols[k]))
      invariant forall k :: i <= k < |cols| ==> holders[k] == Slot(KindOf(t, cols[k]))
    {
      holders[i] := Fill(holders[i], Cell(r, cols[i]));
    }
  }

  /**
    One call of `_spec.Assign` on a scanned row. It succeeds exactly if every JSON text that is read
    can be unmarshalled, and then the node shows the row; an error names a column where that fails.
   */
  method DecodeNode(t: EntityType, j: JsonCodec, cols: seq<Column>, r: Row, edge: bool)
    returns (n: Entity, err: Option<LoadError>)
    requires Id in cols
    ensures fresh(n) && (err.None? <==> IsReadable(t, j, TimesIn(cols), r))
    ensures err.None? ==> IsLoaded(t, j, TimesIn(cols), r, edge, n)
    ensures err.Some? ==> err.value.DecodeFailed? && IsCulprit(t, j, TimesIn(cols), r, err.value.reason)
  {
    var holders := ScanRow(t, cols, r);
    n := new Entity();
    n.loaded := edge;
    var e := n.AssignValues(t, j, cols, holders[..]);
    DecodingReads(t, j, cols, r);
    err := if e.Some? then Some(DecodeFailed(e.value)) else None;
  }

  /** sqlgraph.QueryNodes: scan and assign row after row, until one fails. */
  method DecodeNodes(t: EntityType, j: JsonCodec, cols: seq<Column>, rows: seq<Row>, edge: bool)
    returns (nodes: seq<Entity>, err: Option<LoadError>)
    requires Id in cols
    ensures RowsEnd(t, j, TimesIn(cols), rows, err)
    ensures err.None? ==> AreLoaded(t, j, TimesIn(cols), rows, edge, nodes)
    ensures forall i :: 0 <= i < |nodes| ==> fresh(nodes[i])
  {
    nodes, err := [], None;
    for i := 0 to |rows|
      invariant AreLoaded(t, j, TimesIn(cols), rows[..i], edge, nodes) && err == None
      invariant forall k :: 0 <= k < i ==> IsReadable(t, j, TimesIn(cols), rows[k])
      invariant forall k :: 0 <= k < |nodes| ==> fresh(nodes[k])
    {
      var n;
      n, err := DecodeNode(t, j, cols, rows[i], edge);
      if err.Some? {
        assert IsFirstUnreadable(t, j, TimesIn(cols), rows, i, err.value.reason);
        return;
      }
      nodes := nodes + [n];
    }
    assert rows[..|rows|] == rows;
  }

  /** Decoding these rows succeeds exactly if all are readable; an error is that of the first that is not. */
  ghost predicate RowsEnd(t: EntityType, j: JsonCodec, times: Column -> nat, rows: seq<Row>, err: Option<LoadError>) {
    match err
    case None => forall i :: 0 <= i < |rows| ==> IsReadable(t, j, times, rows[i])
    case Some(e) => e.DecodeFailed? && exists i :: IsFirstUnreadable(t, j, times, rows, i, e.reason)
  }

  ghost predicate IsFirstUnreadable(t: EntityType, j: JsonCodec, times: Column -> nat, rows: seq<Row>, i: int,
                                    x: DecodeError)
  {
    && 0 <= i < |rows| && !IsReadable(t, j, times, rows[i]) && IsCulprit(t, j, times, rows[i], x)
    && forall k :: 0 <= k < i ==> IsReadable(t, j, times, rows[k])
  }

  /** How a query ends: with its first invalid field, or with the first row that cannot be decoded, or well. */
  ghost predicate FetchEnds(plan: Chain, j: JsonCodec, db: Database, err: Option<LoadError>) {
    if PrepareError(plan).Some? then err == Some(QueryFailed(PrepareError(plan).value))
    else RowsEnd(plan.stage.entity, j, Times(plan.stage.entity, plan.stage.fields, false), NodeRows(plan, db), err)
  }

  /** Whether a query ends well. */
  ghost predicate Succeeds(plan: Chain, j: JsonCodec, db: Database) {
    PrepareError(plan).None?
    && forall i :: 0 <= i < |NodeRows(plan, db)| ==>
         IsReadable(plan.stage.entity, j, Times(plan.stage.entity, plan.stage.fields, false), NodeRows(plan, db)[i])
  }

  lemma EndsWellIff(plan: Chain, j: JsonCodec, db: Database, err: Option<LoadError>)
    requires FetchEnds(plan, j, db, err)
    ensures err.None? <==> Succeeds(plan, j, db)
  {
  }

  lemma EndAlike(t: EntityType, fields: seq<Column>, keys: bool, j: JsonCodec, cols: seq<Column>, rows: seq<Row>,
                 err: Option<LoadError>)
    requires RowsEnd(t, j, TimesIn(cols), rows, err)
    requires forall c :: TimesIn(cols)(c) == Times(t, fields, keys)(c)
    ensures RowsEnd(t, j, Times(t, fields, false), rows, err)
  {
    forall i | 0 <= i < |rows|
      ensures IsReadable(t, j, TimesIn(cols), rows[i]) <==> IsReadable(t, j, Times(t, fields, false), rows[i])
      ensures forall x :: IsCulprit(t, j, TimesIn(cols), rows[i], x)
                          <==> IsCulprit(t, j, Times(t, fields, false), rows[i], x)
    {
      SameTimes(t, j, TimesIn(cols), Times(t, fields, keys), rows[i]);
      KeysAlwaysRead(t, fields, keys, j, rows[i]);
    }
    if err.Some? {
      var i :| IsFirstUnreadable(t, j, TimesIn(cols), rows, i, err.value.reason);
      assert IsFirstUnreadable(t, j, Times(t, fields, false), rows, i, err.value.reason);
    }
  }

  lemma LoadedAlike(t: EntityType, j: JsonCodec, x: Column -> nat, y: Column -> nat, rs: seq<Row>, edge: bool,
                    ns: seq<Entity>)
    requires AreLoaded(t, j, x, rs, edge, ns) && forall c :: x(c) == y(c)
    ensures AreLoaded(t, j, y, rs, edge, ns)
  {
    ShowSame(t, j, x, y, rs, ns);
    forall i | 0 <= i < |ns|
      ensures IsLoaded(t, j, y, rs[i], edge, ns[i])
    {
      assert IsLoaded(t, j, x, rs[i], edge, ns[i]) && Shows(t, j, y, rs[i], ns[i]);
    }
  }

  /** How often a builder scans each column. */
  function LoadTimes(q: Query): Column -> nat
    reads q`fields, q`withEdge, q`withFKs
  {
    Times(q.entity, q.fields, q.withFKs || q.withEdge != null)
  }

  lemma LoadColumnsTimes(q: Query)
    ensures Id in LoadColumns(q) && forall c :: TimesIn(LoadColumns(q))(c) == LoadTimes(q)(c)
  {
    var st, keys := q.StageOf(), q.withFKs || q.withEdge != null;
    SpecColumnsHaveId(st);
    forall c
      ensures TimesIn(LoadColumns(q))(c) == LoadTimes(q)(c)
    {
      ScannedTimes(st, keys, c);
      assert LoadColumns(q) == SpecColumns(st) + KeyColumns(st.entity, keys);
    }
  }

  /** The scan of the rows that a builder selects. */
  method DecodeRows(q: Query, rows: seq<Row>, j: JsonCodec) returns (nodes: seq<Entity>, err: Option<LoadError>)
    ensures RowsEnd(q.entity, j, Times(q.entity, q.fields, false), rows, err)
    ensures err.None? ==> AreLoaded(q.entity, j, LoadTimes(q), rows, q.withEdge != null, nodes)
    ensures forall i :: 0 <= i < |nodes| ==> fresh(nodes[i])
  {
    LoadColumnsTimes(q);
    var cols := LoadColumns(q);
    nodes, err := DecodeNodes(q.entity, j, cols, rows, q.withEdge != null);
    EndAlike(q.entity, q.fields, q.withFKs || q.withEdge != null, j, cols, rows, err);
    if err.None? {
      LoadedAlike(q.entity, j, TimesIn(cols), LoadTimes(q), rows, q.withEdge != null, nodes);
    }
  }

  /** sqlAll up to the eager load: one fresh node per selected row, in order, unless a row cannot be decoded. */
  method FetchNodes(q: Query, db: Database, j: JsonCodec) returns (nodes: seq<Entity>, err: Option<LoadError>)
    requires q.Valid()
    modifies q.along`sql
    ensures q.Valid() && FetchEnds(q.Plan(), j, db, err)
    ensures err.None? ==> AreLoaded(q.entity, j, LoadTimes(q), NodeRows(q.Plan(), db), q.withEdge != null, nodes)
    ensures forall i :: 0 <= i < |nodes| ==> fresh(nodes[i])
  {
    nodes := [];
    var rows := q.FetchRows(db);
    if rows.Err? {
      return nodes, Some(QueryFailed(rows.error));
    }
    nodes, err := DecodeRows(q, rows.value, j);
  }

  // ---------------------------------------------------------------- the joins, on keys alone

  /** The nested-loop join: the elements whose key is k, in order. */
  function Pick<T>(xs: seq<T>, keys: seq<Option<int>>, k: int): (ys: seq<T>)
    requires |xs| == |keys|
  {
    if xs == [] then []
    else (if keys[0] == Some(k) then [xs[0]] else []) + Pick(xs[1..], keys[1..], k)
  }

  lemma PickFront<T>(xs: seq<T>, keys: seq<Option<int>>, x: T, key: Option<int>, k: int)
    requires |xs| == |keys|
    ensures Pick([x] + xs, [key] + keys, k) == (if key == Some(k) then [x] else []) + Pick(xs, keys, k)
  {
    assert ([x] + xs)[1..] == xs && ([key] + keys)[1..] == keys;
  }

  lemma {:induction false} PickNext<T>(xs: seq<T>, keys: seq<Option<int>>, x: T, key: Option<int>, k: int)
    requires |xs| == |keys|
    ensures Pick(xs + [x], keys + [key], k) == if key == Some(k) then Pick(xs, keys, k) + [x] else Pick(xs, keys, k)
  {
    if xs == [] {
      assert xs + [x] == [x] + [] && keys + [key] == [key] + [];
      PickFront([], [], x, key, k);
    } else {
      assert xs + [x] == [xs[0]] + (xs[1..] + [x]) && keys + [key] == [keys[0]] + (keys[1..] + [key]);
      PickFront(xs[1..] + [x], keys[1..] + [key], xs[0], keys[0], k);
      PickNext(xs[1..], keys[1..], x, key, k);
    }
  }

  /** The last of equal IDs: the one that a map filled in order keeps. */
  ghost predicate IsLast(ids: seq<int>, i: int) {
    0 <= i < |ids| && forall l :: i < l < |ids| ==> ids[l] != ids[i]
  }

  /** Where an ID occurs last. */
  function LastWith(ids: seq<int>, id: int): Option<nat> {
    if ids == [] then None
    else if ids[|ids| - 1] == id then Some(|ids| - 1)
    else LastWith(ids[..|ids| - 1], id)
  }

  lemma {:induction false} LastWithIsLast(ids: seq<int>, id: int)
    ensures match LastWith(ids, id)
            case None => id !in ids
            case Some(n) => n < |ids| && ids[n] == id && forall l :: n < l < |ids| ==> ids[l] != id
  {
    if ids != [] && ids[|ids| - 1] != id {
      LastWithIsLast(ids[..|ids| - 1], id);
    }
  }

  /** How many children parent i lists. */
  ghost function Count(keys: seq<Option<int>>, ids: seq<int>, i: nat): nat
    requires i < |ids|
  {
    if IsLast(ids, i) then |Pick(keys, keys, ids[i])| else 0
  }

  /** How many children the lists of all parents from i on hold together. */
  ghost function Total(keys: seq<Option<int>>, ids: seq<int>, i: nat): nat
    requires i <= |ids|
    decreases |ids| - i
  {
    if i == |ids| then 0 else Count(keys, ids, i) + Total(keys, ids, i + 1)
  }

  lemma {:induction false} TotalNext(keys: seq<Option<int>>, key: int, ids: seq<int>, i: nat)
    requires i <= |ids|
    ensures Total(keys + [Some(key)], ids, i) == Total(keys, ids, i) + if key in ids[i..] then 1 else 0
    decreases |ids| - i
  {
    if i < |ids| {
      TotalNext(keys, key, ids, i + 1);
      PickNext(keys, keys, Some(key), Some(key), ids[i]);
      assert ids[i..] == [ids[i]] + ids[i + 1..];
    }
  }

  /** No child is lost and none is listed twice: the list lengths add up to the number of children. */
  lemma {:induction false} ListsPartitionChildren(keys: seq<Option<int>>, ids: seq<int>)
    requires AllKnown(keys, ids)
    ensures Total(keys, ids, 0) == |keys|
  {
    if keys == [] {
      TotalOfNone(ids, 0);
    } else {
      var init := keys[..|keys| - 1];
      ListsPartitionChildren(init, ids);
      TotalNext(init, keys[|keys| - 1].value, ids, 0);
      assert keys == init + [keys[|keys| - 1]] && ids[0..] == ids;
    }
  }

  lemma {:induction false} TotalOfNone(ids: seq<int>, i: nat)
    requires i <= |ids|
    ensures Total([], ids, i) == 0
    decreases |ids| - i
  {
    if i < |ids| {
      TotalOfNone(ids, i + 1);
    }
  }

  /** The distinct keys in the order of their first occurrence. */
  function FirstOccurrences(keys: seq<Option<int>>): (ids: seq<int>)
    ensures forall k :: k in ids <==> Some(k) in keys
    ensures forall a, b :: 0 <= a < b < |ids| ==> ids[a] != ids[b]
  {
    if keys == [] then []
    else
      var init := FirstOccurrences(keys[..|keys| - 1]);
      var last := keys[|keys| - 1];
      assert keys == keys[..|keys| - 1] + [last];
      if last.None? || last.value in init then init else init + [last.value]
  }

  // ---------------------------------------------------------------- predicates the loads add

  /** The plan of a builder to which a predicate has been added. */
  function AddPredicate(c: Chain, p: Predicate): Chain {
    WithStage(c, c.stage.(preds := c.stage.preds + [p]))
  }

  function FkIn(ids: seq<int>): Predicate {
    (r: Row) => ForeignKey(r).Some? && ForeignKey(r).value in ids
  }

  function IdIn(ids: seq<int>): Predicate {
    (r: Row) => r.id in ids
  }

  function IdsOf(ns: seq<Entity>): (ids: seq<int>)
    reads ns`id
    ensures |ids| == |ns| && forall i :: 0 <= i < |ns| ==> ids[i] == ns[i].id
  {
    if ns == [] then [] else [ns[0].id] + IdsOf(ns[1..])
  }

  function KeysOf(ns: seq<Entity>): (keys: seq<Option<int>>)
    reads ns`fields
    ensures |keys| == |ns| && forall i :: 0 <= i < |ns| ==> keys[i] == ns[i].ForeignKey()
  {
    if ns == [] then [] else [ns[0].ForeignKey()] + KeysOf(ns[1..])
  }

  /** Whatever a builder selects satisfies its predicates. */
  lemma NodeRowsSatisfy(c: Chain, db: Database, r: Row)
    requires r in NodeRows(c, db)
    ensures Satisfies(c.stage.preds, r) && r in SourceRows(c, db)
  {
    var kept := Filter(SourceRows(c, db), r => Satisfies(c.stage.preds, r));
    SortKeepsRows(c.stage.order, kept);
    if r in Distinct(SpecColumns(c.stage), Sort(c.stage.order, kept)) {
      DistinctIsSubset(SpecColumns(c.stage), Sort(c.stage.order, kept), r);
    }
    assert r in Sort(c.stage.order, kept) && r in kept;
  }

  // ---------------------------------------------------------------- one to many

  /** After loadDeployments: every certificate lists its deployments, the last of equal IDs all of them. */
  ghost predicate Listed(nodes: seq<Entity>, ids: seq<int>, neighbors: seq<Entity>, keys: seq<Option<int>>)
    requires |nodes| == |ids| && |neighbors| == |keys|
    reads nodes`many
  {
    forall i :: 0 <= i < |nodes| ==> nodes[i].many == Some(if IsLast(ids, i) then Pick(neighbors, keys, ids[i]) else [])
  }

  /** The map from ID to parent: later parents replace earlier ones. */
  ghost predicate Indexed(nodes: seq<Entity>, ids: seq<int>, nodeids: map<int, Entity>)
    requires |nodes| == |ids|
  {
    && (forall k :: k in nodeids <==> k in ids)
    && (forall k :: k in nodeids ==>
          LastWith(ids, k).Some? && LastWith(ids, k).value < |nodes| && nodeids[k] == nodes[LastWith(ids, k).value])
  }

  lemma IndexNext(nodes: seq<Entity>, ids: seq<int>, nodeids: map<int, Entity>, i: nat)
    requires i == |ids| < |nodes| && Indexed(nodes[..i], ids, nodeids)
    ensures Indexed(nodes[..i + 1], ids + [nodes[i].id], nodeids[nodes[i].id := nodes[i]])
  {
    assert (ids + [nodes[i].id])[..i] == ids;
  }

  /** The first loop of loadDeployments, with the init callback. */
  method IndexParents(nodes: seq<Entity>) returns (fks: seq<int>, nodeids: map<int, Entity>)
    requires forall a, b :: 0 <= a < b < |nodes| ==> nodes[a] != nodes[b]
    modifies nodes`many
    ensures fks == old(IdsOf(nodes)) && Indexed(nodes, fks, nodeids)
    ensures Listed(nodes, fks, [], [])
  {
    fks, nodeids := [], map[];
    for i := 0 to |nodes|
      invariant |fks| == i && forall l :: 0 <= l < i ==> fks[l] == nodes[l].id
      invariant Indexed(nodes[..i], fks, nodeids)
      invariant forall l :: 0 <= l < i ==> nodes[l].many == Some([])
    {
      ghost var fks0, nodeids0 := fks, nodeids;
      fks := fks + [nodes[i].id];
      nodeids := nodeids[nodes[i].id := nodes[i]];
      nodes[i].many := Some([]);
      IndexNext(nodes, fks0, nodeids0, i);
    }
    assert nodes[..|nodes|] == nodes;
  }

  /** These are the foreign keys of the decoded children. */
  ghost predicate HaveKeys(ns: seq<Entity>, keys: seq<Option<int>>)
    reads ns`fields
  {
    |ns| == |keys| && forall k :: 0 <= k < |ns| ==> ns[k].ForeignKey() == keys[k]
  }

  predicate IsKnown(key: Option<int>, ids: seq<int>) {
    key.Some? && key.value in ids
  }

  ghost predicate AllKnown(keys: seq<Option<int>>, ids: seq<int>) {
    forall k :: 0 <= k < |keys| ==> IsKnown(keys[k], ids)
  }

  lemma TakeAll<T>(xs: seq<T>)
    ensures xs[..|xs|] == xs
  {
  }

  lemma TakeNext<T>(xs: seq<T>, k: nat)
    requires k < |xs|
    ensures xs[..k + 1] == xs[..k] + [xs[k]]
  {
  }

  lemma KnownNext(keys: seq<Option<int>>, k: nat, ids: seq<int>)
    requires k < |keys| && AllKnown(keys[..k], ids) && IsKnown(keys[k], ids)
    ensures AllKnown(keys[..k + 1], ids)
  {
    TakeNext(keys, k);
    assert forall l :: 0 <= l < k ==> keys[..k + 1][l] == keys[..k][l];
  }

  /** The second loop: every child is appended to the list of the parent its key names. */
  method AppendChildren(nodes: seq<Entity>, fks: seq<int>, nodeids: map<int, Entity>, neighbors: seq<Entity>,
                        ghost keys: seq<Option<int>>)
    returns (err: Option<LoadError>)
    requires HaveKeys(neighbors, keys)
    requires |nodes| == |fks| && Indexed(nodes, fks, nodeids)
    requires forall a, b :: 0 <= a < b < |nodes| ==> nodes[a] != nodes[b]
    requires Listed(nodes, fks, [], [])
    modifies nodes`many
    ensures err.None? <==> AllKnown(keys, fks)
    ensures err.None? ==> Listed(nodes, fks, neighbors, keys)
  {
    for k := 0 to |neighbors|
      invariant Listed(nodes, fks, neighbors[..k], keys[..k])
      invariant AllKnown(keys[..k], fks)
    {
      var fk := neighbors[k].ForeignKey();
      assert fk == keys[k] && (AllKnown(keys, fks) ==> IsKnown(keys[k], fks));
      if fk.None? {
        return Some(NilForeignKey);
      }
      if fk.value !in nodeids {
        return Some(UnexpectedKey);
      }
      KnownNext(keys, k, fks);
      AppendChild(nodes, fks, nodeids, neighbors[..k], keys[..k], neighbors[k], fk.value);
      TakeNext(neighbors, k);
      TakeNext(keys, k);
    }
    TakeAll(neighbors);
    TakeAll(keys);
    err := None;
  }

  method AppendChild(nodes: seq<Entity>, fks: seq<int>, nodeids: map<int, Entity>,
                     ghost done: seq<Entity>, ghost keys: seq<Option<int>>, n: Entity, fk: int)
    requires |nodes| == |fks| && Indexed(nodes, fks, nodeids) && fk in nodeids && |done| == |keys|
    requires forall a, b :: 0 <= a < b < |nodes| ==> nodes[a] != nodes[b]
    requires Listed(nodes, fks, done, keys)
    modifies nodes`many
    ensures Listed(nodes, fks, done + [n], keys + [Some(fk)])
  {
    var node := nodeids[fk];
    ghost var at := LastWith(fks, fk).value;
    LastWithIsLast(fks, fk);
    assert node.many == Some(Pick(done, keys, fk));
    node.many := Some(node.many.value + [n]);
    forall i | 0 <= i < |nodes|
      ensures nodes[i].many == Some(if IsLast(fks, i) then Pick(done + [n], keys + [Some(fk)], fks[i]) else [])
    {
      PickNext(done, keys, n, Some(fk), fks[i]);
      if i == at {
        assert nodes[i].many == Some(Pick(done, keys, fk) + [n]);
      } else {
        assert nodes[i] != nodes[at] && !(IsLast(fks, i) && fks[i] == fk);
        assert nodes[i].many == old(nodes[i].many);
      }
    }
  }

  function RowKeys(rows: seq<Row>): (keys: seq<Option<int>>)
    ensures |keys| == |rows|
  {
    Map(rows, r => ForeignKey(r))
  }

  ghost predicate HaveIds(ns: seq<Entity>, ids: seq<int>)
    reads ns`id
  {
    |ns| == |ids| && forall k :: 0 <= k < |ns| ==> ns[k].id == ids[k]
  }

  /** These nodes show the rows that a plan selects, foreign keys included. */
  ghost predicate FromPlan(j: JsonCodec, plan: Chain, db: Database, ns: seq<Entity>)
    reads ns`id, ns`fields, ns`selected
  {
    AreShown(plan.stage.entity, j, Times(plan.stage.entity, plan.stage.fields, true), NodeRows(plan, db), ns)
  }

  lemma FromPlanIs(j: JsonCodec, plan: Chain, db: Database, ns: seq<Entity>)
    requires FromPlan(j, plan, db, ns)
    ensures HaveIds(ns, Ids(NodeRows(plan, db)))
    ensures plan.stage.entity.CertDeployment? ==> HaveKeys(ns, RowKeys(NodeRows(plan, db)))
  {
    var times := Times(plan.stage.entity, plan.stage.fields, true);
    ShownHaveIds(plan.stage.entity, j, times, NodeRows(plan, db), ns);
    if plan.stage.entity.CertDeployment? {
      ShownHaveKeys(j, times, NodeRows(plan, db), ns);
    }
  }

  /** query.All for a builder whose keys the join needs. */
  method FetchNeighbors(query: Query, db: Database, j: JsonCodec)
    returns (ns: seq<Entity>, ghost plan: Chain, err: Option<LoadError>)
    requires query.Valid() && (query.entity.CertDeployment? ==> query.withFKs)
    requires query.entity.CertDeployment? || query.entity.Certificate?
    modifies query.along`sql
    ensures query.Valid() && plan == query.Plan() && fresh(set n | n in ns)
    ensures FetchEnds(plan, j, db, err)
    ensures err.None? ==> FromPlan(j, plan, db, ns)
  {
    ns, err := FetchNodes(query, db, j);
    plan := query.Plan();
    if err.None? {
      LoadedShow(query.entity, j, LoadTimes(query), NodeRows(plan, db), query.withEdge != null, ns);
      NeighborTimes(query);
      ShowSame(query.entity, j, LoadTimes(query), Times(query.entity, query.fields, true), NodeRows(plan, db), ns);
    }
  }

  lemma NeighborTimes(q: Query)
    requires q.entity.CertDeployment? ==> q.withFKs
    ensures forall c :: LoadTimes(q)(c) == Times(q.entity, q.fields, true)(c)
  {
  }

  lemma LoadedShow(t: EntityType, j: JsonCodec, times: Column -> nat, rs: seq<Row>, edge: bool, ns: seq<Entity>)
    requires AreLoaded(t, j, times, rs, edge, ns)
    ensures AreShown(t, j, times, rs, ns) && AreBare(ns, edge)
  {
    forall i | 0 <= i < |ns|
      ensures Shows(t, j, times, rs[i], ns[i]) && ns[i].one == null && ns[i].many == None && ns[i].loaded == edge
    {
      assert IsLoaded(t, j, times, rs[i], edge, ns[i]);
    }
  }

  /** With the IN predicate honoured, every child's key names a parent. */
  lemma ChildKeysAreKnown(c: Chain, db: Database, ids: seq<int>)
    requires FkIn(ids) in c.stage.preds
    ensures AllKnown(RowKeys(NodeRows(c, db)), ids)
  {
    var rows := NodeRows(c, db);
    forall k | 0 <= k < |rows|
      ensures IsKnown(RowKeys(rows)[k], ids)
    {
      NodeRowsSatisfy(c, db, rows[k]);
      var i :| 0 <= i < |c.stage.preds| && c.stage.preds[i] == FkIn(ids);
      assert FkIn(ids)(rows[k]);
    }
  }

  /** query.withFKs = true; query.Where(IN fks); query.All */
  method AskForChildren(query: Query, fks: seq<int>, db: Database, j: JsonCodec)
    returns (ns: seq<Entity>, ghost plan: Chain, err: Option<LoadError>)
    requires query.Valid() && query.entity.CertDeployment?
    modifies query`withFKs, query`predicates, query.along`sql
    ensures query.Valid() && plan == query.Plan() && fresh(set n | n in ns)
    ensures query.withFKs && query.predicates == old(query.predicates) + [FkIn(fks)]
    ensures plan == AddPredicate(old(query.Plan()), FkIn(fks)) && FetchEnds(plan, j, db, err)
    ensures err.None? ==> FromPlan(j, plan, db, ns)
    ensures AllKnown(RowKeys(NodeRows(plan, db)), fks)
  {
    query.withFKs := true;
    query.Where([FkIn(fks)]);
    assert query.Plan() == AddPredicate(old(query.Plan()), FkIn(fks));
    ns, plan, err := FetchNeighbors(query, db, j);
    ChildKeysAreKnown(plan, db, fks);
  }

  /**
    loadDeployments. The child builder keeps the IN predicate that the load adds. The load ends as
    that query does, so neither of the join's internal errors is ever returned, whatever columns
    the child builder selects; and then every parent lists its children as a nested loop would.
   */
  method LoadDeployments(query: Query, nodes: seq<Entity>, db: Database, j: JsonCodec)
    returns (err: Option<LoadError>, ghost plan: Chain, ghost neighbors: seq<Entity>)
    requires query.Valid() && query.entity.CertDeployment?
    requires forall a, b :: 0 <= a < b < |nodes| ==> nodes[a] != nodes[b]
    modifies nodes`many, query`withFKs, query`predicates, query.along`sql
    ensures query.Valid() && query.withFKs && query.predicates == old(query.predicates) + [FkIn(old(IdsOf(nodes)))]
    ensures plan == AddPredicate(old(query.Plan()), FkIn(old(IdsOf(nodes)))) && FetchEnds(plan, j, db, err)
    ensures err.None? ==> FromPlan(j, plan, db, neighbors) && fresh(set n | n in neighbors)
    ensures err.None? ==> ListedFrom(nodes, old(IdsOf(nodes)), neighbors, NodeRows(plan, db))
    ensures err.None? ==> ListTotal(nodes, 0) == |neighbors|
  {
    var fks, nodeids := IndexParents(nodes);
    err, plan, neighbors := JoinChildren(query, nodes, fks, nodeids, db, j);
  }

  /** Every parent lists its children, and every child has a parent. */
  ghost predicate ListedFrom(nodes: seq<Entity>, ids: seq<int>, neighbors: seq<Entity>, rows: seq<Row>)
    reads nodes`many
  {
    && |nodes| == |ids| && |neighbors| == |rows| && AllKnown(RowKeys(rows), ids)
    && Listed(nodes, ids, neighbors, RowKeys(rows))
  }

  /** How many children the lists of nodes i, i + 1, ... hold together. */
  ghost function ListTotal(nodes: seq<Entity>, i: nat): nat
    requires i <= |nodes|
    reads nodes`many
    decreases |nodes| - i
  {
    if i == |nodes| then 0 else ListLength(nodes[i]) + ListTotal(nodes, i + 1)
  }

  function ListLength(n: Entity): nat
    reads n`many
  {
    if n.many.Some? then |n.many.value| else 0
  }

  lemma {:induction false} PickLength<T, U>(xs: seq<T>, ys: seq<U>, keys: seq<Option<int>>, k: int)
    requires |xs| == |ys| == |keys|
    ensures |Pick(xs, keys, k)| == |Pick(ys, keys, k)|
  {
    if xs != [] {
      PickLength(xs[1..], ys[1..], keys[1..], k);
    }
  }

  lemma {:induction false} ListTotalIs(nodes: seq<Entity>, ids: seq<int>, keys: seq<Option<int>>, i: nat)
    requires |nodes| == |ids| && i <= |nodes|
    requires forall k :: 0 <= k < |nodes| ==> ListLength(nodes[k]) == Count(keys, ids, k)
    ensures ListTotal(nodes, i) == Total(keys, ids, i)
    decreases |nodes| - i
  {
    if i < |nodes| {
      ListTotalIs(nodes, ids, keys, i + 1);
    }
  }

  lemma ListLengthIs(nodes: seq<Entity>, ids: seq<int>, neighbors: seq<Entity>, keys: seq<Option<int>>, i: nat)
    requires i < |nodes| == |ids| && |neighbors| == |keys| && Listed(nodes, ids, neighbors, keys)
    ensures ListLength(nodes[i]) == Count(keys, ids, i)
  {
    PickLength(neighbors, keys, keys, ids[i]);
  }

  /** No child is lost and none is listed twice. */
  lemma ListsHoldAll(nodes: seq<Entity>, ids: seq<int>, neighbors: seq<Entity>, rows: seq<Row>)
    requires ListedFrom(nodes, ids, neighbors, rows)
    ensures ListTotal(nodes, 0) == |neighbors|
  {
    var keys := RowKeys(rows);
    forall k | 0 <= k < |nodes|
      ensures ListLength(nodes[k]) == Count(keys, ids, k)
    {
      ListLengthIs(nodes, ids, neighbors, keys, k);
    }
    ListTotalIs(nodes, ids, keys, 0);
    ListsPartitionChildren(keys, ids);
  }

  method JoinChildren(query: Query, nodes: seq<Entity>, fks: seq<int>, nodeids: map<int, Entity>, db: Database,
                      j: JsonCodec)
    returns (err: Option<LoadError>, ghost plan: Chain, ghost neighbors: seq<Entity>)
    requires query.Valid() && query.entity.CertDeployment?
    requires forall a, b :: 0 <= a < b < |nodes| ==> nodes[a] != nodes[b]
    requires |nodes| == |fks| && Indexed(nodes, fks, nodeids) && Listed(nodes, fks, [], [])
    modifies nodes`many, query`withFKs, query`predicates, query.along`sql
    ensures query.Valid() && query.withFKs && query.predicates == old(query.predicates) + [FkIn(fks)]
    ensures plan == AddPredicate(old(query.Plan()), FkIn(fks)) && FetchEnds(plan, j, db, err)
    ensures err.None? ==> FromPlan(j, plan, db, neighbors) && fresh(set n | n in neighbors)
    ensures err.None? ==> ListedFrom(nodes, fks, neighbors, NodeRows(plan, db))
    ensures err.None? ==> ListTotal(nodes, 0) == |neighbors|
  {
    var ns;
    ns, plan, err := AskForChildren(query, fks, db, j);
    neighbors := ns;
    if err.None? {
      FromPlanIs(j, plan, db, ns);
      err := AppendChildren(nodes, fks, nodeids, ns, RowKeys(NodeRows(plan, db)));
      ListsHoldAll(nodes, fks, neighbors, NodeRows(plan, db));
    }
  }

  // ---------------------------------------------------------------- many to one

  /** The map from key to the children that carry it. */
  ghost predicate Grouped(nodes: seq<Entity>, keys: seq<Option<int>>, ids: seq<int>, nodeids: map<int, seq<Entity>>)
    requires |nodes| == |keys|
  {
    && (forall k :: k in nodeids <==> k in ids)
    && (forall k :: k in nodeids ==> nodeids[k] == Pick(nodes, keys, k))
  }

  /** The first loop of loadCertificate: each distinct non-nil key once, in first-occurrence order. */
  method GroupChildren(nodes: seq<Entity>) returns (ids: seq<int>, nodeids: map<int, seq<Entity>>)
    ensures ids == FirstOccurrences(KeysOf(nodes)) && Grouped(nodes, KeysOf(nodes), ids, nodeids)
  {
    ids, nodeids := [], map[];
    ghost var keys := KeysOf(nodes);
    for i := 0 to |nodes|
      invariant ids == FirstOccurrences(keys[..i]) && Grouped(nodes[..i], keys[..i], ids, nodeids)
    {
      var fk := nodes[i].ForeignKey();
      GroupStep(nodes, keys, i, ids, nodeids);
      if fk.Some? {
        if fk.value !in nodeids {
          ids := ids + [fk.value];
        }
        nodeids := nodeids[fk.value := (if fk.value in nodeids then nodeids[fk.value] else []) + [nodes[i]]];
      }
    }
    assert nodes[..|nodes|] == nodes;
    assert keys[..|keys|] == keys;
  }

  /** One round of the loop. */
  lemma GroupStep(nodes: seq<Entity>, keys: seq<Option<int>>, i: nat, ids: seq<int>, nodeids: map<int, seq<Entity>>)
    requires i < |nodes| == |keys| && ids == FirstOccurrences(keys[..i]) && Grouped(nodes[..i], keys[..i], ids, nodeids)
    ensures var fk := keys[i];
            var ids' := FirstOccurrences(keys[..i + 1]);
            var nodeids' := if fk.None? then nodeids
                            else nodeids[fk.value := (if fk.value in nodeids then nodeids[fk.value] else [])
                                                     + [nodes[i]]];
            && Grouped(nodes[..i + 1], keys[..i + 1], ids', nodeids')
            && ids' == if fk.None? || fk.value in nodeids then ids else ids + [fk.value]
  {
    TakeNext(nodes, i);
    TakeNext(keys, i);
    GroupNext(nodes[..i], keys[..i], ids, nodeids, nodes[i], keys[i]);
  }

  lemma GroupNext(nodes: seq<Entity>, keys: seq<Option<int>>, ids: seq<int>, nodeids: map<int, seq<Entity>>,
                  n: Entity, fk: Option<int>)
    requires |nodes| == |keys| && ids == FirstOccurrences(keys) && Grouped(nodes, keys, ids, nodeids)
    ensures var ids' := FirstOccurrences(keys + [fk]);
            var nodeids' := if fk.None? then nodeids
                            else nodeids[fk.value := (if fk.value in nodeids then nodeids[fk.value] else []) + [n]];
            && Grouped(nodes + [n], keys + [fk], ids', nodeids')
            && ids' == if fk.None? || fk.value in nodeids then ids else ids + [fk.value]
  {
    OccurrencesNext(keys, fk);
    var nodes', keys' := nodes + [n], keys + [fk];
    var nodeids' := if fk.None? then nodeids
                    else nodeids[fk.value := (if fk.value in nodeids then nodeids[fk.value] else []) + [n]];
    forall k | k in nodeids'
      ensures nodeids'[k] == Pick(nodes', keys', k)
    {
      GroupAt(nodes, keys, ids, nodeids, n, fk, k);
    }
  }

  lemma GroupAt(nodes: seq<Entity>, keys: seq<Option<int>>, ids: seq<int>, nodeids: map<int, seq<Entity>>, n: Entity,
                fk: Option<int>,
                k: int)
    requires |nodes| == |keys| && ids == FirstOccurrences(keys) && Grouped(nodes, keys, ids, nodeids)
    requires k in nodeids || fk == Some(k)
    ensures Pick(nodes + [n], keys + [fk], k)
         == if fk != Some(k) then nodeids[k] else (if k in nodeids then nodeids[k] else []) + [n]
  {
    PickNext(nodes, keys, n, fk, k);
    if k !in nodeids {
      NewKeyPicksNothing(nodes, keys, k);
    }
  }

  lemma OccurrencesNext(keys: seq<Option<int>>, fk: Option<int>)
    ensures FirstOccurrences(keys + [fk]) ==
            var ids := FirstOccurrences(keys);
            if fk.None? || fk.value in ids then ids else ids + [fk.value]
  {
    assert (keys + [fk])[..|keys|] == keys;
  }

  lemma NewKeyPicksNothing(nodes: seq<Entity>, keys: seq<Option<int>>, k: int)
    requires |nodes| == |keys| && k !in FirstOccurrences(keys)
    ensures Pick(nodes, keys, k) == []
  {
    PickNothing(nodes, keys, k);
  }

  lemma {:induction false} PickNothing<T>(xs: seq<T>, keys: seq<Option<int>>, k: int)
    requires |xs| == |keys| && Some(k) !in keys
    ensures Pick(xs, keys, k) == []
  {
    if xs != [] {
      PickNothing(xs[1..], keys[1..], k);
    }
  }

  lemma {:induction false} PickMembers<T>(nodes: seq<T>, keys: seq<Option<int>>, k: int, x: T)
    requires |nodes| == |keys|
    ensures x in Pick(nodes, keys, k) <==> exists i :: 0 <= i < |nodes| && keys[i] == Some(k) && nodes[i] == x
  {
    if nodes != [] {
      PickMembers(nodes[1..], keys[1..], k, x);
      if x in Pick(nodes[1..], keys[1..], k) {
        var i :| 0 <= i < |nodes| - 1 && keys[1..][i] == Some(k) && nodes[1..][i] == x;
        assert keys[i + 1] == Some(k) && nodes[i + 1] == x;
      }
      if i :| 0 <= i < |nodes| && keys[i] == Some(k) && nodes[i] == x {
        if i > 0 {
          assert keys[1..][i - 1] == Some(k) && nodes[1..][i - 1] == x;
        }
      }
    }
  }

  /** What a child's edge is after the load: the parent its key names, if that came back. */
  ghost predicate JoinedTo(node: Entity, key: Option<int>, neighbors: seq<Entity>, ids: seq<int>, before: Entity?)
    requires |neighbors| == |ids|
    reads node`one
  {
    node.one == if key.Some? && key.value in ids
                then (LastWithIsLast(ids, key.value); neighbors[LastWith(ids, key.value).value])
                else before
  }

  /** After loadCertificate: every deployment with a key points at its certificate; the rest are untouched. */
  ghost predicate Joined(nodes: seq<Entity>, keys: seq<Option<int>>, neighbors: seq<Entity>, ids: seq<int>,
                         before: seq<Entity?>)
    requires |nodes| == |keys| == |before| && |neighbors| == |ids|
    reads nodes`one
  {
    forall i :: 0 <= i < |nodes| ==> JoinedTo(nodes[i], keys[i], neighbors, ids, before[i])
  }

  ghost function OnesOf(ns: seq<Entity>): (ones: seq<Entity?>)
    reads ns`one
    ensures |ones| == |ns| && forall i :: 0 <= i < |ns| ==> ones[i] == ns[i].one
  {
    if ns == [] then [] else [ns[0].one] + OnesOf(ns[1..])
  }

  /** The assign callback on every child of one group. */
  method AssignGroup(group: seq<Entity>, n: Entity, ghost nodes: seq<Entity>)
    requires forall i :: 0 <= i < |group| ==> group[i] in nodes
    modifies nodes`one
    ensures forall x :: x in nodes ==> x.one == if x in group then n else old(x.one)
  {
    for i := 0 to |group|
      invariant forall x :: x in nodes ==> x.one == if x in group[..i] then n else old(x.one)
    {
      TakeNext(group, i);
      group[i].one := n;
    }
    TakeAll(group);
  }

  method AssignParent(nodes: seq<Entity>, ghost keys: seq<Option<int>>, ghost ids: seq<int>,
                      nodeids: map<int, seq<Entity>>, ghost done: seq<Entity>, ghost doneIds: seq<int>, n: Entity,
                      ghost before: seq<Entity?>)
    requires |nodes| == |keys| == |before| && |done| == |doneIds| && Grouped(nodes, keys, ids, nodeids)
    requires HaveKeys(nodes, keys) && n.id in nodeids && Joined(nodes, keys, done, doneIds, before)
    modifies nodes`one
    ensures Joined(nodes, keys, done + [n], doneIds + [n.id], before)
  {
    var group := nodeids[n.id];
    forall x
      ensures x in group <==> exists i :: 0 <= i < |nodes| && keys[i] == Some(n.id) && nodes[i] == x
    {
      PickMembers(nodes, keys, n.id, x);
    }
    forall i | 0 <= i < |group|
      ensures group[i] in nodes
    {
      PickMembers(nodes, keys, n.id, group[i]);
    }
    AssignGroup(group, n, nodes);
    assert (doneIds + [n.id])[..|doneIds|] == doneIds;
    forall i | 0 <= i < |nodes|
      ensures JoinedTo(nodes[i], keys[i], done + [n], doneIds + [n.id], before[i])
    {
      assert old(JoinedTo(nodes[i], keys[i], done, doneIds, before[i]));
      if keys[i] == Some(n.id) {
        assert nodes[i] in group;
      } else {
        assert nodes[i] !in group;
        if keys[i].Some? && keys[i].value in doneIds {
          LastWithIsLast(doneIds, keys[i].value);
        }
      }
    }
  }

  /** One round of the loop. */
  method AssignNext(nodes: seq<Entity>, ghost keys: seq<Option<int>>, ghost ids: seq<int>,
                    nodeids: map<int, seq<Entity>>, neighbors: seq<Entity>, ghost parentIds: seq<int>, k: nat,
                    ghost before: seq<Entity?>)
    requires |nodes| == |keys| == |before| && Grouped(nodes, keys, ids, nodeids) && HaveKeys(nodes, keys)
    requires k < |neighbors| == |parentIds| && neighbors[k].id == parentIds[k] && neighbors[k].id in nodeids
    requires Joined(nodes, keys, neighbors[..k], parentIds[..k], before)
    modifies nodes`one
    ensures Joined(nodes, keys, neighbors[..k + 1], parentIds[..k + 1], before)
  {
    AssignParent(nodes, keys, ids, nodeids, neighbors[..k], parentIds[..k], neighbors[k], before);
    TakeNext(neighbors, k);
    TakeNext(parentIds, k);
  }

  /** The second loop of loadCertificate. */
  method AssignParents(nodes: seq<Entity>, ghost keys: seq<Option<int>>, ghost ids: seq<int>,
                       nodeids: map<int, seq<Entity>>, neighbors: seq<Entity>, ghost parentIds: seq<int>,
                       ghost before: seq<Entity?>)
    returns (err: Option<LoadError>)
    requires |nodes| == |keys| == |before| && Grouped(nodes, keys, ids, nodeids) && HaveKeys(nodes, keys)
    requires HaveIds(neighbors, parentIds)
    requires Joined(nodes, keys, [], [], before)
    modifies nodes`one
    ensures err.None? <==> AreAmong(parentIds, ids)
    ensures err.None? ==> Joined(nodes, keys, neighbors, parentIds, before)
  {
    for k := 0 to |neighbors|
      invariant HaveIds(neighbors, parentIds) && Joined(nodes, keys, neighbors[..k], parentIds[..k], before)
      invariant forall l :: 0 <= l < k ==> parentIds[l] in ids
    {
      if neighbors[k].id !in nodeids {
        assert parentIds[k] !in ids;
        return Some(UnexpectedKey);
      }
      AssignNext(nodes, keys, ids, nodeids, neighbors, parentIds, k, before);
    }
    TakeAll(neighbors);
    TakeAll(parentIds);
    err := None;
  }

  /** The rows that a child builder brings back for these keys; without any key nothing is asked. */
  function ParentRows(child: Chain, keys: seq<Option<int>>, db: Database): seq<Row> {
    var wanted := FirstOccurrences(keys);
    if wanted == [] then [] else NodeRows(AddPredicate(child, IdIn(wanted)), db)
  }

  /** What an eager load asks a child builder for these keys; without any key nothing is asked. */
  function ParentPlan(child: Chain, keys: seq<Option<int>>): Option<Chain> {
    var wanted := FirstOccurrences(keys);
    if wanted == [] then None else Some(AddPredicate(child, IdIn(wanted)))
  }

  /** These nodes show those rows. */
  ghost predicate FromParents(j: JsonCodec, child: Chain, keys: seq<Option<int>>, db: Database, parents: seq<Entity>)
    reads parents`id, parents`fields, parents`selected
  {
    AreShown(child.stage.entity, j, Times(child.stage.entity, child.stage.fields, true), ParentRows(child, keys, db),
             parents)
  }

  /** How an eager load ends: as its query does, if it makes one. */
  ghost predicate AskEnds(asked: Option<Chain>, j: JsonCodec, db: Database, err: Option<LoadError>) {
    if asked.None? then err.None? else FetchEnds(asked.value, j, db, err)
  }

  /** query.Where(IDIn ids); query.All */
  method AskForParents(query: Query, ids: seq<int>, ghost keys: seq<Option<int>>, db: Database, j: JsonCodec)
    returns (ns: seq<Entity>, err: Option<LoadError>)
    requires query.Valid() && query.entity.Certificate? && ids == FirstOccurrences(keys) != []
    modifies query`predicates, query.along`sql
    ensures query.Valid() && fresh(set n | n in ns)
    ensures query.predicates == old(query.predicates) + [IdIn(ids)]
    ensures FetchEnds(AddPredicate(old(query.Plan()), IdIn(ids)), j, db, err)
    ensures err.None? ==> FromParents(j, old(query.Plan()), keys, db, ns)
    ensures err.None? ==> HaveIds(ns, Ids(ParentRows(old(query.Plan()), keys, db)))
  {
    ghost var child := query.Plan();
    query.Where([IdIn(ids)]);
    assert query.Plan() == AddPredicate(child, IdIn(ids));
    ghost var plan;
    ns, plan, err := FetchNeighbors(query, db, j);
    if err.None? {
      ShownHaveIds(Certificate, j, Times(Certificate, child.stage.fields, true), ParentRows(child, keys, db), ns);
    }
  }

  ghost predicate AreAmong(xs: seq<int>, ids: seq<int>) {
    forall k :: 0 <= k < |xs| ==> xs[k] in ids
  }

  /** Only certificates that were asked for come back. */
  lemma ParentsAreKnown(child: Chain, keys: seq<Option<int>>, db: Database)
    ensures AreAmong(Ids(ParentRows(child, keys, db)), FirstOccurrences(keys))
  {
    var wanted := FirstOccurrences(keys);
    if wanted != [] {
      ParentIdsAreKnown(AddPredicate(child, IdIn(wanted)), db, wanted);
    }
  }

  lemma ParentIdsAreKnown(c: Chain, db: Database, ids: seq<int>)
    requires IdIn(ids) in c.stage.preds
    ensures forall k :: 0 <= k < |Ids(NodeRows(c, db))| ==> Ids(NodeRows(c, db))[k] in ids
  {
    var rows := NodeRows(c, db);
    forall k | 0 <= k < |Ids(rows)|
      ensures Ids(rows)[k] in ids
    {
      NodeRowsSatisfy(c, db, rows[k]);
      var i :| 0 <= i < |c.stage.preds| && c.stage.preds[i] == IdIn(ids);
      assert IdIn(ids)(rows[k]);
    }
  }

  /**
    loadCertificate. Each distinct key is asked for once, in first-occurrence order; without any key
    nothing is asked. The load ends as that query does, for the join cannot fail; and then every
    child whose key came back points at that one parent object, and all others are untouched.
   */
  method LoadCertificate(query: Query, nodes: seq<Entity>, db: Database, j: JsonCodec)
    returns (err: Option<LoadError>, ghost parents: seq<Entity>)
    requires query.Valid() && query.entity.Certificate?
    modifies nodes`one, query`predicates, query.along`sql
    ensures query.Valid()
    ensures var ids := FirstOccurrences(old(KeysOf(nodes)));
            query.predicates == old(query.predicates) + (if ids == [] then [] else [IdIn(ids)])
    ensures AskEnds(ParentPlan(old(query.Plan()), old(KeysOf(nodes))), j, db, err)
    ensures err.None? ==>
              && fresh(set n | n in parents)
              && AreJoined(j, old(query.Plan()), old(KeysOf(nodes)), old(OnesOf(nodes)), db, nodes, parents)
  {
    ghost var keys, before := KeysOf(nodes), OnesOf(nodes);
    NothingJoined(nodes);
    var ids, nodeids := GroupChildren(nodes);
    if |ids| == 0 {
      NothingAsked(j, query.Plan(), keys, db);
      NoneJoined(j, query.Plan(), keys, before, db, nodes);
      return None, [];
    }
    err, parents := JoinParents(query, nodes, ids, nodeids, keys, before, db, j);
  }

  /** These nodes show the parents that came back, and every child has its edge from before or its parent. */
  ghost predicate AreJoined(j: JsonCodec, child: Chain, keys: seq<Option<int>>, before: seq<Entity?>, db: Database,
                            nodes: seq<Entity>, parents: seq<Entity>)
    requires |nodes| == |keys| == |before|
    reads nodes`one, parents`id, parents`fields, parents`selected
  {
    FromParents(j, child, keys, db, parents) && Joined(nodes, keys, parents, Ids(ParentRows(child, keys, db)), before)
  }

  lemma NoneJoined(j: JsonCodec, child: Chain, keys: seq<Option<int>>, before: seq<Entity?>, db: Database,
                   nodes: seq<Entity>)
    requires |nodes| == |keys| == |before| && Joined(nodes, keys, [], [], before)
    requires FromParents(j, child, keys, db, []) && ParentRows(child, keys, db) == []
    ensures AreJoined(j, child, keys, before, db, nodes, [])
  {
    assert Ids(ParentRows(child, keys, db)) == [];
  }

  lemma NothingJoined(nodes: seq<Entity>)
    ensures HaveKeys(nodes, KeysOf(nodes)) && Joined(nodes, KeysOf(nodes), [], [], OnesOf(nodes))
  {
  }

  lemma NothingAsked(j: JsonCodec, child: Chain, keys: seq<Option<int>>, db: Database)
    requires FirstOccurrences(keys) == []
    ensures FromParents(j, child, keys, db, []) && ParentRows(child, keys, db) == [] && ParentPlan(child, keys).None?
  {
  }

  method JoinParents(query: Query, nodes: seq<Entity>, ids: seq<int>, nodeids: map<int, seq<Entity>>,
                     ghost keys: seq<Option<int>>, ghost before: seq<Entity?>, db: Database, j: JsonCodec)
    returns (err: Option<LoadError>, ghost parents: seq<Entity>)
    requires query.Valid() && query.entity.Certificate? && ids == FirstOccurrences(keys) != []
    requires |nodes| == |keys| == |before| && Grouped(nodes, keys, ids, nodeids) && HaveKeys(nodes, keys)
    requires Joined(nodes, keys, [], [], before)
    modifies nodes`one, query`predicates, query.along`sql
    ensures query.Valid() && query.predicates == old(query.predicates) + [IdIn(ids)]
    ensures AskEnds(ParentPlan(old(query.Plan()), keys), j, db, err)
    ensures err.None? ==> fresh(set n | n in parents)
    ensures err.None? ==> AreJoined(j, old(query.Plan()), keys, before, db, nodes, parents)
  {
    ghost var child := query.Plan();
    ghost var parentIds := Ids(ParentRows(child, keys, db));
    ParentsAreKnown(child, keys, db);
    var ns;
    ns, err := AskForParents(query, ids, keys, db, j);
    parents := ns;
    if err.None? {
      err := AssignParents(nodes, keys, ids, nodeids, ns, parentIds, before);
    }
  }

  // ---------------------------------------------------------------- sqlAll with an eager edge, and the edge accessors

  /** CertDeploymentEdges.CertificateOrErr */
  function CertificateOrErr(e: Entity): Result<Entity, Error>
    reads e
  {
    if e.one != null then Ok(e.one) else if e.loaded then Err(NotFound) else Err(NotLoaded)
  }

  /** CertificateEdges.DeploymentsOrErr; a nil slice is an empty list. */
  function DeploymentsOrErr(e: Entity): Result<seq<Entity>, Error>
    reads e
  {
    if e.loaded then Ok(if e.many.Some? then e.many.value else []) else Err(NotLoaded)
  }

  /** A builder whose eager-load builder, if it has one, is an object of its own for this entity. */
  ghost predicate EagerReady(q: Query, from: EntityType, to: EntityType)
    reads q, q.along, if q.withEdge != null then q.withEdge.along else {}
  {
    && q.Valid() && q.entity == from
    && (q.withEdge != null ==>
          q.withEdge.Valid() && q.withEdge.entity == to && q.withEdge.path.NoPath? && q.withEdge !in q.along)
  }

  /**
    What the accessor has to say after loading: "not loaded" iff no eager load was requested, "not
    found" iff one was and the key is nil or its certificate did not come back, and otherwise the
    one object of the certificate with that key, which all deployments with the key share.
   */
  ghost predicate VerdictIsFaithful(node: Entity, requested: bool, key: Option<int>, parents: seq<Entity>,
                                    parentIds: seq<int>)
    requires |parents| == |parentIds|
    reads node
  {
    CertificateOrErr(node) ==
    if !requested then Err(NotLoaded)
    else if key.Some? && key.value in parentIds then
      LastWithIsLast(parentIds, key.value);
      Ok(parents[LastWith(parentIds, key.value).value])
    else Err(NotFound)
  }

  ghost predicate AreFaithful(nodes: seq<Entity>, requested: bool, keys: seq<Option<int>>, parents: seq<Entity>,
                              parentIds: seq<int>)
    reads nodes
  {
    && |nodes| == |keys| && |parents| == |parentIds|
    && forall i :: 0 <= i < |nodes| ==> VerdictIsFaithful(nodes[i], requested, keys[i], parents, parentIds)
  }

  /** Nodes as sqlAll has them before the eager load. */
  ghost predicate AreBare(ns: seq<Entity>, edge: bool)
    reads ns
  {
    && (forall i :: 0 <= i < |ns| ==> ns[i].one == null && ns[i].many == None && ns[i].loaded == edge)
    && (forall a, b :: 0 <= a < b < |ns| ==> ns[a] != ns[b])
  }

  method FetchBare(q: Query, db: Database, j: JsonCodec)
    returns (nodes: seq<Entity>, err: Option<LoadError>, ghost rows: seq<Row>)
    requires q.Valid()
    modifies q.along`sql
    ensures q.Valid() && rows == NodeRows(old(q.Plan()), db) && forall i :: 0 <= i < |nodes| ==> fresh(nodes[i])
    ensures FetchEnds(old(q.Plan()), j, db, err)
    ensures err.None? ==> AreBare(nodes, q.withEdge != null)
    ensures err.None? ==> AreShown(q.entity, j, old(LoadTimes(q)), rows, nodes)
  {
    rows := NodeRows(q.Plan(), db);
    nodes, err := FetchNodes(q, db, j);
    if err.None? {
      LoadedShow(q.entity, j, LoadTimes(q), rows, q.withEdge != null, nodes);
    }
  }

  /** The same of a builder with an eager-load builder, which it does not touch. */
  method FetchRoot(q: Query, to: EntityType, db: Database, j: JsonCodec)
    returns (nodes: seq<Entity>, err: Option<LoadError>, ghost rows: seq<Row>)
    requires EagerReady(q, q.entity, to)
    modifies q.along`sql
    ensures q.withEdge != null ==>
              q.withEdge.Valid() && q.withEdge.along == {q.withEdge} && q.withEdge.Plan() == old(q.withEdge.Plan())
    ensures rows == NodeRows(old(q.Plan()), db) && forall i :: 0 <= i < |nodes| ==> fresh(nodes[i])
    ensures FetchEnds(old(q.Plan()), j, db, err)
    ensures err.None? ==> AreBare(nodes, q.withEdge != null)
    ensures err.None? ==> AreShown(q.entity, j, old(LoadTimes(q)), rows, nodes)
  {
    nodes, err, rows := FetchBare(q, db, j);
  }

  /** The eager-load builder's plan, if there is one. */
  ghost function ChildPlan(q: Query): Option<Chain>
    requires EagerReady(q, CertDeployment, Certificate)
    reads q, q.along, if q.withEdge != null then q.withEdge.along else {}
  {
    if q.withEdge == null then None else Some(q.withEdge.Plan())
  }

  /** The certificates that an eager load brings back for these deployments, if one is requested. */
  function EdgeRows(child: Option<Chain>, rows: seq<Row>, db: Database): seq<Row> {
    if child.None? then [] else ParentRows(child.value, RowKeys(rows), db)
  }

  /** What the eager load of these deployments asks for, if one is requested. */
  function EdgePlan(child: Option<Chain>, rows: seq<Row>): Option<Chain> {
    if child.None? then None else ParentPlan(child.value, RowKeys(rows))
  }

  /** How sqlAll ends: as its own query does, and if that ends well as that of its eager load. */
  ghost predicate LoadEnds(plan: Chain, asked: Option<Chain>, j: JsonCodec, db: Database, err: Option<LoadError>) {
    if Succeeds(plan, j, db) then AskEnds(asked, j, db, err) else FetchEnds(plan, j, db, err)
  }

  /** It ends well exactly if no field is invalid and every row, and every row of the eager load, can be decoded. */
  lemma LoadSucceedsIff(plan: Chain, asked: Option<Chain>, j: JsonCodec, db: Database, err: Option<LoadError>)
    requires LoadEnds(plan, asked, j, db, err)
    ensures err.None? <==> Succeeds(plan, j, db) && (asked.Some? ==> Succeeds(asked.value, j, db))
  {
    if !Succeeds(plan, j, db) {
      EndsWellIff(plan, j, db, err);
    } else if asked.Some? {
      EndsWellIff(asked.value, j, db, err);
    }
  }

  /**
    What sqlAll makes of the rows of a plan: nodes that show them in their order, whose accessors
    tell the truth about the certificates that came back; or the error that stopped it.
   */
  ghost predicate Loads(plan: Chain, child: Option<Chain>, j: JsonCodec, keys: bool, db: Database,
                        rows: seq<Row>, nodes: seq<Entity>, err: Option<LoadError>, parents: seq<Entity>)
    reads nodes, parents`id, parents`fields, parents`selected
  {
    && LoadEnds(plan, EdgePlan(child, rows), j, db, err)
    && (err.None? ==>
          && AreShown(CertDeployment, j, Times(CertDeployment, plan.stage.fields, keys), rows, nodes)
          && (child.Some? ==> FromParents(j, child.value, RowKeys(rows), db, parents))
          && AreFaithful(nodes, child.Some?, RowKeys(rows), parents, Ids(EdgeRows(child, rows, db))))
  }

  /** Whether sqlAll asks for the foreign keys. */
  function AsksKeys(q: Query): bool
    reads q`withFKs, q`withEdge
  {
    q.withFKs || q.withEdge != null
  }

  method AllDeployments(q: Query, db: Database, j: JsonCodec)
    returns (nodes: seq<Entity>, err: Option<LoadError>, ghost rows: seq<Row>, ghost parents: seq<Entity>)
    requires EagerReady(q, CertDeployment, Certificate)
    modifies q.along`sql, if q.withEdge != null then {q.withEdge} else {}
    ensures rows == NodeRows(old(q.Plan()), db)
    ensures Loads(old(q.Plan()), old(ChildPlan(q)), j, old(AsksKeys(q)), db, rows, nodes, err, parents)
  {
    parents := [];
    ghost var plan, child, keys := q.Plan(), ChildPlan(q), AsksKeys(q);
    nodes, err, rows := FetchRoot(q, Certificate, db, j);
    EndsWellIff(plan, j, db, err);
    if err.None? {
      err, parents := FillEdge(q.withEdge, nodes, plan, keys, rows, db, j);
    }
  }

  /** All, after a limit: an earlier one is forgotten. */
  method LimitedDeployments(q: Query, n: nat, db: Database, j: JsonCodec)
    returns (nodes: seq<Entity>, err: Option<LoadError>, ghost rows: seq<Row>, ghost parents: seq<Entity>)
    requires n > 0 && EagerReady(q, CertDeployment, Certificate)
    modifies q`limit, q.along`sql, if q.withEdge != null then {q.withEdge} else {}
    ensures rows == Take(Remaining(old(q.Plan()), db), n)
    ensures Loads(WithLimit(old(q.Plan()), n), old(ChildPlan(q)), j, old(AsksKeys(q)), db, rows, nodes, err, parents)
  {
    ghost var plan, child, keys := q.Plan(), ChildPlan(q), AsksKeys(q);
    q.Limit(n);
    assert q.Plan() == WithLimit(plan, n);
    assert ChildPlan(q) == child && AsksKeys(q) == keys;
    LimitedRows(plan, db, n);
    nodes, err, rows, parents := AllDeployments(q, db, j);
  }

  /**
    One deployment that shows its row, with its certificate; or an error: that of loading the rows
    within the limit, if that does not end well, and otherwise what their number says.
   */
  ghost predicate LoadsOne(plan: Chain, child: Option<Chain>, j: JsonCodec, keys: bool, db: Database,
                           rows: seq<Row>, found: Result<Row, Error>, node: Entity?, err: Option<LoadError>,
                           parents: seq<Entity>)
    reads if node == null then {} else {node}, parents`id, parents`fields, parents`selected
  {
    && (node == null <==> err.Some?)
    && (if !LoadsWell(plan, EdgePlan(child, rows), j, db) then LoadEnds(plan, EdgePlan(child, rows), j, db, err)
        else err == match found case Ok(_) => None case Err(e) => Some(QueryFailed(e)))
    && (err.None? ==>
          && found.Ok?
          && Shows(CertDeployment, j, Times(CertDeployment, plan.stage.fields, keys), found.value, node)
          && AnswersFor(child, j, db, found.value, rows, node, parents))
  }

  ghost predicate LoadsWell(plan: Chain, asked: Option<Chain>, j: JsonCodec, db: Database) {
    Succeeds(plan, j, db) && (asked.Some? ==> Succeeds(asked.value, j, db))
  }

  /** The certificates were asked for with these rows, and the node's accessor tells the truth about them. */
  ghost predicate AnswersFor(child: Option<Chain>, j: JsonCodec, db: Database, row: Row, rows: seq<Row>, node: Entity,
                             parents: seq<Entity>)
    reads node, parents`id, parents`fields, parents`selected
  {
    && row in rows && (child.Some? ==> FromParents(j, child.value, RowKeys(rows), db, parents))
    && |parents| == |EdgeRows(child, rows, db)|
    && VerdictIsFaithful(node, child.Some?, ForeignKey(row), parents, Ids(EdgeRows(child, rows, db)))
  }

  lemma FirstIsLoaded(plan: Chain, child: Option<Chain>, j: JsonCodec, keys: bool, db: Database, rows: seq<Row>,
                      nodes: seq<Entity>, parents: seq<Entity>)
    requires Loads(plan, child, j, keys, db, rows, nodes, None, parents) && nodes != []
    ensures |rows| == |nodes| && LoadsOne(plan, child, j, keys, db, rows, Ok(rows[0]), nodes[0], None, parents)
  {
    LoadSucceedsIff(plan, EdgePlan(child, rows), j, db, None);
    assert Shows(CertDeployment, j, Times(CertDeployment, plan.stage.fields, keys), rows[0], nodes[0]);
    assert VerdictIsFaithful(nodes[0], child.Some?, RowKeys(rows)[0], parents, Ids(EdgeRows(child, rows, db)));
    assert rows[0] in rows;
  }

  lemma NoneIsLoaded(plan: Chain, child: Option<Chain>, j: JsonCodec, keys: bool, db: Database, rows: seq<Row>,
                     nodes: seq<Entity>, err: Option<LoadError>, parents: seq<Entity>, e: Error)
    requires Loads(plan, child, j, keys, db, rows, nodes, err, parents)
    ensures err.Some? ==> forall found :: LoadsOne(plan, child, j, keys, db, rows, found, null, err, parents)
    ensures err.None? ==>
              LoadsOne(plan, child, j, keys, db, rows, Err(e), null, Some(QueryFailed(e)), parents)
  {
    LoadSucceedsIff(plan, EdgePlan(child, rows), j, db, err);
  }

  /**
    Only. It returns a deployment only if exactly one remains after predicates, duplicate removal and
    offset, whatever limit was set before; this is that row, with its edge filled in. The first two
    rows that remain, and the certificates they name, have to be decodable; then the error says
    which of these was not so.
   */
  method OnlyDeployment(q: Query, db: Database, j: JsonCodec)
    returns (node: Entity?, err: Option<LoadError>, ghost parents: seq<Entity>)
    requires EagerReady(q, CertDeployment, Certificate)
    modifies q`limit, q.along`sql, if q.withEdge != null then {q.withEdge} else {}
    ensures var remaining := Remaining(old(q.Plan()), db);
            LoadsOne(WithLimit(old(q.Plan()), 2), old(ChildPlan(q)), j, old(AsksKeys(q)), db, Take(remaining, 2),
                     OnlyOf(remaining), node, err, parents)
  {
    var nodes;
    ghost var rows;
    ghost var plan, child, keys := WithLimit(q.Plan(), 2), ChildPlan(q), AsksKeys(q);
    nodes, err, rows, parents := LimitedDeployments(q, 2, db, j);
    node := null;
    NoneIsLoaded(plan, child, j, keys, db, rows, nodes, err, parents, if |nodes| == 0 then NotFound else NotSingular);
    if err.Some? {
      return;
    }
    assert |nodes| == |rows| && OnlyOf(Remaining(old(q.Plan()), db)) == OnlyOf(rows);
    match |nodes| {
      case 1 =>
        node := nodes[0];
        FirstIsLoaded(plan, child, j, keys, db, rows, nodes, parents);
      case 0 => err := Some(QueryFailed(NotFound));
      case _ => err := Some(QueryFailed(NotSingular));
    }
  }

  /** First: the first deployment that remains, whatever limit was set before, with its edge. */
  method FirstDeployment(q: Query, db: Database, j: JsonCodec)
    returns (node: Entity?, err: Option<LoadError>, ghost parents: seq<Entity>)
    requires EagerReady(q, CertDeployment, Certificate)
    modifies q`limit, q.along`sql, if q.withEdge != null then {q.withEdge} else {}
    ensures var remaining := Remaining(old(q.Plan()), db);
            LoadsOne(WithLimit(old(q.Plan()), 1), old(ChildPlan(q)), j, old(AsksKeys(q)), db, Take(remaining, 1),
                     if remaining == [] then Err(NotFound) else Ok(remaining[0]), node, err, parents)
  {
    var nodes;
    ghost var rows;
    ghost var plan, child, keys := WithLimit(q.Plan(), 1), ChildPlan(q), AsksKeys(q);
    nodes, err, rows, parents := LimitedDeployments(q, 1, db, j);
    node := null;
    NoneIsLoaded(plan, child, j, keys, db, rows, nodes, err, parents, NotFound);
    if err.Some? {
      return;
    }
    if |nodes| == 0 {
      err := Some(QueryFailed(NotFound));
      return;
    }
    node := nodes[0];
    FirstIsLoaded(plan, child, j, keys, db, rows, nodes, parents);
  }

  /** The eager part of sqlAll, if there are nodes and an eager load was requested. */
  method FillEdge(child: Query?, nodes: seq<Entity>, ghost plan: Chain, ghost keys: bool, ghost rows: seq<Row>,
                  db: Database, j: JsonCodec)
    returns (err: Option<LoadError>, ghost parents: seq<Entity>)
    requires AreShown(CertDeployment, j, Times(CertDeployment, plan.stage.fields, keys), rows, nodes)
    requires AreBare(nodes, child != null) && Succeeds(plan, j, db) && (child != null ==> keys)
    requires child != null ==> child.Valid() && child.entity.Certificate? && child.along == {child}
    modifies nodes`one, if child != null then {child} else {}
    ensures var edge := if child == null then None else Some(old(child.Plan()));
            Loads(plan, edge, j, keys, db, rows, nodes, err, parents)
  {
    err, parents := None, [];
    if |nodes| > 0 && child != null {
      ghost var edge := child.Plan();
      ShownHaveKeys(j, Times(CertDeployment, plan.stage.fields, keys), rows, nodes);
      err, parents := FillCertificates(child, nodes, RowKeys(rows), db, j);
      FilledLoads(plan, edge, j, keys, db, rows, nodes, err, parents);
    } else {
      NothingToFill(plan, if child == null then None else Some(child.Plan()), j, keys, db, rows, nodes);
    }
  }

  lemma FilledLoads(plan: Chain, child: Chain, j: JsonCodec, keys: bool, db: Database, rows: seq<Row>,
                    nodes: seq<Entity>, err: Option<LoadError>, parents: seq<Entity>)
    requires AreShown(CertDeployment, j, Times(CertDeployment, plan.stage.fields, keys), rows, nodes)
    requires Succeeds(plan, j, db) && AskEnds(ParentPlan(child, RowKeys(rows)), j, db, err)
    requires err.None? ==> FromParents(j, child, RowKeys(rows), db, parents)
    requires err.None? ==>
               AreFaithful(nodes, true, RowKeys(rows), parents, Ids(ParentRows(child, RowKeys(rows), db)))
    ensures Loads(plan, Some(child), j, keys, db, rows, nodes, err, parents)
  {
  }

  lemma NothingToFill(plan: Chain, child: Option<Chain>, j: JsonCodec, keys: bool, db: Database, rows: seq<Row>,
                      nodes: seq<Entity>)
    requires AreShown(CertDeployment, j, Times(CertDeployment, plan.stage.fields, keys), rows, nodes)
    requires AreBare(nodes, child.Some?) && Succeeds(plan, j, db) && (nodes == [] || child.None?)
    ensures Loads(plan, child, j, keys, db, rows, nodes, None, [])
  {
    BareIsFaithful(nodes, child.Some?, RowKeys(rows));
    if child.Some? {
      assert RowKeys(rows) == [];
      NothingAsked(j, child.value, RowKeys(rows), db);
    }
  }

  /** Without an eager load every edge is reported as not loaded. */
  lemma BareIsFaithful(nodes: seq<Entity>, edge: bool, keys: seq<Option<int>>)
    requires AreBare(nodes, edge) && |nodes| == |keys| && (edge ==> nodes == [])
    ensures AreFaithful(nodes, edge, keys, [], [])
  {
  }

  /** The eager part of sqlAll on freshly loaded deployments. */
  method FillCertificates(child: Query, nodes: seq<Entity>, ghost keys: seq<Option<int>>, db: Database, j: JsonCodec)
    returns (err: Option<LoadError>, ghost parents: seq<Entity>)
    requires child.Valid() && child.entity.Certificate? && child.along == {child} && HaveKeys(nodes, keys)
    requires AreBare(nodes, true)
    modifies nodes`one, child
    ensures AskEnds(ParentPlan(old(child.Plan()), keys), j, db, err)
    ensures err.None? ==> FromParents(j, old(child.Plan()), keys, db, parents)
    ensures err.None? ==> AreFaithful(nodes, true, keys, parents, Ids(ParentRows(old(child.Plan()), keys, db)))
  {
    KeysOfAre(nodes, keys);
    err, parents := LoadCertificate(child, nodes, db, j);
    if err.None? {
      JoinGivesVerdicts(nodes, keys, parents, Ids(ParentRows(old(child.Plan()), keys, db)), old(OnesOf(nodes)));
    }
  }

  lemma JoinGivesVerdicts(nodes: seq<Entity>, keys: seq<Option<int>>, parents: seq<Entity>, parentIds: seq<int>,
                          before: seq<Entity?>)
    requires |nodes| == |keys| == |before| && |parents| == |parentIds|
    requires Joined(nodes, keys, parents, parentIds, before)
    requires forall i :: 0 <= i < |nodes| ==> before[i] == null && nodes[i].loaded
    ensures AreFaithful(nodes, true, keys, parents, parentIds)
  {
    forall i | 0 <= i < |nodes|
      ensures VerdictIsFaithful(nodes[i], true, keys[i], parents, parentIds)
    {
      assert JoinedTo(nodes[i], keys[i], parents, parentIds, null);
      if keys[i].Some? {
        LastWithIsLast(parentIds, keys[i].value);
      }
    }
  }

  lemma KeysOfAre(ns: seq<Entity>, keys: seq<Option<int>>)
    requires HaveKeys(ns, keys)
    ensures KeysOf(ns) == keys
  {
  }

  method AllCertificates(q: Query, db: Database, j: JsonCodec)
    returns (nodes: seq<Entity>, err: Option<LoadError>, ghost rows: seq<Row>, ghost neighbors: seq<Entity>,
             ghost children: seq<Row>)
    requires EagerReady(q, Certificate, CertDeployment)
    modifies q.along`sql, if q.withEdge != null then {q.withEdge} else {}
    ensures rows == NodeRows(old(q.Plan()), db)
    ensures LoadEnds(old(q.Plan()), old(ListPlan(q, db)), j, db, err)
    ensures err.None? ==> AreShown(Certificate, j, old(LoadTimes(q)), rows, nodes)
    ensures err.None? && q.withEdge == null ==>
              forall i :: 0 <= i < |nodes| ==> DeploymentsOrErr(nodes[i]) == Err(NotLoaded)
    ensures err.None? && old(ListPlan(q, db)).Some? ==>
              var plan := old(ListPlan(q, db)).value;
              && children == NodeRows(plan, db) && FromPlan(j, plan, db, neighbors)
              && ListsAreFaithful(nodes, Ids(rows), neighbors, children)
  {
    neighbors, children := [], [];
    ghost var plan := q.Plan();
    nodes, err, rows := FetchRoot(q, CertDeployment, db, j);
    EndsWellIff(plan, j, db, err);
    if err.None? && |nodes| > 0 && q.withEdge != null {
      ShownHaveIds(Certificate, j, old(LoadTimes(q)), rows, nodes);
      err, neighbors, children := FillDeployments(q.withEdge, nodes, Ids(rows), db, j);
    }
  }

  /** What the eager load of a builder's certificates asks for, if one is requested and there are any. */
  ghost function ListPlan(q: Query, db: Database): Option<Chain>
    requires EagerReady(q, Certificate, CertDeployment)
    reads q, q.along, if q.withEdge != null then q.withEdge.along else {}
  {
    if q.withEdge == null || NodeRows(q.Plan(), db) == [] then None
    else Some(AddPredicate(q.withEdge.Plan(), FkIn(Ids(NodeRows(q.Plan(), db)))))
  }

  /** Every accessor returns the nested-loop join with the rows that came back. */
  ghost predicate ListsAreFaithful(nodes: seq<Entity>, ids: seq<int>, neighbors: seq<Entity>, children: seq<Row>)
    reads nodes, neighbors
  {
    && |nodes| == |ids| && HaveIds(neighbors, Ids(children)) && AllKnown(RowKeys(children), ids)
    && forall i :: 0 <= i < |nodes| ==>
         DeploymentsOrErr(nodes[i]) == Ok(if IsLast(ids, i) then Pick(neighbors, RowKeys(children), ids[i]) else [])
  }

  /** The eager part of sqlAll on freshly loaded certificates. */
  method FillDeployments(child: Query, nodes: seq<Entity>, ghost ids: seq<int>, db: Database, j: JsonCodec)
    returns (err: Option<LoadError>, ghost neighbors: seq<Entity>, ghost children: seq<Row>)
    requires child.Valid() && child.entity.CertDeployment? && child.along == {child} && HaveIds(nodes, ids)
    requires AreBare(nodes, true)
    modifies nodes`many, child
    ensures FetchEnds(AddPredicate(old(child.Plan()), FkIn(ids)), j, db, err)
    ensures children == NodeRows(AddPredicate(old(child.Plan()), FkIn(ids)), db)
    ensures err.None? ==> FromPlan(j, AddPredicate(old(child.Plan()), FkIn(ids)), db, neighbors)
    ensures err.None? ==> ListsAreFaithful(nodes, ids, neighbors, children)
  {
    IdsOfAre(nodes, ids);
    ghost var plan;
    err, plan, neighbors := LoadDeployments(child, nodes, db, j);
    children := NodeRows(plan, db);
    if err.None? {
      FromPlanIs(j, plan, db, neighbors);
    }
  }

  lemma IdsOfAre(ns: seq<Entity>, ids: seq<int>)
    requires HaveIds(ns, ids)
    ensures IdsOf(ns) == ids
  {
  }
}
