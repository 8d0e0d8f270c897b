/**
  What was set is what is stored: the row of a save, read back, has every field of the mutation it
  was made from, and a builder without hooks stores what its caller set, and the defaults.
 */
module SavedRows {
  import opened Relational
  import opened RowCodec
  import opened ChangeOrderFields
  import opened MutatorChain
  import opened HookNesting
  import opened NodeDelivery
  import opened DoneMutations
  import opened BulkSaveTheorems
  import opened BulkCreate

  /** Whatever the setters of the create builder can set is copied. */
  lemma SettableKeepsAll(f: Fields)
    requires TypedFields(ChangeOrder, f)
    ensures Settable(f) == f
  {
    forall c | c in f
      ensures IsCreateField(c)
    {
      assert Typed(KindOf(ChangeOrder, c), f[c]);
    }
  }

  /** The row holds every one of these fields, and reading it by the table's columns gives them back, and no other. */
  ghost predicate ReadsBack(j: JsonCodec, row: Row, f: Fields) {
    var cols := Columns(ChangeOrder);
    && (forall c :: c in f ==> Cell(row, c) == Encode(j, f[c]))
    && AssignFrom(ChangeOrder, j, ZERO, cols, Scanned(ChangeOrder, cols, row), 0)
       == (EntityValue(row.id, f, map[]), None)
  }

  lemma StoredReadsBack(j: JsonCodec, id: int, f: Fields)
    requires Faithful(j) && TypedFields(ChangeOrder, f)
    ensures ReadsBack(j, Stored(j, id, Settable(f)), f)
  {
    var cols := Columns(ChangeOrder);
    SettableKeepsAll(f);
    forall c | c in f
      ensures c in cols && c != Id
    {
      assert Typed(KindOf(ChangeOrder, c), f[c]);
      KnownColumns(ChangeOrder, c);
    }
    forall c | c in cols
      ensures KindOf(ChangeOrder, c) != UnknownKind
    {
      KnownColumns(ChangeOrder, c);
    }
    ColumnsStartWithId(ChangeOrder);
    ReadBackIsIdentity(ChangeOrder, j, f, id, cols);
  }

  /** The fields with which position n is admitted. */
  function AdmittedFields(b: Bulk, fs: seq<Fields>, n: nat): Fields
    requires n < |b.hooks| == |fs| && Admitted(b, fs, n)
  {
    Admit(b.hooks[n], 0, fs[n]).value
  }

  /** After a success every position was admitted, and the rows added are those of the admitted fields. */
  lemma SuccessAddsRows(b: Bulk, s: State, n: nat)
    requires ValidBulk(b) && ValidState(b, s) && NodesApart(s) && AllPassThrough(b) && n < |b.hooks|
    requires RunChain(b, s).0.Done?
    ensures var fs, s' := EnteringFields(b, s), RunChain(b, s).1;
            && Admitted(b, fs, n) && |s'.rows| == |s.rows| + |b.hooks|
            && var row := s'.rows[|s.rows| + n];
               row == Stored(b.json, row.id, Settable(AdmittedFields(b, fs, n)))
    ensures var s' := RunChain(b, s).1;
            s'.nodes[n].Some? && s'.made[s'.nodes[n].value].fields
                                 == Settable(AdmittedFields(b, EnteringFields(b, s), n))
  {
    var fs, s' := EnteringFields(b, s), RunChain(b, s).1;
    var admitted := BulkSaveExactly(b, s);
    var specs := AdmittedSpecs(b, fs, 0, |fs|);
    var ids := Insert(b, s, specs).value;
    assert s'.rows == s.rows + Inserted(b.json, ids, specs);
    assert s'.rows[|s.rows| + n] == Inserted(b.json, ids, specs)[n];
    assert specs[n] == Settable(AdmittedFields(b, fs, n));
    ReturnedEntities(b, s, n);
  }

  /** Reading back the row of a successful save gives the fields with which its position was admitted. */
  lemma SavedRowReadsBack(b: Bulk, s: State, n: nat)
    requires ValidBulk(b) && ValidState(b, s) && NodesApart(s) && AllPassThrough(b) && n < |b.hooks|
    requires RunChain(b, s).0.Done? && Faithful(b.json)
    ensures var fs, rows := EnteringFields(b, s), RunChain(b, s).1.rows;
            && Admitted(b, fs, n) && |rows| == |s.rows| + |b.hooks|
            && (TypedFields(ChangeOrder, AdmittedFields(b, fs, n)) ==>
                  ReadsBack(b.json, rows[|s.rows| + n], AdmittedFields(b, fs, n)))
  {
    SuccessAddsRows(b, s, n);
    var f := AdmittedFields(b, EnteringFields(b, s), n);
    if TypedFields(ChangeOrder, f) {
      StoredReadsBack(b.json, RunChain(b, s).1.rows[|s.rows| + n].id, f);
    }
  }

  // ---------------------------------------------------------------- on the builder objects

  lemma DefaultsAreTyped(f: Fields, now: Clock)
    requires TypedFields(ChangeOrder, f)
    ensures TypedFields(ChangeOrder, Defaults(f, now))
  {
    DefaultsFillIn(f, now);
  }

  /** In a bulk whose positions share no mutation, each enters the chain with its own fields and defaults. */
  lemma OwnDefaults(b: Bulk, s: State, clocks: seq<Clock>, n: nat)
    requires ValidBulk(b) && ValidState(b, s) && Separate(b, s) && n < |b.hooks| == |clocks|
    ensures var s' := DefaultAll(b, s, clocks, 0);
            Separate(b, s') && EnteringFields(b, s')[n] == Defaults(OwnFields(b, s)[n], clocks[n])
  {
    var s', m := DefaultAll(b, s, clocks, 0), Own(b, s, n);
    SameOwn(b, s, s');
    SeparateEnterWithOwn(b, s');
    DefaultsReachEveryBuilder(b, s, clocks, 0, m);
    FirstIsOwn(b, s, n);
  }

  lemma FirstIsOwn(b: Bulk, s: State, n: nat)
    requires ValidBulk(b) && ValidState(b, s) && Separate(b, s) && n < |b.hooks|
    ensures FirstWith(b, s, 0, Own(b, s, n)) == n
  {
    assert forall l :: 0 <= l < n ==> Own(b, s, l) != Own(b, s, n);
  }

  /** What an unhooked position stores and returns: its own fields, and the defaults. */
  lemma SavedAsSet(b: Bulk, s: State, clocks: seq<Clock>, n: nat)
    requires ValidBulk(b) && ValidState(b, s) && NodesApart(s) && Separate(b, s) && n < |b.hooks| == |clocks|
    requires (forall i :: 0 <= i < |b.hooks| ==> b.hooks[i] == []) && Faithful(b.json)
    requires TypedFields(ChangeOrder, OwnFields(b, s)[n]) && RunChain(b, DefaultAll(b, s, clocks, 0)).0.Done?
    ensures var f, s' := Defaults(OwnFields(b, s)[n], clocks[n]), RunChain(b, DefaultAll(b, s, clocks, 0)).1;
            && |s'.rows| == |s.rows| + |b.hooks| && ReadsBack(b.json, s'.rows[|s.rows| + n], f)
            && s'.nodes[n].Some? && s'.made[s'.nodes[n].value].fields == f
  {
    OwnDefaults(b, s, clocks, n);
    DefaultsAreTyped(OwnFields(b, s)[n], clocks[n]);
    SavedAsEntered(b, DefaultAll(b, s, clocks, 0), n, Defaults(OwnFields(b, s)[n], clocks[n]));
  }

  lemma SavedAsEntered(b: Bulk, s: State, n: nat, f: Fields)
    requires ValidBulk(b) && ValidState(b, s) && NodesApart(s) && n < |b.hooks|
    requires (forall i :: 0 <= i < |b.hooks| ==> b.hooks[i] == []) && Faithful(b.json)
    requires TypedFields(ChangeOrder, f) && EnteringFields(b, s)[n] == f && RunChain(b, s).0.Done?
    ensures var s' := RunChain(b, s).1;
            && |s'.rows| == |s.rows| + |b.hooks| && ReadsBack(b.json, s'.rows[|s.rows| + n], f)
            && s'.nodes[n].Some? && s'.made[s'.nodes[n].value].fields == f
  {
    SavedRowReadsBack(b, s, n);
    SuccessAddsRows(b, s, n);
    UnhookedIsAdmitted(b, EnteringFields(b, s), n);
    SettableKeepsAll(f);
  }

  lemma UnhookedIsAdmitted(b: Bulk, fs: seq<Fields>, n: nat)
    requires n < |b.hooks| == |fs| && Admitted(b, fs, n) && b.hooks[n] == []
    ensures AdmittedFields(b, fs, n) == fs[n]
  {
  }

  /**
    Builders without hooks, each with a mutation of its own: after a successful Save, row n and node n
    have every field that was set on builder n, the defaults of the others, and nothing else.
   */
  lemma CreatedAsSet(create: ChangeOrderCreateBulk, before: seq<Fields>, objects: seq<Mutation>, clocks: seq<Clock>,
                     json: JsonCodec, backend: Backend, rows: seq<Row>, nodes: seq<Entity?>, rows': seq<Row>,
                     start: State, run: SaveRun?, n: nat)
    requires |clocks| == |create.builders| && n < |create.builders|
    requires create.Saves(before, objects, clocks, json, backend, rows, nodes, None, rows', start, run)
    requires (forall i :: 0 <= i < |create.builders| ==> create.builders[i].hooks == []) && create.Distinct(objects)
    requires Faithful(json) && n < |before| && TypedFields(ChangeOrder, before[n])
    ensures |rows'| == |rows| + |create.builders|
    ensures ReadsBack(json, rows'[|rows| + n], Defaults(before[n], clocks[n]))
    ensures n < |nodes| && nodes[n] != null && nodes[n].fields == Defaults(before[n], clocks[n])
  {
    create.DistinctIsSeparate(objects, run, start, clocks);
    assert forall i :: 0 <= i < |create.builders| ==> run.bulk.hooks[i] == create.builders[i].hooks;
    SavedAsSet(run.bulk, start, clocks, n);
  }
}
