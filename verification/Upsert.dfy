/** `ChangeOrderUpsertBulk`: conflict options on a bulk, and what they mean for stored rows. */
module Upsert {
  import opened Relational
  import opened RowCodec
  import opened ChangeOrderFields
  import opened MutatorChain
  import opened DoneMutations
  import opened CheckedRows
  import opened ConflictOptions
  import opened ConflictRequests
  import opened BulkCreate

  datatype UpsertError = SaveError(error: Error) | ConflictOnBuilder(i: nat) | MissingOptions

  class ChangeOrderUpsertBulk {
    const create: ChangeOrderCreateBulk

    constructor OnConflict(bulk: ChangeOrderCreateBulk, options: seq<ConflictOption>)
      modifies bulk`conflict
      ensures create == bulk && bulk.conflict == options
    {
      create := bulk;
      new;
      bulk.OnConflict(options);
    }

    constructor OnConflictColumns(bulk: ChangeOrderCreateBulk, columns: seq<Column>)
      modifies bulk`conflict
      ensures create == bulk && bulk.conflict == old(bulk.conflict) + OptionsOf(ConflictColumns(columns))
    {
      create := bulk;
      new;
      bulk.OnConflictColumns(columns);
    }

    method UpdateNewValues()
      modifies create`conflict
      ensures create.conflict == old(create.conflict) + OptionsOf(UpsertCall.UpdateNewValues)
    {
      create.conflict := create.conflict + [NewValues];
      create.conflict := create.conflict + [KeepCreatedAt];
    }

    method Ignore()
      modifies create`conflict
      ensures create.conflict == old(create.conflict) + OptionsOf(IgnoreAll)
    {
      create.conflict := create.conflict + [ConflictOption.Ignore];
    }

    method DoNothing()
      modifies create`conflict
      ensures create.conflict == old(create.conflict) + OptionsOf(UpsertCall.DoNothing)
    {
      create.conflict := create.conflict + [Nothing];
    }

    method Update(changes: UpdateSet)
      modifies create`conflict
      ensures create.conflict == old(create.conflict) + OptionsOf(UpsertCall.Update(changes))
    {
      create.conflict := create.conflict + [Changes(changes)];
    }

    /** Any sequence of calls. */
    method Configure(cs: seq<UpsertCall>)
      modifies create`conflict
      ensures create.conflict == old(create.conflict) + AllOptions(cs)
    {
      for i := 0 to |cs|
        invariant create.conflict == old(create.conflict) + AllOptions(cs[..i])
      {
        match cs[i] {
          case ConflictColumns(columns) => create.OnConflictColumns(columns);
          case UpdateNewValues => UpdateNewValues();
          case IgnoreAll => Ignore();
          case DoNothing => DoNothing();
          case Update(changes) => Update(changes);
        }
        assert cs[..i + 1][..i] == cs[..i];
      }
      assert cs[..|cs|] == cs;
    }

    /** The options at work, run when the insert is made: closures read the builders as they are now. */
    method ResolveConflicts(columns: set<Column>) returns (u: UpdateSet)
      ensures u == ResolveAll(create.conflict, columns, create.MutationFields())
    {
      u := map[];
      var os := create.conflict;
      ghost var own := create.MutationFields();
      for i := 0 to |os|
        invariant u == ResolveAll(os[..i], columns, own) && own == create.MutationFields()
      {
        ResolveNext(os, i, columns, own);
        u := ResolveOption(os[i], columns, u);
      }
      assert os[..|os|] == os;
    }

    method ResolveOption(o: ConflictOption, columns: set<Column>, before: UpdateSet) returns (u: UpdateSet)
      ensures u == Resolve(o, columns, create.MutationFields(), before)
    {
      match o {
        case Target(_) | Nothing => u := before;
        case NewValues => u := before + map c | c in columns :: Excluded;
        case Ignore => u := before + map c | c in columns :: Keep;
        case KeepCreatedAt => u := IgnoreCreatedAt(before);
        case Changes(changes) => u := before + changes;
      }
    }

    /** The closure of UpdateNewValues. */
    method IgnoreCreatedAt(before: UpdateSet) returns (u: UpdateSet)
      ensures u == if AnySets(create.MutationFields(), CreatedAt) then before[CreatedAt := Keep] else before
    {
      u := before;
      ghost var own := create.MutationFields();
      for i := 0 to |create.builders|
        invariant u == if AnySets(own[..i], CreatedAt) then before[CreatedAt := Keep] else before
      {
        assert own[..i + 1] == own[..i] + [own[i]];
        AnySetsPlus(own[..i], own[i], CreatedAt);
        if CreatedAt in create.builders[i].mutation.fields {
          u := u[CreatedAt := Keep];
        }
      }
      assert own[..|own|] == own;
    }

    /**
      Exec: an earlier error, then the first builder with conflict options of its own, then the lack
      of any option is refused before anything else happens. Whatever passes is saved, and the
      postconditions say which run of the chain that was.
     */
    method Exec(clocks: seq<Clock>, json: JsonCodec, backend: Backend, rows: seq<Row>)
      returns (failure: Option<UpsertError>, rows': seq<Row>, ghost start: State, ghost run: SaveRun?)
      requires |clocks| == |create.builders|
      modifies create.builders, create.Mutations()
      ensures create.err.Some? ==> failure == Some(SaveError(create.err.value))
      ensures create.err.None? ==> forall i ::
                old(IsFirstConfigured(i)) ==> failure == Some(ConflictOnBuilder(i))
      ensures create.err.None? && old(NoneConfigured()) && create.conflict == [] ==> failure == Some(MissingOptions)
      ensures create.err.Some? || !old(NoneConfigured()) || create.conflict == [] ==>
                rows' == rows && forall b :: b in create.builders ==>
                  b.mutation == old(b.mutation) && b.mutation.fields == old(b.mutation.fields)
      ensures create.err.None? && old(NoneConfigured()) && create.conflict != [] ==>
                RunsSave(old(create.MutationFields()), old(create.MutationObjects()), clocks, json, backend, rows,
                         failure, rows', start, run)
    {
      failure, rows', start, run := None, rows, InitialState([], [], rows), null;
      if create.err.Some? {
        return Some(SaveError(create.err.value)), rows, start, run;
      }
      for i := 0 to |create.builders|
        invariant forall k :: 0 <= k < i ==> create.builders[k].conflict == []
        invariant forall b :: b in create.builders ==>
                    b.mutation == old(b.mutation) && b.mutation.fields == old(b.mutation.fields)
        invariant create.MutationFields() == old(create.MutationFields())
        invariant forall k :: 0 <= k < |create.builders| ==>
                    create.builders[k].conflict == old(create.builders[k].conflict)
      {
        if create.builders[i].conflict != [] {
          assert old(IsFirstConfigured(i));
          return Some(ConflictOnBuilder(i)), rows, start, run;
        }
      }
      assert old(NoneConfigured());
      if create.conflict == [] {
        return Some(MissingOptions), rows, start, run;
      }
      failure, rows', start, run := ExecX(clocks, json, backend, rows);
    }

    /** Builder i, and no builder before it, has conflict options of its own. */
    ghost predicate IsFirstConfigured(i: int)
      reads create.builders
    {
      && 0 <= i < |create.builders| && create.builders[i].conflict != []
      && forall k :: 0 <= k < i ==> create.builders[k].conflict == []
    }

    ghost predicate NoneConfigured()
      reads create.builders
    {
      forall k :: 0 <= k < |create.builders| ==> create.builders[k].conflict == []
    }

    /** ExecX calls Save without asking the guards; what would be an error here panics. */
    method ExecX(clocks: seq<Clock>, json: JsonCodec, backend: Backend, rows: seq<Row>)
      returns (failure: Option<UpsertError>, rows': seq<Row>, ghost start: State, ghost run: SaveRun?)
      requires |clocks| == |create.builders|
      modifies create.builders, create.Mutations()
      ensures create.err.Some? ==> failure == Some(SaveError(create.err.value)) && rows' == rows
      ensures create.err.None? ==>
                RunsSave(old(create.MutationFields()), old(create.MutationObjects()), clocks, json, backend, rows,
                         failure, rows', start, run)
    {
      var nodes, f;
      nodes, f, rows', start, run := create.Save(clocks, json, backend, rows);
      failure := if f.Some? then Some(SaveError(f.value)) else None;
    }

    ghost predicate RunsSave(before: seq<Fields>, objects: seq<Mutation>, clocks: seq<Clock>, json: JsonCodec,
                             backend: Backend, rows: seq<Row>, failure: Option<UpsertError>, rows': seq<Row>,
                             start: State, run: SaveRun?)
      requires |clocks| == |create.builders|
      reads if run == null then {} else {run, run.nodes} + run.repr
    {
      && (failure.Some? ==> failure.value.SaveError?)
      && run != null
      && create.Saves(before, objects, clocks, json, backend, rows, if failure.None? then run.nodes[..] else [],
                      if failure.Some? then Some(failure.value.error) else None, rows', start, run)
    }

    /**
      The same of a run that Exec has made on the builders: if their mutations were different
      objects, or no hook hands on a mutation of its own, no stored row has its created_at changed.
     */
    lemma ExecKeepsCreatedAt(before: seq<Fields>, objects: seq<Mutation>, clocks: seq<Clock>, json: JsonCodec,
                             backend: Backend, rows: seq<Row>, failure: Option<UpsertError>, rows': seq<Row>,
                             start: State, run: SaveRun, cs: seq<UpsertCall>, conflicts: (seq<Row>, Row) -> Option<nat>,
                             answers: seq<Option<seq<int>>>, k: nat)
      requires |clocks| == |create.builders|
      requires RunsSave(before, objects, clocks, json, backend, rows, failure, rows', start, run)
      requires create.Distinct(objects) || KeepsMutations(run.bulk)
      requires |answers| == |run.requests| && k < |rows| && forall c :: c in cs ==> LeavesCreatedAt(c)
      ensures KeptAfter(conflicts, cs, json, rows, run.requests, answers, k)
    {
      var s := DefaultAll(run.bulk, start, clocks, 0);
      create.DistinctIsSeparate(objects, run, start, clocks);
      EveryRequestShowsCreatedAt(run.bulk, s);
      ShownTableKeeps(cs, conflicts, json, rows, run.requests, answers, k);
    }
  }

  lemma ResolveNext(os: seq<ConflictOption>, i: nat, columns: set<Column>, own: seq<Fields>)
    requires i < |os|
    ensures ResolveAll(os[..i + 1], columns, own) == Resolve(os[i], columns, own, ResolveAll(os[..i], columns, own))
  {
    assert os[..i + 1][..i] == os[..i];
  }

  lemma AnySetsPlus(fs: seq<Fields>, f: Fields, c: Column)
    ensures AnySets(fs + [f], c) <==> AnySets(fs, c) || c in f
  {
    if n :| 0 <= n < |fs| && c in fs[n] {
      assert (fs + [f])[n] == fs[n];
    }
    assert (fs + [f])[|fs|] == f;
  }

  // ---------------------------------------------------------------- the guarantee

  ghost predicate AllShow(requests: seq<Request>) {
    forall r :: r in requests ==> ShowsCreatedAt(r)
  }

  /** No two builders share a mutation, or no hook hands on one of its own. */
  ghost predicate MayUpsert(b: Bulk, s: State) {
    ValidBulk(b) && ValidState(b, s) && s.requests == [] && (Separate(b, s) || (KeepsMutations(b) && Checked(s)))
  }

  /** The inserts of a run. */
  function Requested(b: Bulk, s: State): seq<Request>
    requires ValidBulk(b) && ValidState(b, s)
  {
    RunChain(b, s).1.requests
  }

  /**
    In every run, whatever its hooks do, each insert that sets created_at finds it set in some
    builder's mutation, if no two builders share a mutation or no hook hands on one of its own.
   */
  lemma EveryRequestShowsCreatedAt(b: Bulk, s: State)
    requires MayUpsert(b, s)
    ensures AllShow(Requested(b, s))
  {
    if Separate(b, s) {
      EveryRequestIsMirrored(b, s);
      MirroredShows(RunChain(b, s).1.requests);
    } else {
      OnlyCheckedRowsAreInserted(b, s);
      CheckedShows(RunChain(b, s).1.requests);
    }
  }

  lemma MirroredShows(requests: seq<Request>)
    requires forall r :: r in requests ==> Mirrored(r)
    ensures AllShow(requests)
  {
    forall r | r in requests
      ensures ShowsCreatedAt(r)
    {
      DatedSets(r);
    }
  }

  lemma CheckedShows(requests: seq<Request>)
    requires forall r :: r in requests ==> CheckedRequest(r)
    ensures AllShow(requests)
  {
    forall r | r in requests
      ensures ShowsCreatedAt(r)
    {
      assert CreatedAt in r.own[|r.own| - 1];
    }
  }

  lemma ShownTableKeeps(cs: seq<UpsertCall>, conflicts: (seq<Row>, Row) -> Option<nat>, j: JsonCodec, rows: seq<Row>,
                        requests: seq<Request>, answers: seq<Option<seq<int>>>, k: nat)
    requires AllShow(requests) && |answers| == |requests| && k < |rows| && forall c :: c in cs ==> LeavesCreatedAt(c)
    ensures KeptAfter(conflicts, cs, j, rows, requests, answers, k)
  {
    forall r | r in requests
      ensures Keeps(Assignments(AllOptions(cs), r), CreatedAt)
    {
      ShownIsKept(cs, r);
    }
    RunKeeps(conflicts, AllOptions(cs), j, rows, requests, answers, CreatedAt, k);
  }

  /** After these inserts row k is still there, with its created_at. */
  predicate KeptAfter(conflicts: (seq<Row>, Row) -> Option<nat>, cs: seq<UpsertCall>, j: JsonCodec, rows: seq<Row>,
                      requests: seq<Request>, answers: seq<Option<seq<int>>>, k: nat)
    requires |answers| == |requests| && k < |rows|
  {
    var rows' := TableAfter(conflicts, AllOptions(cs), j, rows, requests, answers);
    rows'[k].id == rows[k].id && Cell(rows'[k], CreatedAt) == Cell(rows[k], CreatedAt)
  }

  /**
    An upsert, of one builder or of many, never changes created_at of a stored row: not with any
    hooks, not with any conflict targets and calls on the upsert builder, in any order, and not over
    all the inserts of the run, however the database answers them.
   */
  lemma UpsertNeverChangesCreatedAt(b: Bulk, s: State, cs: seq<UpsertCall>, conflicts: (seq<Row>, Row) -> Option<nat>,
                                    j: JsonCodec, rows: seq<Row>, answers: seq<Option<seq<int>>>, k: nat)
    requires MayUpsert(b, s) && |answers| == |Requested(b, s)| && k < |rows|
    requires forall c :: c in cs ==> LeavesCreatedAt(c)
    ensures KeptAfter(conflicts, cs, j, rows, Requested(b, s), answers, k)
  {
    EveryRequestShowsCreatedAt(b, s);
    ShownTableKeeps(cs, conflicts, j, rows, Requested(b, s), answers, k);
  }
}
