/**
  Conflict options and what an upsert does to rows that are already stored. The options are
  resolved into one assignment per column when the insert is made; later options win.
 */
module ConflictOptions {
  import opened Relational
  import opened RowCodec
  import opened MutatorChain

  /** The proposed row's value, the stored row's own value, or a constant. */
  datatype Action = Excluded | Keep | Put(v: Value)

  type UpdateSet = map<Column, Action>

  datatype ConflictOption =
    | Target(columns: seq<Column>)
    | NewValues
    | Ignore
    | Nothing
      // the closure of UpdateNewValues: SetIgnore(created_at) if a builder's mutation has it
    | KeepCreatedAt
    | Changes(changes: UpdateSet)

  predicate AnySets(fs: seq<Fields>, c: Column) {
    exists n :: 0 <= n < |fs| && c in fs[n]
  }

  /** The assumption on a batch: its columns are those that some row sets; other rows get NULL there. */
  function InsertColumns(specs: seq<Fields>): (cs: set<Column>)
    ensures forall c :: c in cs <==> AnySets(specs, c)
  {
    if specs == [] then {}
    else
      assert forall c :: AnySets(specs, c) <==> c in specs[0] || AnySets(specs[1..], c) by {
        forall c | AnySets(specs, c)
          ensures c in specs[0] || AnySets(specs[1..], c)
        {
          var n :| 0 <= n < |specs| && c in specs[n];
          assert n > 0 ==> specs[1..][n - 1] == specs[n];
        }
        forall c | AnySets(specs[1..], c)
          ensures AnySets(specs, c)
        {
          var n :| 0 <= n < |specs[1..]| && c in specs[1..][n];
          assert specs[n + 1] == specs[1..][n];
        }
      }
      specs[0].Keys + InsertColumns(specs[1..])
  }

  function Resolve(o: ConflictOption, columns: set<Column>, own: seq<Fields>, u: UpdateSet): UpdateSet {
    match o
    case Target(_) => u
    case NewValues => u + map c | c in columns :: Excluded
    case Ignore => u + map c | c in columns :: Keep
    case Nothing => u
    case KeepCreatedAt => if AnySets(own, CreatedAt) then u[CreatedAt := Keep] else u
    case Changes(changes) => u + changes
  }

  function ResolveAll(os: seq<ConflictOption>, columns: set<Column>, own: seq<Fields>): UpdateSet {
    if os == [] then map[] else Resolve(os[|os| - 1], columns, own, ResolveAll(os[..|os| - 1], columns, own))
  }

  /** The assignments of a request; none at all if the action is DO NOTHING. */
  function Assignments(os: seq<ConflictOption>, r: Request): UpdateSet {
    if Nothing in os then map[] else ResolveAll(os, InsertColumns(r.specs), r.own)
  }

  function Merge(row: Row, proposed: Row, u: UpdateSet): Row {
    Row(row.id, map c | c in row.cells.Keys + u.Keys ::
      if c !in u || u[c].Keep? then Cell(row, c) else if u[c].Excluded? then Cell(proposed, c) else u[c].v)
  }

  /** The statement: each proposed row is merged into the stored row it conflicts with, or appended. */
  function Upserted(conflicts: (seq<Row>, Row) -> Option<nat>, u: UpdateSet, rows: seq<Row>,
                    proposed: seq<Row>): (rows': seq<Row>)
    ensures |rows| <= |rows'|
    decreases |proposed|
  {
    if proposed == [] then rows
    else
      var hit := conflicts(rows, proposed[0]);
      var next := if hit.Some? && hit.value < |rows| then rows[hit.value := Merge(rows[hit.value], proposed[0], u)]
                  else rows + [proposed[0]];
      Upserted(conflicts, u, next, proposed[1..])
  }

  // ---------------------------------------------------------------- the upsert builder's calls

  /** ConflictColumns stands for OnConflictColumns, and for OnConflict with conflict targets. */
  datatype UpsertCall =
    | ConflictColumns(columns: seq<Column>) | UpdateNewValues | IgnoreAll | DoNothing | Update(changes: UpdateSet)

  function OptionsOf(c: UpsertCall): seq<ConflictOption> {
    match c
    case ConflictColumns(columns) => [Target(columns)]
    case UpdateNewValues => [NewValues, KeepCreatedAt]
    case IgnoreAll => [Ignore]
    case DoNothing => [Nothing]
    case Update(changes) => [Changes(changes)]
  }

  function AllOptions(cs: seq<UpsertCall>): seq<ConflictOption> {
    if cs == [] then [] else AllOptions(cs[..|cs| - 1]) + OptionsOf(cs[|cs| - 1])
  }

  /** The upsert builder has no setter for the immutable created_at. */
  predicate LeavesCreatedAt(c: UpsertCall) {
    c.Update? ==> CreatedAt !in c.changes
  }

  /** UpdateNewValues was called, and Ignore not since. */
  predicate TakesNewValues(cs: seq<UpsertCall>) {
    cs != [] && (cs[|cs| - 1].UpdateNewValues? || (!cs[|cs| - 1].IgnoreAll? && TakesNewValues(cs[..|cs| - 1])))
  }

  predicate Keeps(u: UpdateSet, c: Column) {
    c in u ==> u[c].Keep?
  }

  function ActionOf(u: UpdateSet, c: Column): Option<Action> {
    if c in u then Some(u[c]) else None
  }

  /** What an option makes of one column, given whether it is inserted and whether created_at is set. */
  function ActionAfter(o: ConflictOption, c: Column, inserted: bool, dated: bool, a: Option<Action>): Option<Action> {
    match o
    case Target(_) => a
    case NewValues => if inserted then Some(Excluded) else a
    case Ignore => if inserted then Some(Keep) else a
    case Nothing => a
    case KeepCreatedAt => if dated && c == CreatedAt then Some(Keep) else a
    case Changes(changes) => if c in changes then Some(changes[c]) else a
  }

  lemma ResolveAt(o: ConflictOption, columns: set<Column>, own: seq<Fields>, u: UpdateSet, c: Column)
    ensures ActionOf(Resolve(o, columns, own, u), c)
         == ActionAfter(o, c, c in columns, AnySets(own, CreatedAt), ActionOf(u, c))
  {
  }

  function ActionsAfter(os: seq<ConflictOption>, c: Column, inserted: bool, dated: bool): Option<Action> {
    if os == [] then None
    else ActionAfter(os[|os| - 1], c, inserted, dated, ActionsAfter(os[..|os| - 1], c, inserted, dated))
  }

  /** The options can be resolved column by column. */
  lemma {:induction false} ResolveAllAt(os: seq<ConflictOption>, columns: set<Column>, own: seq<Fields>, c: Column)
    ensures ActionOf(ResolveAll(os, columns, own), c) == ActionsAfter(os, c, c in columns, AnySets(own, CreatedAt))
  {
    if os != [] {
      var front := os[..|os| - 1];
      ResolveAllAt(front, columns, own, c);
      ResolveAt(os[|os| - 1], columns, own, ResolveAll(front, columns, own), c);
    }
  }

  function ActionAfterCall(call: UpsertCall, c: Column, inserted: bool, dated: bool, a: Option<Action>): Option<Action>
  {
    match call
    case ConflictColumns(_) => a
    case UpdateNewValues =>
      ActionAfter(KeepCreatedAt, c, inserted, dated, ActionAfter(NewValues, c, inserted, dated, a))
    case IgnoreAll => ActionAfter(Ignore, c, inserted, dated, a)
    case DoNothing => a
    case Update(changes) => ActionAfter(Changes(changes), c, inserted, dated, a)
  }

  lemma OptionsAfterCall(os: seq<ConflictOption>, call: UpsertCall, c: Column, inserted: bool, dated: bool)
    ensures ActionsAfter(os + OptionsOf(call), c, inserted, dated)
         == ActionAfterCall(call, c, inserted, dated, ActionsAfter(os, c, inserted, dated))
  {
    var all := os + OptionsOf(call);
    if call.UpdateNewValues? {
      assert all[..|all| - 1] == os + [NewValues];
      assert (os + [NewValues])[..|os|] == os;
    } else {
      assert all[..|all| - 1] == os;
    }
  }

  predicate IsCreatedAtAction(a: Option<Action>, overwrites: bool) {
    if overwrites then a == Some(Excluded) else a == None || a == Some(Keep)
  }

  lemma CallOnCreatedAt(call: UpsertCall, inserted: bool, dated: bool, a: Option<Action>, takes: bool)
    requires LeavesCreatedAt(call) && IsCreatedAtAction(a, inserted && !dated && takes)
    ensures IsCreatedAtAction(ActionAfterCall(call, CreatedAt, inserted, dated, a),
                              inserted && !dated && (call.UpdateNewValues? || (!call.IgnoreAll? && takes)))
  {
  }

  /** The action that a sequence of calls leaves for created_at. */
  lemma {:induction false} CreatedAtAction(cs: seq<UpsertCall>, inserted: bool, dated: bool)
    requires forall c :: c in cs ==> LeavesCreatedAt(c)
    ensures IsCreatedAtAction(ActionsAfter(AllOptions(cs), CreatedAt, inserted, dated),
                              inserted && !dated && TakesNewValues(cs))
  {
    if cs != [] {
      var front, c := cs[..|cs| - 1], cs[|cs| - 1];
      CreatedAtAction(front, inserted, dated);
      OptionsAfterCall(AllOptions(front), c, CreatedAt, inserted, dated);
      CallOnCreatedAt(c, inserted, dated, ActionsAfter(AllOptions(front), CreatedAt, inserted, dated),
                      TakesNewValues(front));
    }
  }

  /**
    Whatever is called on an upsert builder, created_at is kept exactly if it is not inserted, or
    the closure finds it set in some builder's mutation, or new values are not what is taken.
   */
  lemma KeepsCreatedAtIff(cs: seq<UpsertCall>, columns: set<Column>, own: seq<Fields>)
    requires forall c :: c in cs ==> LeavesCreatedAt(c)
    ensures var u := ResolveAll(AllOptions(cs), columns, own);
            && (Keeps(u, CreatedAt) <==> CreatedAt !in columns || AnySets(own, CreatedAt) || !TakesNewValues(cs))
            && (!Keeps(u, CreatedAt) ==> u[CreatedAt] == Excluded)
  {
    ResolveAllAt(AllOptions(cs), columns, own, CreatedAt);
    CreatedAtAction(cs, CreatedAt in columns, AnySets(own, CreatedAt));
  }

  /** A row with a created_at has it from its builder's mutation. */
  predicate Dated(r: Request) {
    |r.own| == |r.specs| && forall n :: 0 <= n < |r.specs| && CreatedAt in r.specs[n] ==> CreatedAt in r.own[n]
  }

  lemma DatedSets(r: Request)
    requires Dated(r)
    ensures AnySets(r.specs, CreatedAt) ==> AnySets(r.own, CreatedAt)
  {
    if n :| 0 <= n < |r.specs| && CreatedAt in r.specs[n] {
      assert CreatedAt in r.own[n];
    }
  }

  /** If created_at is set in a row, it is set in some builder's mutation. */
  predicate ShowsCreatedAt(r: Request) {
    AnySets(r.specs, CreatedAt) ==> AnySets(r.own, CreatedAt)
  }

  /** With UpdateNewValues this is exactly when an insert keeps created_at, whatever else is called. */
  lemma KeepsCreatedAtIffShown(cs: seq<UpsertCall>, r: Request)
    requires (forall c :: c in cs ==> LeavesCreatedAt(c)) && TakesNewValues(cs) && Nothing !in AllOptions(cs)
    ensures Keeps(Assignments(AllOptions(cs), r), CreatedAt) <==> ShowsCreatedAt(r)
  {
    KeepsCreatedAtIff(cs, InsertColumns(r.specs), r.own);
  }

  lemma ShownIsKept(cs: seq<UpsertCall>, r: Request)
    requires (forall c :: c in cs ==> LeavesCreatedAt(c)) && ShowsCreatedAt(r)
    ensures Keeps(Assignments(AllOptions(cs), r), CreatedAt)
  {
    KeepsCreatedAtIff(cs, InsertColumns(r.specs), r.own);
  }

  // ---------------------------------------------------------------- a whole run

  /** The table after a run's inserts, each answered with IDs or refused. */
  function TableAfter(conflicts: (seq<Row>, Row) -> Option<nat>, os: seq<ConflictOption>, j: JsonCodec, rows: seq<Row>,
                      requests: seq<Request>, answers: seq<Option<seq<int>>>): (rows': seq<Row>)
    requires |answers| == |requests|
    ensures |rows| <= |rows'|
    decreases |requests|
  {
    if requests == [] then rows
    else
      var r, a := requests[0], answers[0];
      var next := if a.Some? && |a.value| == |r.specs| then
                    Upserted(conflicts, Assignments(os, r), rows, Inserted(j, a.value, r.specs))
                  else rows;
      TableAfter(conflicts, os, j, next, requests[1..], answers[1..])
  }

  /** If every insert keeps a column, every row that was stored has the same cell there after the run. */
  lemma {:induction false} RunKeeps(conflicts: (seq<Row>, Row) -> Option<nat>, os: seq<ConflictOption>, j: JsonCodec,
                                    rows: seq<Row>, requests: seq<Request>, answers: seq<Option<seq<int>>>,
                                    c: Column, k: nat)
    requires |answers| == |requests| && k < |rows| && forall r :: r in requests ==> Keeps(Assignments(os, r), c)
    ensures var rows' := TableAfter(conflicts, os, j, rows, requests, answers);
            rows'[k].id == rows[k].id && Cell(rows'[k], c) == Cell(rows[k], c)
    decreases |requests|
  {
    if requests != [] {
      var r, a := requests[0], answers[0];
      if a.Some? && |a.value| == |r.specs| {
        var proposed := Inserted(j, a.value, r.specs);
        StoredRowsKeep(conflicts, Assignments(os, r), rows, proposed, c, k);
        var rows' := Upserted(conflicts, Assignments(os, r), rows, proposed);
        RunKeeps(conflicts, os, j, rows', requests[1..], answers[1..], c, k);
      } else {
        RunKeeps(conflicts, os, j, rows, requests[1..], answers[1..], c, k);
      }
    }
  }

  /**
    The closure has to be deferred: on the fields that the mutations had before `defaults`, without
    a created_at, it would let the insert overwrite what is stored.
   */
  lemma InspectedTooEarly(cs: seq<UpsertCall>, specs: seq<Fields>, early: seq<Fields>, row: Row, proposed: Row)
    requires TakesNewValues(cs) && Nothing !in AllOptions(cs) && forall c :: c in cs ==> LeavesCreatedAt(c)
    requires AnySets(specs, CreatedAt) && !AnySets(early, CreatedAt)
    ensures Cell(Merge(row, proposed, Assignments(AllOptions(cs), Request(specs, early))), CreatedAt)
         == Cell(proposed, CreatedAt)
  {
    KeepsCreatedAtIff(cs, InsertColumns(specs), early);
    MergedCell(row, proposed, ResolveAll(AllOptions(cs), InsertColumns(specs), early), CreatedAt);
  }

  // ---------------------------------------------------------------- stored rows

  lemma MergedCell(row: Row, proposed: Row, u: UpdateSet, c: Column)
    requires c != Id
    ensures Cell(Merge(row, proposed, u), c) ==
            if c !in u || u[c].Keep? then Cell(row, c) else if u[c].Excluded? then Cell(proposed, c) else u[c].v
  {
  }

  /** A column that the assignments keep is the same afterwards in every row that was stored. */
  lemma {:induction false} StoredRowsKeep(conflicts: (seq<Row>, Row) -> Option<nat>, u: UpdateSet, rows: seq<Row>,
                                          proposed: seq<Row>,
                                          c: Column, k: nat)
    requires Keeps(u, c) && k < |rows|
    ensures var rows' := Upserted(conflicts, u, rows, proposed);
            rows'[k].id == rows[k].id && Cell(rows'[k], c) == Cell(rows[k], c)
    decreases |proposed|
  {
    if proposed != [] {
      var hit := conflicts(rows, proposed[0]);
      if hit.Some? && hit.value < |rows| {
        if c != Id {
          MergedCell(rows[hit.value], proposed[0], u, c);
        }
        StoredRowsKeep(conflicts, u, rows[hit.value := Merge(rows[hit.value], proposed[0], u)], proposed[1..], c, k);
      } else {
        StoredRowsKeep(conflicts, u, rows + [proposed[0]], proposed[1..], c, k);
      }
    }
  }

  /** What the caller's own closure sets, called last, is stored; it does not touch any other column. */
  lemma ChangesAreStored(cs: seq<UpsertCall>, changes: UpdateSet, r: Request, row: Row, proposed: Row, c: Column)
    requires Nothing !in AllOptions(cs) && c != Id
    ensures var before := Merge(row, proposed, Assignments(AllOptions(cs), r));
            var after := Merge(row, proposed, Assignments(AllOptions(cs + [UpsertCall.Update(changes)]), r));
            Cell(after, c) == if c !in changes then Cell(before, c)
                              else match changes[c]
                                   case Put(v) => v
                                   case Keep => Cell(row, c)
                                   case Excluded => Cell(proposed, c)
  {
    var all := AllOptions(cs + [UpsertCall.Update(changes)]);
    ChangesComeLast(cs, changes, r);
    MergedCell(row, proposed, Assignments(AllOptions(cs), r), c);
    MergedCell(row, proposed, Assignments(all, r), c);
  }

  lemma ChangesComeLast(cs: seq<UpsertCall>, changes: UpdateSet, r: Request)
    requires Nothing !in AllOptions(cs)
    ensures Assignments(AllOptions(cs + [UpsertCall.Update(changes)]), r)
         == Assignments(AllOptions(cs), r) + changes
  {
    var os, all := AllOptions(cs), cs + [UpsertCall.Update(changes)];
    assert all[..|all| - 1] == cs && all[|all| - 1] == UpsertCall.Update(changes);
    var os' := os + [Changes(changes)];
    assert os'[..|os'| - 1] == os && os'[|os'| - 1] == Changes(changes) && Nothing !in os';
  }

  /** Rows that conflict with nothing are added in their order, whatever the options. */
  lemma {:induction false} NewRowsAreAppended(conflicts: (seq<Row>, Row) -> Option<nat>, u: UpdateSet, rows: seq<Row>,
                                              proposed: seq<Row>)
    requires forall rs, r :: r in proposed ==> conflicts(rs, r) == None
    ensures Upserted(conflicts, u, rows, proposed) == rows + proposed
    decreases |proposed|
  {
    if proposed != [] {
      NewRowsAreAppended(conflicts, u, rows + [proposed[0]], proposed[1..]);
    }
  }

  predicate Mentions(o: ConflictOption, c: Column) {
    o.Changes? && c in o.changes
  }

  /** A column that is not inserted is only touched by the caller's own closures. */
  lemma {:induction false} UntouchedUnlessMentioned(os: seq<ConflictOption>, c: Column, dated: bool)
    requires forall o :: o in os ==> !Mentions(o, c)
    ensures var a := ActionsAfter(os, c, false, dated); a == None || a == Some(Keep)
  {
    if os != [] {
      assert os[|os| - 1] in os && forall o :: o in os[..|os| - 1] ==> o in os;
      UntouchedUnlessMentioned(os[..|os| - 1], c, dated);
    }
  }

  /**
    With DO NOTHING no cell of any stored row changes. With Ignore as the last option, after any
    others, this holds of every inserted column, and of the others unless a closure mentions them.
   */
  lemma DoNothingAndIgnoreKeepRows(conflicts: (seq<Row>, Row) -> Option<nat>, os: seq<ConflictOption>, r: Request,
                                   rows: seq<Row>, proposed: seq<Row>, c: Column, k: nat)
    requires k < |rows|
    requires || Nothing in os
             || (os != [] && os[|os| - 1] == Ignore && (AnySets(r.specs, c) || forall o :: o in os ==> !Mentions(o, c)))
    ensures Cell(Upserted(conflicts, Assignments(os, r), rows, proposed)[k], c) == Cell(rows[k], c)
  {
    if Nothing !in os {
      ResolveAllAt(os, InsertColumns(r.specs), r.own, c);
      if !AnySets(r.specs, c) {
        UntouchedUnlessMentioned(os, c, AnySets(r.own, CreatedAt));
      }
    }
    StoredRowsKeep(conflicts, Assignments(os, r), rows, proposed, c, k);
  }

  /** OnConflictColumns(...).UpdateNewValues(), with any number of conflict targets. */
  function TakeNewValues(targets: seq<seq<Column>>): seq<ConflictOption> {
    seq(|targets|, i requires 0 <= i < |targets| => Target(targets[i])) + [NewValues, KeepCreatedAt]
  }

  lemma {:induction false} TargetsDoNothing(os: seq<ConflictOption>, c: Column, inserted: bool, dated: bool)
    requires forall o :: o in os ==> o.Target?
    ensures ActionsAfter(os, c, inserted, dated) == None
  {
    if os != [] {
      assert os[|os| - 1] in os && forall o :: o in os[..|os| - 1] ==> o in os;
      TargetsDoNothing(os[..|os| - 1], c, inserted, dated);
    }
  }

  lemma NewValuesAction(targets: seq<seq<Column>>, c: Column, inserted: bool, dated: bool)
    ensures ActionsAfter(TakeNewValues(targets), c, inserted, dated)
         == if dated && c == CreatedAt then Some(Keep) else if inserted then Some(Excluded) else None
  {
    var os := seq(|targets|, i requires 0 <= i < |targets| => Target(targets[i]));
    TargetsDoNothing(os, c, inserted, dated);
    OptionsAfterCall(os, UpdateNewValues, c, inserted, dated);
  }

  /** UpdateNewValues takes over every column of the batch but created_at, and no other. */
  lemma NewValuesExactly(targets: seq<seq<Column>>, r: Request, row: Row, proposed: Row, c: Column)
    requires Dated(r) && c != Id
    ensures Cell(Merge(row, proposed, Assignments(TakeNewValues(targets), r)), c) ==
            if AnySets(r.specs, c) && c != CreatedAt then Cell(proposed, c) else Cell(row, c)
  {
    ResolveAllAt(TakeNewValues(targets), InsertColumns(r.specs), r.own, c);
    NewValuesAction(targets, c, c in InsertColumns(r.specs), AnySets(r.own, CreatedAt));
    DatedSets(r);
    MergedCell(row, proposed, Assignments(TakeNewValues(targets), r), c);
  }

  function OneOf(r: Request, n: nat): Request
    requires n < |r.specs| == |r.own|
  {
    Request([r.specs[n]], [r.own[n]])
  }

  /**
    A bulk upsert treats the row that builder n conflicts with like an upsert of builder n by itself
    exactly if builder n sets every column that any builder sets: where it does not, the bulk
    overwrites the stored value with NULL.
   */
  lemma BulkUpsertAgreesIff(targets: seq<seq<Column>>, j: JsonCodec, r: Request, n: nat, id: int)
    requires Dated(r) && n < |r.specs|
    ensures (forall row, c | c != Id :: BulkCell(targets, j, r, n, id, row, c) == OwnCell(targets, j, r, n, id, row, c))
            <==> forall c | c != Id && c != CreatedAt && AnySets(r.specs, c) :: c in r.specs[n]
  {
    forall c | c != Id && c != CreatedAt && AnySets(r.specs, c) && c !in r.specs[n]
      ensures var row := Row(0, map[c := Int(1)]);
              BulkCell(targets, j, r, n, id, row, c) != OwnCell(targets, j, r, n, id, row, c)
    {
      BothCells(targets, j, r, n, id, Row(0, map[c := Int(1)]), c);
    }
    if forall c | c != Id && c != CreatedAt && AnySets(r.specs, c) :: c in r.specs[n] {
      forall row, c | c != Id
        ensures BulkCell(targets, j, r, n, id, row, c) == OwnCell(targets, j, r, n, id, row, c)
      {
        BothCells(targets, j, r, n, id, row, c);
      }
    }
  }

  lemma BothCells(targets: seq<seq<Column>>, j: JsonCodec, r: Request, n: nat, id: int, row: Row, c: Column)
    requires Dated(r) && n < |r.specs| && c != Id
    ensures c in r.specs[n] ==> AnySets(r.specs, c)
    ensures c !in r.specs[n] ==> Cell(Stored(j, id, r.specs[n]), c) == Null
    ensures BulkCell(targets, j, r, n, id, row, c)
         == if AnySets(r.specs, c) && c != CreatedAt then Cell(Stored(j, id, r.specs[n]), c) else Cell(row, c)
    ensures OwnCell(targets, j, r, n, id, row, c)
         == if c in r.specs[n] && c != CreatedAt then Cell(Stored(j, id, r.specs[n]), c) else Cell(row, c)
  {
    NewValuesExactly(targets, r, row, Stored(j, id, r.specs[n]), c);
    SingleCell(targets, j, r, n, id, row, c);
  }

  lemma SingleCell(targets: seq<seq<Column>>, j: JsonCodec, r: Request, n: nat, id: int, row: Row, c: Column)
    requires Dated(r) && n < |r.specs| && c != Id
    ensures OwnCell(targets, j, r, n, id, row, c)
         == if c in r.specs[n] && c != CreatedAt then Cell(Stored(j, id, r.specs[n]), c) else Cell(row, c)
  {
    NewValuesExactly(targets, OneOf(r, n), row, Stored(j, id, r.specs[n]), c);
    assert AnySets(OneOf(r, n).specs, c) <==> c in OneOf(r, n).specs[0];
  }

  /** A cell of a stored row after the bulk has merged builder n's row into it. */
  function BulkCell(targets: seq<seq<Column>>, j: JsonCodec, r: Request, n: nat, id: int, row: Row, c: Column): Value
    requires n < |r.specs|
  {
    Cell(Merge(row, Stored(j, id, r.specs[n]), Assignments(TakeNewValues(targets), r)), c)
  }

  function OwnCell(targets: seq<seq<Column>>, j: JsonCodec, r: Request, n: nat, id: int, row: Row, c: Column): Value
    requires n < |r.specs| == |r.own|
  {
    Cell(Merge(row, Stored(j, id, r.specs[n]), Assignments(TakeNewValues(targets), OneOf(r, n))), c)
  }
}
