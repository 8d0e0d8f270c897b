/**
  The meaning of bulk creation: the chain of mutators that `ChangeOrderCreateBulk.Save` builds,
  run over an explicit store of mutations and nodes. Hooks are programs that may edit or inspect
  the mutation they are given, reject it, hand on another one, and call the next mutator any
  number of times. Module BulkCreate proves that the builder objects compute this function.
 */
module MutatorChain {
  import opened Relational
  import opened RowCodec
  import opened ChangeOrderFields

  datatype Outcome = Done | Failed(error: Error)

  /** What a hook returns: nil error, an error of its own, or what its last call of next returned. */
  datatype Reply = Succeed | Fail(error: Error) | Propagate

  datatype Handed = Same | Substitute(fields: Fields)

  datatype Hook =
    | Finish(reply: Reply)
    | Edit(edit: Fields -> Fields, rest: Hook)
    | Inspect(test: Fields -> bool, yes: Hook, no: Hook)
    | Next(handed: Handed, onDone: Hook, onError: Hook)

  datatype Event = Enter(i: nat, k: nat) | Leave(i: nat, k: nat) | Batch(specs: seq<Fields>, ok: bool)

  predicate IsBatch(e: Event) {
    e.Batch?
  }

  predicate IsCommit(e: Event) {
    e.Batch? && e.ok
  }

  /** `id` is the pointer `&node.ID`: the place of that node in the store of nodes. */
  datatype MutationValue = MutationValue(fields: Fields, id: Option<nat>, done: bool)

  datatype Spec = Spec(fields: Fields, id: Option<int>)

  /** A batch insert: its specifications, and the builders' own fields, which its conflict options may read. */
  datatype Request = Request(specs: seq<Fields>, own: seq<Fields>)

  datatype State = State(
    muts: seq<MutationValue>,   // every mutation object
    cur: seq<nat>,              // builder -> its mutation
    made: seq<EntityValue>,     // every node object
    nodes: seq<Option<nat>>,    // the slice Save returns
    specs: seq<Option<Spec>>,
    rows: seq<Row>,
    trace: seq<Event>,
    requests: seq<Request>)

  /** What the database answers to a batch insert. IDs need not be reported after a conflict. */
  datatype Verdict = Refuse(constraint: bool) | Accept(ids: seq<int>, reported: bool)

  /**
    A save of several builders, or of one builder by itself: hooks wrap both in the same way.
    `who[i]` names the builder at position i, so that one builder can occur twice.
   */
  datatype Bulk = Bulk(alone: bool, hooks: seq<seq<Hook>>, who: seq<nat>, json: JsonCodec, backend: Backend)

  /** The database's verdict, given how many inserts this save has tried before: a retry may succeed. */
  type Backend = (nat, seq<Row>, seq<Fields>) -> Verdict

  ghost predicate ValidBulk(b: Bulk) {
    && |b.who| == |b.hooks| && (forall i :: 0 <= i < |b.who| ==> b.who[i] < |b.who|)
    && (b.alone ==> |b.hooks| == 1)
  }

  ghost predicate ValidState(b: Bulk, s: State) {
    && |s.cur| == |s.nodes| == |s.specs| == |b.hooks|
    && (forall i :: 0 <= i < |s.cur| ==> s.cur[i] < |s.muts|)
    && (forall i :: 0 <= i < |s.nodes| && s.nodes[i].Some? ==> s.nodes[i].value < |s.made|)
    && (forall m :: 0 <= m < |s.muts| && s.muts[m].id.Some? ==> s.muts[m].id.value < |s.made|)
  }

  /** Positions before i have been turned into specifications. */
  ghost predicate Filled(s: State, i: nat) {
    i <= |s.nodes| == |s.specs| && forall k :: 0 <= k < i ==> s.nodes[k].Some? && s.specs[k].Some?
  }

  /** Later states keep what has been built: objects are never freed, slots never emptied. */
  ghost predicate Grows(s: State, s': State) {
    && |s.muts| <= |s'.muts| && |s.made| <= |s'.made| && |s'.nodes| == |s.nodes| && |s'.specs| == |s.specs|
    && (forall k :: 0 <= k < |s.nodes| && s.nodes[k].Some? ==> s'.nodes[k].Some?)
    && (forall k :: 0 <= k < |s.specs| && s.specs[k].Some? ==> s'.specs[k].Some?)
  }

  function SetFields(s: State, m: nat, f: Fields): State
    requires m < |s.muts|
  {
    s.(muts := s.muts[m := s.muts[m].(fields := f)])
  }

  function Log(s: State, e: Event): State {
    s.(trace := s.trace + [e])
  }

  // ---------------------------------------------------------------- the database

  predicate FreshIds(rows: seq<Row>, ids: seq<int>) {
    && (forall a, b :: 0 <= a < b < |ids| ==> ids[a] != ids[b])
    && (forall a, r :: 0 <= a < |ids| && r in rows ==> ids[a] != r.id)
  }

  /** The assumption on a batch insert: it appends every row with fresh IDs, or it fails. */
  function InsertInto(b: Bulk, tries: nat, rows: seq<Row>, specs: seq<Fields>): Result<seq<int>, Error> {
    match b.backend(tries, rows, specs)
    case Refuse(constraint) => Err(if constraint then Constraint else Driver)
    case Accept(ids, _) => if |ids| == |specs| && FreshIds(rows, ids) then Ok(ids) else Err(Driver)
  }

  /** Creating a single node always reports its ID; after a batch it depends on the database. */
  predicate ReportsInto(b: Bulk, tries: nat, rows: seq<Row>, specs: seq<Fields>) {
    b.alone || (b.backend(tries, rows, specs).Accept? && b.backend(tries, rows, specs).reported)
  }

  /** The next insert of a run in state s. */
  function Insert(b: Bulk, s: State, specs: seq<Fields>): Result<seq<int>, Error> {
    InsertInto(b, |s.requests|, s.rows, specs)
  }

  predicate Reports(b: Bulk, s: State, specs: seq<Fields>) {
    ReportsInto(b, |s.requests|, s.rows, specs)
  }

  function Inserted(j: JsonCodec, ids: seq<int>, specs: seq<Fields>): seq<Row>
    requires |ids| == |specs|
  {
    seq(|ids|, k requires 0 <= k < |ids| => Stored(j, ids[k], specs[k]))
  }

  /** The specifications after an accepted batch. */
  function Answered(ids: seq<int>, specs: seq<Fields>, reported: bool): seq<Option<Spec>>
    requires |ids| == |specs|
  {
    seq(|ids|, k requires 0 <= k < |ids| => Some(Spec(specs[k], if reported then Some(ids[k]) else None)))
  }

  function SpecFields(s: State): seq<Fields>
    requires Filled(s, |s.specs|)
  {
    seq(|s.specs|, k requires 0 <= k < |s.specs| => s.specs[k].value.fields)
  }

  /** The fields of each position's own mutation. */
  function OwnFields(b: Bulk, s: State): (fs: seq<Fields>)
    requires ValidBulk(b) && ValidState(b, s)
    ensures |fs| == |b.hooks|
  {
    seq(|b.hooks|, n requires 0 <= n < |b.hooks| => s.muts[s.cur[b.who[n]]].fields)
  }

  function Ask(b: Bulk, s: State): (s': State)
    requires ValidBulk(b) && ValidState(b, s) && Filled(s, |b.hooks|)
    ensures ValidState(b, s') && Grows(s, s') && Filled(s', |b.hooks|)
  {
    s.(requests := s.requests + [Request(SpecFields(s), OwnFields(b, s))])
  }

  function BatchCreate(b: Bulk, s: State): (r: (Outcome, State))
    requires ValidBulk(b) && ValidState(b, s) && Filled(s, |b.hooks|)
    ensures ValidState(b, r.1) && Grows(s, r.1)
  {
    Answer(b, |s.requests|, Ask(b, s))
  }

  function Answer(b: Bulk, tries: nat, s: State): (r: (Outcome, State))
    requires ValidBulk(b) && ValidState(b, s) && Filled(s, |b.hooks|)
    ensures ValidState(b, r.1) && Grows(s, r.1)
  {
    var fs := SpecFields(s);
    match InsertInto(b, tries, s.rows, fs)
    case Err(e) => (Failed(e), Log(s, Batch(fs, false)))
    case Ok(ids) =>
      var specs := Answered(ids, fs, ReportsInto(b, tries, s.rows, fs));
      (Done, Log(s.(rows := s.rows + Inserted(b.json, ids, fs), specs := specs), Batch(fs, true)))
  }

  // ---------------------------------------------------------------- the chain

  /**
    The mutation that the innermost mutator works on. In a bulk it is the one handed in; a single
    save copies the one handed in over the builder's own (`*mutation = *mutationT`) before it checks.
   */
  function Adopt(b: Bulk, i: nat, m: nat, s: State): (r: (nat, State))
    requires ValidBulk(b) && ValidState(b, s) && i < |b.hooks| && m < |s.muts|
    ensures ValidState(b, r.1) && r.0 < |r.1.muts| && Grows(s, r.1) && r.1.specs == s.specs && r.1.nodes == s.nodes
  {
    if b.alone then var own := s.cur[b.who[i]]; (own, s.(muts := s.muts[own := s.muts[m]])) else (m, s)
  }

  /** The innermost mutator of position i, up to its call of the next position. */
  function Build(b: Bulk, i: nat, m: nat, s: State): (s': State)
    requires ValidBulk(b) && ValidState(b, s) && i < |b.hooks| && m < |s.muts| && Filled(s, i)
    ensures ValidState(b, s') && Filled(s', i + 1) && Grows(s, s')
  {
    var f := Settable(s.muts[m].fields);
    s.(cur := s.cur[b.who[i] := m], made := s.made + [EntityValue(0, f, map[])],
       nodes := s.nodes[i := Some(|s.made|)], specs := s.specs[i := Some(Spec(f, None))])
  }

  /** ... and what it writes back when the rest of the chain has returned without an error. */
  function Settle(b: Bulk, i: nat, m: nat, s: State): (s': State)
    requires ValidState(b, s) && i < |b.hooks| && m < |s.muts| && Filled(s, i + 1)
    ensures ValidState(b, s') && Grows(s, s')
  {
    var node := s.nodes[i].value;
    var id := s.specs[i].value.id;
    s.(muts := s.muts[m := s.muts[m].(id := Some(node), done := true)],
       made := if id.Some? then s.made[node := s.made[node].(id := id.value)] else s.made)
  }

  function RunBase(b: Bulk, i: nat, m: nat, s: State): (r: (Outcome, State))
    requires ValidBulk(b) && ValidState(b, s) && i < |b.hooks| && m < |s.muts| && Filled(s, i)
    ensures ValidState(b, r.1) && Grows(s, r.1)
    decreases |b.hooks| - i, 0, 0, Finish(Succeed)
  {
    var (m0, s0) := Adopt(b, i, m, s);
    match Check(s0.muts[s0.cur[b.who[i]]].fields)
    case Some(e) => (Failed(e), s0)
    case None =>
      var s1 := Build(b, i, m0, s0);
      var (o, s2) := RunRest(b, i, s1);
      if o.Failed? then (o, s2) else (Done, Settle(b, i, m0, s2))
  }

  /** The next position's mutator, or the database after the last position. */
  function RunRest(b: Bulk, i: nat, s: State): (r: (Outcome, State))
    requires ValidBulk(b) && ValidState(b, s) && i < |b.hooks| && Filled(s, i + 1)
    ensures ValidState(b, r.1) && Grows(s, r.1)
    decreases |b.hooks| - i - 1, if i + 1 < |b.hooks| then |b.hooks[i + 1]| else 0, 3, Finish(Succeed)
  {
    if i + 1 < |b.hooks| then RunHooks(b, i + 1, 0, s.cur[b.who[i + 1]], s) else BatchCreate(b, s)
  }

  /** The mutator of position i from hook k inwards; hook 0 is the outermost. */
  function RunHooks(b: Bulk, i: nat, k: nat, m: nat, s: State): (r: (Outcome, State))
    requires ValidBulk(b) && ValidState(b, s) && i < |b.hooks| && k <= |b.hooks[i]| && m < |s.muts| && Filled(s, i)
    ensures ValidState(b, r.1) && Grows(s, r.1)
    decreases |b.hooks| - i, |b.hooks[i]| - k, 2, Finish(Succeed)
  {
    if k == |b.hooks[i]| then RunBase(b, i, m, s)
    else
      var (o, s') := RunProgram(b, i, k, b.hooks[i][k], Done, m, Log(s, Enter(i, k)));
      (o, Log(s', Leave(i, k)))
  }

  function RunProgram(b: Bulk, i: nat, k: nat, p: Hook, last: Outcome, m: nat, s: State): (r: (Outcome, State))
    requires ValidBulk(b) && ValidState(b, s) && i < |b.hooks| && k < |b.hooks[i]| && m < |s.muts| && Filled(s, i)
    ensures ValidState(b, r.1) && Grows(s, r.1)
    decreases |b.hooks| - i, |b.hooks[i]| - k, 1, p
  {
    match p
    case Finish(Succeed) => (Done, s)
    case Finish(Fail(e)) => (Failed(e), s)
    case Finish(Propagate) => (last, s)
    case Edit(edit, rest) => RunProgram(b, i, k, rest, last, m, SetFields(s, m, edit(s.muts[m].fields)))
    case Inspect(test, yes, no) => RunProgram(b, i, k, if test(s.muts[m].fields) then yes else no, last, m, s)
    case Next(handed, onDone, onError) =>
      var (m', s1) := Hand(handed, m, s);
      var (o, s2) := RunHooks(b, i, k + 1, m', s1);
      RunProgram(b, i, k, if o.Done? then onDone else onError, o, m, s2)
  }

  /** The mutation a hook passes on: the one it got, or a new object. */
  function Hand(h: Handed, m: nat, s: State): (nat, State) {
    match h
    case Same => (m, s)
    case Substitute(f) => (|s.muts|, s.(muts := s.muts + [MutationValue(f, None, false)]))
  }

  /** Save, after the defaults: the first mutator, or nothing at all for an empty bulk. */
  function RunChain(b: Bulk, s: State): (r: (Outcome, State))
    requires ValidBulk(b) && ValidState(b, s)
    ensures ValidState(b, r.1) && Grows(s, r.1)
  {
    if |b.hooks| > 0 then RunHooks(b, 0, 0, s.cur[b.who[0]], s) else (Done, s)
  }
}
