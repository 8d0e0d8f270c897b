/**
  What bulk creation does when every hook passes its call through: it may inspect and edit the
  mutation, and reject it, but it calls the next mutator at most once, with the mutation it was
  given, and returns what the call returned.
 */
module HookNesting {
  import opened Relational
  import opened RowCodec
  import opened ChangeOrderFields
  import opened MutatorChain

  /** After the call: edits, then the call's own outcome. */
  predicate Returns(p: Hook) {
    match p
    case Finish(reply) => reply.Propagate?
    case Edit(_, rest) => Returns(rest)
    case Inspect(_, yes, no) => Returns(yes) && Returns(no)
    case Next(_, _, _) => false
  }

  predicate PassesThrough(p: Hook) {
    match p
    case Finish(reply) => reply.Fail?
    case Edit(_, rest) => PassesThrough(rest)
    case Inspect(_, yes, no) => PassesThrough(yes) && PassesThrough(no)
    case Next(handed, onDone, onError) => handed.Same? && Returns(onDone) && Returns(onError)
  }

  ghost predicate AllPassThrough(b: Bulk) {
    forall i, k :: 0 <= i < |b.hooks| && 0 <= k < |b.hooks[i]| ==> PassesThrough(b.hooks[i][k])
  }

  /** What a hook makes of the fields before it calls on, or the error it rejects them with. */
  function Before(p: Hook, f: Fields): Result<Fields, Error> {
    match p
    case Finish(reply) => if reply.Fail? then Err(reply.error) else Ok(f)
    case Edit(edit, rest) => Before(rest, edit(f))
    case Inspect(test, yes, no) => Before(if test(f) then yes else no, f)
    case Next(_, _, _) => Ok(f)
  }

  /**
    The plan of a run, read off the builders without running anything: the hooks that are entered,
    the fields that reach each specification, and the error that stops the chain, if one does.
    `f` is the current builder's mutation, `fs` those of all builders before the run.
   */
  datatype Plan = Plan(entered: seq<(nat, nat)>, specs: seq<Fields>, stop: Option<Error>)

  function PlanFrom(b: Bulk, fs: seq<Fields>, i: nat, k: nat, f: Fields): (p: Plan)
    requires i < |b.hooks| == |fs| && k <= |b.hooks[i]|
    ensures p.stop.None? ==> |p.specs| == |b.hooks| - i
    decreases |b.hooks| - i, |b.hooks[i]| - k
  {
    if k < |b.hooks[i]| then
      match Before(b.hooks[i][k], f)
      case Err(e) => Plan([(i, k)], [], Some(e))
      case Ok(f') =>
        var p := PlanFrom(b, fs, i, k + 1, f');
        Plan([(i, k)] + p.entered, p.specs, p.stop)
    else if Check(f).Some? then Plan([], [], Check(f))
    else if i + 1 < |b.hooks| then
      var p := PlanFrom(b, fs, i + 1, 0, fs[i + 1]);
      Plan(p.entered, [Settable(f)] + p.specs, p.stop)
    else Plan([], [Settable(f)], None)
  }

  function Enters(slots: seq<(nat, nat)>): (t: seq<Event>)
    ensures |t| == |slots|
  {
    seq(|slots|, n requires 0 <= n < |slots| => Enter(slots[n].0, slots[n].1))
  }

  /** The same hooks left in the opposite order. */
  function Leaves(slots: seq<(nat, nat)>): (t: seq<Event>)
    ensures |t| == |slots|
  {
    seq(|slots|, n requires 0 <= n < |slots| => Leave(slots[|slots| - 1 - n].0, slots[|slots| - 1 - n].1))
  }

  function EarlierSpecs(s: State, i: nat): seq<Fields>
    requires Filled(s, i)
  {
    seq(i, k requires 0 <= k < i => s.specs[k].value.fields)
  }

  /** The batch a plan ends in, and what the database makes of it. */
  function Core(b: Bulk, s: State, specs: seq<Fields>): seq<Event> {
    [Batch(specs, Insert(b, s, specs).Ok?)]
  }

  function OutcomeOf(b: Bulk, s: State, stop: Option<Error>, specs: seq<Fields>): Outcome {
    if stop.Some? then Failed(stop.value)
    else match Insert(b, s, specs) case Ok(_) => Done case Err(e) => Failed(e)
  }

  function RowsAfter(b: Bulk, s: State, stop: Option<Error>, specs: seq<Fields>): seq<Row> {
    if stop.Some? then s.rows
    else match Insert(b, s, specs)
         case Ok(ids) => s.rows + Inserted(b.json, ids, specs)
         case Err(e) => s.rows
  }

  /** A run from (i, k) does exactly what its plan says. */
  ghost predicate Follows(b: Bulk, i: nat, s: State, p: Plan, o: Outcome, s': State)
    requires Filled(s, i)
  {
    var specs := EarlierSpecs(s, i) + p.specs;
    && o == OutcomeOf(b, s, p.stop, specs)
    && s'.rows == RowsAfter(b, s, p.stop, specs)
    && s'.trace == s.trace + Enters(p.entered) + (if p.stop.Some? then [] else Core(b, s, specs)) + Leaves(p.entered)
    && s'.cur == s.cur
    && (p.stop.None? && Insert(b, s, specs).Ok? ==>
          s'.specs == Answered(Insert(b, s, specs).value, specs, Reports(b, s, specs)))
  }

  lemma {:induction false} AfterTheCall(b: Bulk, i: nat, k: nat, p: Hook, last: Outcome, m: nat, s: State)
    requires ValidBulk(b) && ValidState(b, s) && i < |b.hooks| && k < |b.hooks[i]| && m < |s.muts| && Filled(s, i)
    requires Returns(p)
    ensures var (o, s') := RunProgram(b, i, k, p, last, m, s);
            o == last && s'.trace == s.trace && s'.rows == s.rows && s'.cur == s.cur && s'.specs == s.specs
    decreases p
  {
    match p
    case Finish(_) =>
    case Edit(edit, rest) => AfterTheCall(b, i, k, rest, last, m, SetFields(s, m, edit(s.muts[m].fields)));
    case Inspect(test, yes, no) => AfterTheCall(b, i, k, if test(s.muts[m].fields) then yes else no, last, m, s);
  }

  /** A hook puts its own two events around the plan of the call it makes. */
  lemma Wrapped(b: Bulk, i: nat, k: nat, s: State, s1: State, p: Plan, o: Outcome, s2: State, s3: State)
    requires Filled(s, i) && Filled(s1, i) && Follows(b, i, s1, p, o, s2)
    requires s1.trace == s.trace + [Enter(i, k)] && s1.rows == s.rows && s1.cur == s.cur && s1.specs == s.specs
    requires s1.requests == s.requests
    requires s3.trace == s2.trace && s3.rows == s2.rows && s3.cur == s2.cur && s3.specs == s2.specs
    ensures Follows(b, i, s, Plan([(i, k)] + p.entered, p.specs, p.stop), o, Log(s3, Leave(i, k)))
  {
    assert EarlierSpecs(s1, i) == EarlierSpecs(s, i);
    assert Enters([(i, k)] + p.entered) == [Enter(i, k)] + Enters(p.entered);
    assert Leaves([(i, k)] + p.entered) == Leaves(p.entered) + [Leave(i, k)];
  }

  // ---------------------------------------------------------------- what each builder starts from

  /** The fields with which a builder by itself passes its hooks from k on and its check. */
  function Admit(hs: seq<Hook>, k: nat, f: Fields): Result<Fields, Error>
    requires k <= |hs|
    decreases |hs| - k
  {
    if k == |hs| then (if Check(f).Some? then Err(Check(f).value) else Ok(f))
    else match Before(hs[k], f)
         case Err(e) => Err(e)
         case Ok(f') => Admit(hs, k + 1, f')
  }

  /** The mutation of each position. */
  function Places(b: Bulk, s: State): (at: seq<nat>)
    requires ValidBulk(b) && ValidState(b, s)
    ensures |at| == |b.hooks| && forall n :: 0 <= n < |at| ==> at[n] == s.cur[b.who[n]] < |s.muts|
  {
    seq(|b.hooks|, n requires 0 <= n < |b.hooks| => s.cur[b.who[n]])
  }

  /** The fields of every mutation. */
  function Store(s: State): (store: seq<Fields>)
    ensures |store| == |s.muts| && forall x :: 0 <= x < |store| ==> store[x] == s.muts[x].fields
  {
    seq(|s.muts|, x requires 0 <= x < |s.muts| => s.muts[x].fields)
  }

  predicate Fits(b: Bulk, at: seq<nat>, store: seq<Fields>) {
    |at| == |b.hooks| && forall n :: 0 <= n < |at| ==> at[n] < |store|
  }

  /**
    The fields with which positions i, i + 1, ... enter the chain: those of their mutation, as the
    hooks of the positions before have left it. Positions that share a mutation see each other's edits.
   */
  function Entering(b: Bulk, at: seq<nat>, store: seq<Fields>, i: nat): (fs: seq<Fields>)
    requires Fits(b, at, store) && i <= |at|
    ensures |fs| == |at| - i
    decreases |at| - i
  {
    if i == |at| then []
    else
      match Admit(b.hooks[i], 0, store[at[i]])
      case Ok(f) => [store[at[i]]] + Entering(b, at, store[at[i] := f], i + 1)
      case Err(_) => [store[at[i]]] + Entering(b, at, store, i + 1)
  }

  /** The fields with which each position enters a save. */
  function EnteringFields(b: Bulk, s: State): (fs: seq<Fields>)
    requires ValidBulk(b) && ValidState(b, s)
    ensures |fs| == |b.hooks|
  {
    Entering(b, Places(b, s), Store(s), 0)
  }

  /** Where no two positions share a mutation, each enters with its own fields. */
  lemma {:induction false} EnteringIsOwn(b: Bulk, at: seq<nat>, store: seq<Fields>, i: nat)
    requires Fits(b, at, store) && i <= |at| && forall x, y :: i <= x < y < |at| ==> at[x] != at[y]
    ensures forall n :: i <= n < |at| ==> Entering(b, at, store, i)[n - i] == store[at[n]]
    decreases |at| - i
  {
    if i < |at| {
      match Admit(b.hooks[i], 0, store[at[i]])
      case Ok(f) => EnteringIsOwn(b, at, store[at[i] := f], i + 1);
      case Err(_) => EnteringIsOwn(b, at, store, i + 1);
    }
  }

  /**
    The premises under which a run at position i is predicted by its plan: once this position is
    admitted, the later ones enter with the fields `fs`.
   */
  ghost predicate Ready(b: Bulk, fs: seq<Fields>, i: nat, k: nat, m: nat, s: State) {
    && ValidBulk(b) && ValidState(b, s) && AllPassThrough(b)
    && i < |b.hooks| == |fs| && k <= |b.hooks[i]| && Filled(s, i) && m == s.cur[b.who[i]]
    && Leads(b, fs, i, m, Admit(b.hooks[i], k, s.muts[m].fields), s)
  }

  ghost predicate Leads(b: Bulk, fs: seq<Fields>, i: nat, m: nat, admitted: Result<Fields, Error>, s: State)
    requires ValidBulk(b) && ValidState(b, s) && i < |b.hooks| == |fs| && m < |s.muts|
  {
    admitted.Ok? ==> fs[i + 1..] == Entering(b, Places(b, s), Store(s)[m := admitted.value], i + 1)
  }

  /** Edits do not matter to the later positions except through what is admitted in the end. */
  lemma EditLeads(b: Bulk, fs: seq<Fields>, i: nat, m: nat, admitted: Result<Fields, Error>, s: State, f: Fields)
    requires ValidBulk(b) && ValidState(b, s) && i < |b.hooks| == |fs| && m < |s.muts|
    requires Leads(b, fs, i, m, admitted, s)
    ensures Leads(b, fs, i, m, admitted, SetFields(s, m, f))
  {
    var s' := SetFields(s, m, f);
    assert Places(b, s') == Places(b, s);
    if admitted.Ok? {
      assert Store(s')[m := admitted.value] == Store(s)[m := admitted.value];
    }
  }

  lemma {:induction false} HooksFollowPlan(b: Bulk, fs: seq<Fields>, i: nat, k: nat, m: nat, s: State)
    requires Ready(b, fs, i, k, m, s)
    ensures var (o, s') := RunHooks(b, i, k, m, s);
            Follows(b, i, s, PlanFrom(b, fs, i, k, s.muts[m].fields), o, s')
    decreases |b.hooks| - i, |b.hooks[i]| - k, 2, Finish(Succeed)
  {
    if k == |b.hooks[i]| {
      BaseFollowsPlan(b, fs, i, m, s);
    } else {
      LogLeads(b, fs, i, k, m, s, Enter(i, k));
      ProgramFollowsPlan(b, fs, i, k, b.hooks[i][k], m, s, Log(s, Enter(i, k)));
    }
  }

  lemma LogLeads(b: Bulk, fs: seq<Fields>, i: nat, k: nat, m: nat, s: State, e: Event)
    requires Ready(b, fs, i, k, m, s)
    ensures Ready(b, fs, i, k, m, Log(s, e))
  {
    assert Places(b, Log(s, e)) == Places(b, s) && Store(Log(s, e)) == Store(s);
  }

  /** `s` is the state in which hook (i, k) was entered; `s1` the state its program has reached. */
  lemma {:induction false} ProgramFollowsPlan(b: Bulk, fs: seq<Fields>, i: nat, k: nat, p: Hook, m: nat, s: State,
                                              s1: State)
    requires Ready(b, fs, i, k, m, s) && k < |b.hooks[i]| && PassesThrough(p)
    requires ValidState(b, s1) && Filled(s1, i) && m < |s1.muts|
    requires Leads(b, fs, i, m, Admit(b.hooks[i], k, s.muts[m].fields), s1)
    requires s1.trace == s.trace + [Enter(i, k)] && s1.rows == s.rows && s1.cur == s.cur && s1.specs == s.specs
    requires s1.requests == s.requests
    requires Before(p, s1.muts[m].fields) == Before(b.hooks[i][k], s.muts[m].fields)
    ensures var (o, s') := RunProgram(b, i, k, p, Done, m, s1);
            Follows(b, i, s, PlanFrom(b, fs, i, k, s.muts[m].fields), o, Log(s', Leave(i, k)))
    decreases |b.hooks| - i, |b.hooks[i]| - k, 1, p
  {
    match p
    case Finish(_) =>
    case Edit(edit, rest) =>
      EditLeads(b, fs, i, m, Admit(b.hooks[i], k, s.muts[m].fields), s1, edit(s1.muts[m].fields));
      ProgramFollowsPlan(b, fs, i, k, rest, m, s, SetFields(s1, m, edit(s1.muts[m].fields)));
    case Inspect(test, yes, no) =>
      ProgramFollowsPlan(b, fs, i, k, if test(s1.muts[m].fields) then yes else no, m, s, s1);
    case Next(_, onDone, onError) =>
      assert Before(b.hooks[i][k], s.muts[m].fields) == Ok(s1.muts[m].fields);
      HooksFollowPlan(b, fs, i, k + 1, m, s1);
      var (o, s2) := RunHooks(b, i, k + 1, m, s1);
      AfterTheCall(b, i, k, if o.Done? then onDone else onError, o, m, s2);
      var after := RunProgram(b, i, k, if o.Done? then onDone else onError, o, m, s2).1;
      Wrapped(b, i, k, s, s1, PlanFrom(b, fs, i, k + 1, s1.muts[m].fields), o, s2, after);
  }

  lemma AdoptsItsOwn(b: Bulk, i: nat, m: nat, s: State)
    requires ValidBulk(b) && ValidState(b, s) && i < |b.hooks| && m == s.cur[b.who[i]]
    ensures Adopt(b, i, m, s) == (m, s)
  {
    assert s.muts[m := s.muts[m]] == s.muts;
  }

  /** Building position i readies position i + 1. */
  lemma BuildReadiesNext(b: Bulk, fs: seq<Fields>, i: nat, m: nat, s: State)
    requires i < |b.hooks| && Ready(b, fs, i, |b.hooks[i]|, m, s) && Check(s.muts[m].fields).None?
    ensures var s1 := Build(b, i, m, s);
            && s1.cur == s.cur && s1.rows == s.rows && s1.trace == s.trace && s1.requests == s.requests
            && EarlierSpecs(s1, i + 1) == EarlierSpecs(s, i) + [Settable(s.muts[m].fields)]
            && (i + 1 < |b.hooks| ==> Ready(b, fs, i + 1, 0, s1.cur[b.who[i + 1]], s1))
            && (i + 1 < |b.hooks| ==> s1.muts[s1.cur[b.who[i + 1]]].fields == fs[i + 1])
  {
    var s1 := Build(b, i, m, s);
    assert s1.cur == s.cur && Places(b, s1) == Places(b, s);
    assert Store(s)[m := s.muts[m].fields] == Store(s) == Store(s1);
    if i + 1 < |b.hooks| {
      assert fs[i + 1..][0] == fs[i + 1] && fs[i + 1..][1..] == fs[i + 2..];
    }
  }

  /** At the last position the plan is the batch. */
  lemma BatchFollowsPlan(b: Bulk, s: State)
    requires ValidBulk(b) && ValidState(b, s) && Filled(s, |b.hooks|)
    ensures var (o, s') := BatchCreate(b, s);
            Follows(b, |b.hooks|, s, Plan([], [], None), o, s')
  {
    assert SpecFields(s) == EarlierSpecs(s, |b.hooks|) + [];
  }

  lemma {:induction false} BaseFollowsPlan(b: Bulk, fs: seq<Fields>, i: nat, m: nat, s: State)
    requires i < |b.hooks| && Ready(b, fs, i, |b.hooks[i]|, m, s)
    ensures var (o, s') := RunBase(b, i, m, s);
            Follows(b, i, s, PlanFrom(b, fs, i, |b.hooks[i]|, s.muts[m].fields), o, s')
    decreases |b.hooks| - i, 0, 0, Finish(Succeed)
  {
    AdoptsItsOwn(b, i, m, s);
    if Check(s.muts[m].fields).None? {
      BuildReadiesNext(b, fs, i, m, s);
      var s1 := Build(b, i, m, s);
      if i + 1 < |b.hooks| {
        var m1 := s1.cur[b.who[i + 1]];
        HooksFollowPlan(b, fs, i + 1, 0, m1, s1);
        var (o, s2) := RunHooks(b, i + 1, 0, m1, s1);
        assert RunRest(b, i, s1) == (o, s2);
        Prefixed(b, i, s, Settable(s.muts[m].fields), s1, PlanFrom(b, fs, i + 1, 0, fs[i + 1]), o, s2,
                 RunBase(b, i, m, s).1);
      } else {
        BatchFollowsPlan(b, s1);
        var (o, s2) := BatchCreate(b, s1);
        assert RunRest(b, i, s1) == (o, s2);
        assert [Settable(s.muts[m].fields)] + [] == [Settable(s.muts[m].fields)];
        Prefixed(b, i, s, Settable(s.muts[m].fields), s1, Plan([], [], None), o, s2, RunBase(b, i, m, s).1);
      }
    }
  }

  /** A position puts its specification in front of those of the rest of the chain. */
  lemma Prefixed(b: Bulk, i: nat, s: State, spec: Fields, s1: State, p: Plan, o: Outcome, s2: State, s3: State)
    requires Filled(s, i) && Filled(s1, i + 1) && Follows(b, i + 1, s1, p, o, s2)
    requires s1.trace == s.trace && s1.rows == s.rows && s1.cur == s.cur && s1.requests == s.requests
    requires EarlierSpecs(s1, i + 1) == EarlierSpecs(s, i) + [spec]
    requires s3.trace == s2.trace && s3.rows == s2.rows && s3.cur == s2.cur && s3.specs == s2.specs
    ensures Follows(b, i, s, Plan(p.entered, [spec] + p.specs, p.stop), o, s3)
  {
    assert EarlierSpecs(s, i) + ([spec] + p.specs) == EarlierSpecs(s1, i + 1) + p.specs;
  }
}
