/** The guarantees of `ChangeOrderCreateBulk.Save`, and how it compares with saving one by one. */
module BulkSaveTheorems {
  import opened Relational
  import opened RowCodec
  import opened ChangeOrderFields
  import opened MutatorChain
  import opened HookNesting
  import opened ChainSafety
  import opened NodeDelivery
  import opened DoneMutations
  import opened CheckedRows

  /** The plan of a whole save. */
  function PlanOf(b: Bulk, s: State): Plan
    requires ValidBulk(b) && ValidState(b, s) && |b.hooks| > 0
  {
    PlanFrom(b, EnteringFields(b, s), 0, 0, EnteringFields(b, s)[0])
  }

  lemma SaveFollowsPlan(b: Bulk, s: State)
    requires ValidBulk(b) && ValidState(b, s) && AllPassThrough(b) && |b.hooks| > 0
    ensures var (o, s') := RunChain(b, s); Follows(b, 0, s, PlanOf(b, s), o, s')
  {
    var fs := EnteringFields(b, s);
    assert fs[0] == s.muts[s.cur[b.who[0]]].fields;
    HooksFollowPlan(b, fs, 0, 0, s.cur[b.who[0]], s);
  }

  /** Where no two positions share a mutation, each enters the chain with its own fields. */
  lemma SeparateEnterWithOwn(b: Bulk, s: State)
    requires ValidBulk(b) && ValidState(b, s) && Separate(b, s)
    ensures EnteringFields(b, s) == OwnFields(b, s)
  {
    var at := Places(b, s);
    forall x, y | 0 <= x < y < |at|
      ensures at[x] != at[y]
    {
      assert at[x] == Own(b, s, x) && at[y] == Own(b, s, y);
    }
    EnteringIsOwn(b, at, Store(s), 0);
    assert forall n :: 0 <= n < |at| ==> EnteringFields(b, s)[n] == EnteringFields(b, s)[n - 0] == OwnFields(b, s)[n];
  }

  // ---------------------------------------------------------------- the order of hooks

  /** Builder order, and within a builder list order: the first hook is the outermost. */
  predicate Precedes(x: (nat, nat), y: (nat, nat)) {
    x.0 < y.0 || (x.0 == y.0 && x.1 < y.1)
  }

  predicate IsSlot(b: Bulk, x: (nat, nat)) {
    x.0 < |b.hooks| && x.1 < |b.hooks[x.0]|
  }

  /** These are hooks from (i, k) on, in order and without a gap; all of them if the plan is not stopped. */
  ghost predicate EntersFrom(b: Bulk, i: nat, k: nat, p: Plan) {
    && (forall x :: x in p.entered ==> IsSlot(b, x) && !Precedes(x, (i, k)))
    && (forall u, v :: 0 <= u < v < |p.entered| ==> Precedes(p.entered[u], p.entered[v]))
    && (forall x, y :: IsSlot(b, x) && !Precedes(x, (i, k)) && y in p.entered && Precedes(x, y) ==> x in p.entered)
    && (p.stop.None? ==> forall x :: IsSlot(b, x) && !Precedes(x, (i, k)) ==> x in p.entered)
  }

  /** The hooks a plan enters are in order, and none is skipped; a plan that is not stopped enters all. */
  lemma {:induction false} PlanEntersInOrder(b: Bulk, fs: seq<Fields>, i: nat, k: nat, f: Fields)
    requires i < |b.hooks| == |fs| && k <= |b.hooks[i]|
    ensures EntersFrom(b, i, k, PlanFrom(b, fs, i, k, f))
    decreases |b.hooks| - i, |b.hooks[i]| - k
  {
    if k < |b.hooks[i]| {
      match Before(b.hooks[i][k], f)
      case Err(_) =>
      case Ok(f') =>
        PlanEntersInOrder(b, fs, i, k + 1, f');
        EntersOneMore(b, i, k, PlanFrom(b, fs, i, k + 1, f'));
    } else if Check(f).None? && i + 1 < |b.hooks| {
      PlanEntersInOrder(b, fs, i + 1, 0, fs[i + 1]);
    }
  }

  lemma EntersOneMore(b: Bulk, i: nat, k: nat, p: Plan)
    requires i < |b.hooks| && k < |b.hooks[i]| && EntersFrom(b, i, k + 1, p)
    ensures EntersFrom(b, i, k, Plan([(i, k)] + p.entered, p.specs, p.stop))
  {
    assert forall x :: x in p.entered ==> Precedes((i, k), x);
    assert forall v :: 0 <= v < |p.entered| ==> p.entered[v] in p.entered;
    assert forall x: (nat, nat) :: !Precedes(x, (i, k)) ==> x == (i, k) || !Precedes(x, (i, k + 1));
  }

  lemma TraceOfSave(b: Bulk, s: State)
    requires ValidBulk(b) && ValidState(b, s) && AllPassThrough(b) && |b.hooks| > 0
    ensures var p := PlanOf(b, s);
            RunChain(b, s).1.trace
            == s.trace + Enters(p.entered) + (if p.stop.Some? then [] else Core(b, s, p.specs)) + Leaves(p.entered)
  {
    SaveFollowsPlan(b, s);
    var p := PlanOf(b, s);
    assert EarlierSpecs(s, 0) + p.specs == p.specs;
  }

  /** t continues `before`: these hooks are entered in order, then `core`, then they are left in reverse. */
  ghost predicate Nested(before: seq<Event>, entered: seq<(nat, nat)>, core: seq<Event>, t: seq<Event>) {
    var n := |entered|;
    && |t| == |before| + 2 * n + |core| && t[..|before|] == before
    && (forall x :: 0 <= x < n ==> t[|before| + x] == Enter(entered[x].0, entered[x].1))
    && (forall x :: 0 <= x < n ==> t[|t| - 1 - x] == Leave(entered[x].0, entered[x].1))
    && t[|before| + n..|t| - n] == core
  }

  lemma NestedPositions(before: seq<Event>, entered: seq<(nat, nat)>, core: seq<Event>, t: seq<Event>)
    requires t == before + Enters(entered) + core + Leaves(entered)
    ensures Nested(before, entered, core, t)
  {
    var n := |entered|;
    FourParts(before, Enters(entered), core, Leaves(entered), t);
    forall x | 0 <= x < n
      ensures t[|before| + x] == Enter(entered[x].0, entered[x].1)
    {
      assert t[|before|..|before| + n][x] == Enters(entered)[x];
    }
    forall x | 0 <= x < n
      ensures t[|t| - 1 - x] == Leave(entered[x].0, entered[x].1)
    {
      assert t[|t| - n..][n - 1 - x] == Leaves(entered)[n - 1 - x];
    }
  }

  lemma FourParts<T>(a: seq<T>, b: seq<T>, c: seq<T>, d: seq<T>, t: seq<T>)
    requires t == a + b + c + d
    ensures t[..|a|] == a && t[|a|..|a| + |b|] == b && t[|a| + |b|..|t| - |d|] == c && t[|t| - |d|..] == d
  {
  }

  /** Every hook is entered in order; only a stop leaves hooks out, and then only later ones. */
  ghost predicate InOrder(b: Bulk, p: Plan) {
    && (forall u, v :: 0 <= u < v < |p.entered| ==> Precedes(p.entered[u], p.entered[v]))
    && (forall x :: x in p.entered ==> IsSlot(b, x))
    && (forall x, y :: IsSlot(b, x) && y in p.entered && Precedes(x, y) ==> x in p.entered)
    && (p.stop.None? ==> forall x :: IsSlot(b, x) ==> x in p.entered)
  }

  lemma PlanIsInOrder(b: Bulk, s: State)
    requires ValidBulk(b) && ValidState(b, s) && |b.hooks| > 0
    ensures InOrder(b, PlanOf(b, s))
  {
    PlanEntersInOrder(b, EnteringFields(b, s), 0, 0, EnteringFields(b, s)[0]);
    assert forall x: (nat, nat) :: !Precedes(x, (0, 0));
  }

  /**
    The trace of a save is perfectly nested, for any builders, even repeated ones: hooks are entered
    in builder and list order, the database is called exactly once if nothing stops the chain and
    not at all otherwise, and the hooks are left in exactly the reverse order. An empty bulk makes
    no call.
   */
  lemma TraceIsNested(b: Bulk, s: State)
    requires ValidBulk(b) && ValidState(b, s) && AllPassThrough(b)
    ensures |b.hooks| == 0 ==> RunChain(b, s) == (Done, s)
    ensures |b.hooks| > 0 ==>
              var p := PlanOf(b, s);
              var core := if p.stop.Some? then [] else [Batch(p.specs, Insert(b, s, p.specs).Ok?)];
              InOrder(b, p) && Nested(s.trace, p.entered, core, RunChain(b, s).1.trace)
  {
    if |b.hooks| > 0 {
      PlanIsInOrder(b, s);
      TraceOfSave(b, s);
      var p := PlanOf(b, s);
      var core := if p.stop.Some? then [] else Core(b, s, p.specs);
      NestedPositions(s.trace, p.entered, core, RunChain(b, s).1.trace);
    }
  }

  // ---------------------------------------------------------------- when the database is reached

  predicate Admitted(b: Bulk, fs: seq<Fields>, n: nat)
    requires n < |b.hooks| == |fs|
  {
    Admit(b.hooks[n], 0, fs[n]).Ok?
  }

  /** What a plan from position i makes of the later positions, if position i passes with `first`. */
  ghost predicate Admits(b: Bulk, fs: seq<Fields>, i: nat, first: Result<Fields, Error>, p: Plan)
    requires i < |b.hooks| == |fs|
  {
    && (p.stop.None? <==> first.Ok? && forall n :: i < n < |fs| ==> Admitted(b, fs, n))
    && (p.stop.None? ==> |p.specs| == |fs| - i && p.specs[0] == Settable(first.value))
    && (p.stop.None? ==> forall n :: 0 < n < |p.specs| ==> HasSpec(b, fs, i + n, p.specs[n]))
    && (first.Err? ==> p.stop == Some(first.error))
    && (forall n :: IsRefused(b, fs, i, n) && first.Ok? ==> p.stop == Some(Admit(b.hooks[n], 0, fs[n]).error))
  }

  predicate HasSpec(b: Bulk, fs: seq<Fields>, n: nat, spec: Fields)
    requires n < |b.hooks| == |fs|
  {
    Admitted(b, fs, n) && spec == Settable(Admit(b.hooks[n], 0, fs[n]).value)
  }

  /** Position n is the first after i that is not admitted. */
  ghost predicate IsRefused(b: Bulk, fs: seq<Fields>, i: nat, n: int)
    requires |b.hooks| == |fs|
  {
    i < n < |fs| && !Admitted(b, fs, n) && forall l :: i < l < n ==> Admitted(b, fs, l)
  }

  /** A plan is stopped by the first builder that is not admitted, with that builder's error. */
  lemma {:induction false} PlanIsAdmission(b: Bulk, fs: seq<Fields>, i: nat, k: nat, f: Fields)
    requires i < |b.hooks| == |fs| && k <= |b.hooks[i]|
    ensures Admits(b, fs, i, Admit(b.hooks[i], k, f), PlanFrom(b, fs, i, k, f))
    decreases |b.hooks| - i, |b.hooks[i]| - k
  {
    if k < |b.hooks[i]| {
      match Before(b.hooks[i][k], f)
      case Err(_) =>
      case Ok(f') => PlanIsAdmission(b, fs, i, k + 1, f');
    } else if Check(f).None? && i + 1 < |b.hooks| {
      PlanIsAdmission(b, fs, i + 1, 0, fs[i + 1]);
      AdmitsNext(b, fs, i, f, PlanFrom(b, fs, i + 1, 0, fs[i + 1]));
    }
  }

  lemma AdmitsNext(b: Bulk, fs: seq<Fields>, i: nat, f: Fields, p: Plan)
    requires i + 1 < |b.hooks| == |fs| && Admits(b, fs, i + 1, Admit(b.hooks[i + 1], 0, fs[i + 1]), p)
    ensures Admits(b, fs, i, Ok(f), Plan(p.entered, [Settable(f)] + p.specs, p.stop))
  {
    var q := Plan(p.entered, [Settable(f)] + p.specs, p.stop);
    assert Admitted(b, fs, i + 1) <==> Admit(b.hooks[i + 1], 0, fs[i + 1]).Ok?;
    if q.stop.None? {
      forall n | 0 < n < |q.specs|
        ensures HasSpec(b, fs, i + n, q.specs[n])
      {
        assert q.specs[n] == p.specs[n - 1];
        assert n > 1 ==> HasSpec(b, fs, i + 1 + (n - 1), p.specs[n - 1]);
      }
    }
    forall n | IsRefused(b, fs, i, n)
      ensures q.stop == Some(Admit(b.hooks[n], 0, fs[n]).error)
    {
      assert n > i + 1 ==> IsRefused(b, fs, i + 1, n);
    }
  }

  /** The rows of builders lo, ..., hi - 1. */
  function AdmittedSpecs(b: Bulk, fs: seq<Fields>, lo: nat, hi: nat): (specs: seq<Fields>)
    requires lo <= hi <= |b.hooks| == |fs| && forall n :: lo <= n < hi ==> Admitted(b, fs, n)
    ensures |specs| == hi - lo
  {
    seq(hi - lo, n requires 0 <= n < hi - lo =>
      assert Admitted(b, fs, lo + n);
      Settable(Admit(b.hooks[lo + n], 0, fs[lo + n]).value))
  }

  /** The inserts that a run adds to the trace. */
  function BatchesSince(s: State, s': State): seq<Event>
    requires |s.trace| <= |s'.trace|
  {
    Filter(s'.trace[|s.trace|..], IsBatch)
  }

  /** Hooks are not inserts. */
  lemma NestedBatches(before: seq<Event>, entered: seq<(nat, nat)>, core: seq<Event>, t: seq<Event>)
    requires t == before + Enters(entered) + core + Leaves(entered)
    ensures |before| <= |t| && t[..|before|] == before && Filter(t[|before|..], IsBatch) == Filter(core, IsBatch)
    ensures Commits(t) == Commits(before) + Commits(core)
  {
    var rest := Enters(entered) + core + Leaves(entered);
    assert t == before + rest && t[|before|..] == rest;
    OnlyTheCore(entered, core, IsBatch);
    OnlyTheCore(entered, core, IsCommit);
    FilterConcat(before, rest, IsCommit);
  }

  lemma OnlyTheCore(entered: seq<(nat, nat)>, core: seq<Event>, p: Event -> bool)
    requires forall e: Event :: p(e) ==> e.Batch?
    ensures Filter(Enters(entered) + core + Leaves(entered), p) == Filter(core, p)
  {
    FilterConcat(Enters(entered) + core, Leaves(entered), p);
    FilterConcat(Enters(entered), core, p);
    FilterNone(Enters(entered), p);
    FilterNone(Leaves(entered), p);
  }

  /** The inserts of a save with pass-through hooks: the batch of its plan, unless it is stopped. */
  lemma PlannedBatches(b: Bulk, s: State)
    requires ValidBulk(b) && ValidState(b, s) && AllPassThrough(b) && |b.hooks| > 0
    ensures var p := PlanOf(b, s);
            var ok := Insert(b, s, p.specs).Ok?;
            var s' := RunChain(b, s).1;
            && s.trace <= s'.trace
            && BatchesSince(s, s') == (if p.stop.Some? then [] else [Batch(p.specs, ok)])
            && Commits(s'.trace) == Commits(s.trace) + if p.stop.None? && ok then 1 else 0
  {
    TraceOfSave(b, s);
    var p := PlanOf(b, s);
    var core := if p.stop.Some? then [] else Core(b, s, p.specs);
    NestedBatches(s.trace, p.entered, core, RunChain(b, s).1.trace);
  }

  /**
    All or nothing, exactly: with pass-through hooks the batch is sent iff every builder is
    admitted; then it holds one row per builder, in order, and is stored iff the database accepts
    it. Otherwise the database is not called and the error is that of the first builder not
    admitted. Unless the batch is stored, nothing is, and no mutation is marked done.
   */
  lemma BulkSaveExactly(b: Bulk, s: State) returns (admitted: nat)
    requires ValidBulk(b) && ValidState(b, s) && AllPassThrough(b) && |b.hooks| > 0
    ensures admitted <= |b.hooks| && forall n :: 0 <= n < admitted ==> Admitted(b, EnteringFields(b, s), n)
    ensures s.trace <= RunChain(b, s).1.trace
    ensures var fs := EnteringFields(b, s);
            var (o, s') := RunChain(b, s);
            if admitted < |fs| then
              && !Admitted(b, fs, admitted) && o == Failed(Admit(b.hooks[admitted], 0, fs[admitted]).error)
              && BatchesSince(s, s') == [] && s'.rows == s.rows && NoNewDone(s, s')
            else
              var specs := AdmittedSpecs(b, fs, 0, |fs|);
              match Insert(b, s, specs)
              case Ok(ids) =>
                && o == Done && BatchesSince(s, s') == [Batch(specs, true)]
                && s'.rows == s.rows + Inserted(b.json, ids, specs)
              case Err(e) =>
                && o == Failed(e) && BatchesSince(s, s') == [Batch(specs, false)]
                && s'.rows == s.rows && NoNewDone(s, s')
  {
    SaveFollowsPlan(b, s);
    PlannedBatches(b, s);
    assert EarlierSpecs(s, 0) + PlanOf(b, s).specs == PlanOf(b, s).specs;
    admitted := StopIsFirstRefusal(b, EnteringFields(b, s));
    AllPassThroughIsHonest(b);
    NothingBeforeCommit(b, s);
  }

  /** A refused batch stores nothing, and its error says whether a constraint was violated. */
  lemma RefusalIsReported(b: Bulk, s: State, constraint: bool)
    requires ValidBulk(b) && ValidState(b, s) && AllPassThrough(b) && |b.hooks| > 0
    requires forall n :: 0 <= n < |b.hooks| ==> Admitted(b, EnteringFields(b, s), n)
    requires b.backend(|s.requests|, s.rows, AdmittedSpecs(b, EnteringFields(b, s), 0, |b.hooks|)) == Refuse(constraint)
    ensures var (o, s') := RunChain(b, s);
            o == Failed(if constraint then Constraint else Driver) && s'.rows == s.rows && NoNewDone(s, s')
  {
    var admitted := BulkSaveExactly(b, s);
  }

  lemma StopIsFirstRefusal(b: Bulk, fs: seq<Fields>) returns (admitted: nat)
    requires 0 < |fs| == |b.hooks|
    ensures admitted <= |fs| && forall n :: 0 <= n < admitted ==> Admitted(b, fs, n)
    ensures var p := PlanFrom(b, fs, 0, 0, fs[0]);
            if admitted < |fs| then
              !Admitted(b, fs, admitted) && p.stop == Some(Admit(b.hooks[admitted], 0, fs[admitted]).error)
            else p.stop.None? && p.specs == AdmittedSpecs(b, fs, 0, |fs|)
  {
    admitted := 0;
    while admitted < |fs| && Admitted(b, fs, admitted)
      invariant admitted <= |fs| && forall n :: 0 <= n < admitted ==> Admitted(b, fs, n)
    {
      admitted := admitted + 1;
    }
    PlanIsAdmission(b, fs, 0, 0, fs[0]);
    if admitted == |fs| {
      assert Admitted(b, fs, 0);
      var p := PlanFrom(b, fs, 0, 0, fs[0]);
      forall n | 0 < n < |fs|
        ensures p.specs[n] == AdmittedSpecs(b, fs, 0, |fs|)[n]
      {
        assert HasSpec(b, fs, 0 + n, p.specs[n]);
      }
    } else if admitted > 0 {
      assert Admitted(b, fs, 0);
      assert IsRefused(b, fs, 0, admitted);
    }
  }

  // ---------------------------------------------------------------- any hooks

  /**
    Whatever honest hooks do and whatever the builders share, a success means that the database
    accepted a batch, and that every slot holds a node with its fields and its reported ID, under
    which its row is in the table.
   */
  lemma SuccessMeansSaved(b: Bulk, s: State)
    requires ValidBulk(b) && ValidState(b, s) && NodesApart(s) && AllHonest(b)
    requires |b.hooks| > 0 && RunChain(b, s).0.Done?
    ensures var s' := RunChain(b, s).1;
            Commits(s'.trace) > Commits(s.trace) && Delivered(b, s', 0) && NodesApart(s')
  {
    HooksAreTruthful(b, 0, 0, s.cur[b.who[0]], s);
    HooksDeliver(b, 0, 0, s.cur[b.who[0]], s);
  }

  /**
    ... and if no two builders share a mutation, every builder's mutation is done and points at the
    returned node.
   */
  lemma SuccessMarksMutations(b: Bulk, s: State)
    requires ValidBulk(b) && ValidState(b, s) && Separate(b, s) && AllHonest(b)
    requires |b.hooks| > 0 && RunChain(b, s).0.Done?
    ensures AllMarked(b, RunChain(b, s).1, 0)
  {
    forall j | 0 < j < |b.hooks|
      ensures Own(b, s, j) != Own(b, s, 0)
    {
    }
    HooksMark(b, 0, 0, Own(b, s, 0), s);
  }

  /**
    With pass-through hooks that is exactly the condition: after a success every position is
    finished iff no two positions share a mutation, for a mutation can point at one node only.
   */
  lemma FinishedIffSeparate(b: Bulk, s: State)
    requires ValidBulk(b) && ValidState(b, s) && NodesApart(s) && AllPassThrough(b)
    requires |b.hooks| > 0 && RunChain(b, s).0.Done?
    ensures (forall n :: 0 <= n < |b.hooks| ==> Finished(b, RunChain(b, s).1, n)) <==> Separate(b, s)
  {
    var s' := RunChain(b, s).1;
    AllPassThroughIsHonest(b);
    SuccessMeansSaved(b, s);
    SaveFollowsPlan(b, s);
    SameOwn(b, s, s');
    if Separate(b, s) {
      SuccessMarksMutations(b, s);
      assert forall n :: 0 <= n < |b.hooks| ==> Returned(b, s', n) && Marked(b, s', n);
    }
    if forall n :: 0 <= n < |b.hooks| ==> Finished(b, s', n) {
      assert forall n :: 0 <= n < |b.hooks| ==> Finished(b, s', n) ==> Marked(b, s', n);
      MarkedIsSeparate(b, s');
    }
  }

  /** As long as the database has accepted nothing, nothing is stored, nothing is done, and Save fails. */
  lemma NothingBeforeCommit(b: Bulk, s: State)
    requires ValidBulk(b) && ValidState(b, s) && AllHonest(b) && |b.hooks| > 0
    ensures var (o, s') := RunChain(b, s);
            Commits(s'.trace) == Commits(s.trace) ==> o.Failed? && s'.rows == s.rows && NoNewDone(s, s')
  {
    HooksAreTruthful(b, 0, 0, s.cur[b.who[0]], s);
  }

  /** Hooks that call next at most once make Save call the database at most once. */
  lemma AtMostOneBatch(b: Bulk, s: State)
    requires ValidBulk(b) && ValidState(b, s) && AllCallOnce(b)
    ensures Attempts(RunChain(b, s).1.trace) <= Attempts(s.trace) + 1
  {
    if |b.hooks| > 0 {
      HooksAttemptOnce(b, 0, 0, s.cur[b.who[0]], s);
    }
  }

  /** A dishonest hook: Save reports success, has stored nothing and returns slots that hold no node. */
  lemma DishonestHookLosesTheBatch(b: Bulk, s: State)
    requires ValidBulk(b) && ValidState(b, s) && |b.hooks| > 0 && b.hooks[0] == [Finish(Succeed)]
    ensures var (o, s') := RunChain(b, s);
            o.Done? && s'.rows == s.rows && s'.nodes == s.nodes && Commits(s'.trace) == Commits(s.trace)
  {
    var m := s.cur[b.who[0]];
    var s1 := Log(s, Enter(0, 0));
    assert b.hooks[0][0] == Finish(Succeed);
    assert RunProgram(b, 0, 0, Finish(Succeed), Done, m, s1) == (Done, s1);
    assert RunChain(b, s) == (Done, Log(s1, Leave(0, 0)));
    LogCommits(s, Enter(0, 0));
    LogCommits(Log(s, Enter(0, 0)), Leave(0, 0));
  }

  /** Pass-through hooks are honest and call once, so everything above holds of them. */
  lemma {:induction false} PassThroughIsHonest(p: Hook)
    requires PassesThrough(p)
    ensures Honest(p, None) && CallsOnce(p, false) && NeverSubstitutes(p)
  {
    match p
    case Finish(_) =>
    case Edit(_, rest) => PassThroughIsHonest(rest);
    case Inspect(_, yes, no) => PassThroughIsHonest(yes); PassThroughIsHonest(no);
    case Next(_, onDone, onError) => ReturningIsHonest(onDone, true); ReturningIsHonest(onError, false);
  }

  lemma AllPassThroughIsHonest(b: Bulk)
    requires AllPassThrough(b)
    ensures AllHonest(b)
  {
    forall i, k | 0 <= i < |b.hooks| && 0 <= k < |b.hooks[i]|
      ensures Honest(b.hooks[i][k], None)
    {
      PassThroughIsHonest(b.hooks[i][k]);
    }
  }

  lemma {:induction false} ReturningIsHonest(p: Hook, ok: bool)
    requires Returns(p)
    ensures Honest(p, Some(ok)) && CallsOnce(p, true) && NeverSubstitutes(p)
  {
    match p
    case Finish(_) =>
    case Edit(_, rest) => ReturningIsHonest(rest, ok);
    case Inspect(_, yes, no) => ReturningIsHonest(yes, ok); ReturningIsHonest(no, ok);
  }

  // ---------------------------------------------------------------- the entities that are returned

  /** Position n returns this entity. */
  ghost predicate Yields(b: Bulk, s: State, n: nat, entity: EntityValue)
    requires ValidBulk(b) && ValidState(b, s) && n < |b.hooks|
  {
    s.nodes[n].Some? && s.made[s.nodes[n].value] == entity
  }

  /** The entity with these fields; its ID is 0 where the database did not report it. */
  function Created(b: Bulk, s: State, specs: seq<Fields>, ids: seq<int>, n: nat): EntityValue
    requires n < |specs| == |ids|
  {
    EntityValue(if Reports(b, s, specs) then ids[n] else 0, specs[n], map[])
  }

  /** When every builder is admitted and the batch is stored, position n returns the entity of row n. */
  lemma ReturnedEntities(b: Bulk, s: State, n: nat)
    requires ValidBulk(b) && ValidState(b, s) && NodesApart(s) && AllPassThrough(b) && n < |b.hooks|
    requires forall l :: 0 <= l < |b.hooks| ==> Admitted(b, EnteringFields(b, s), l)
    requires Insert(b, s, AdmittedSpecs(b, EnteringFields(b, s), 0, |b.hooks|)).Ok?
    ensures var specs := AdmittedSpecs(b, EnteringFields(b, s), 0, |b.hooks|);
            Yields(b, RunChain(b, s).1, n, Created(b, s, specs, Insert(b, s, specs).value, n))
  {
    var specs := AdmittedSpecs(b, EnteringFields(b, s), 0, |b.hooks|);
    var s' := RunChain(b, s).1;
    SpecsOfSave(b, s);
    AllPassThroughIsHonest(b);
    SuccessMeansSaved(b, s);
    assert Returned(b, s', n);
    assert s'.specs[n] == Answered(Insert(b, s, specs).value, specs, Reports(b, s, specs))[n];
  }

  lemma SpecsOfSave(b: Bulk, s: State)
    requires ValidBulk(b) && ValidState(b, s) && AllPassThrough(b) && |b.hooks| > 0
    requires forall l :: 0 <= l < |b.hooks| ==> Admitted(b, EnteringFields(b, s), l)
    requires Insert(b, s, AdmittedSpecs(b, EnteringFields(b, s), 0, |b.hooks|)).Ok?
    ensures var specs := AdmittedSpecs(b, EnteringFields(b, s), 0, |b.hooks|);
            var (o, s') := RunChain(b, s);
            o.Done? && s'.specs == Answered(Insert(b, s, specs).value, specs, Reports(b, s, specs))
  {
    SaveFollowsPlan(b, s);
    assert EarlierSpecs(s, 0) + PlanOf(b, s).specs == PlanOf(b, s).specs;
    var admitted := StopIsFirstRefusal(b, EnteringFields(b, s));
  }

  // ---------------------------------------------------------------- one by one

  /** Builder n by itself, on the table as it is now. */
  function Single(b: Bulk, n: nat): (one: Bulk)
    requires n < |b.hooks|
    ensures ValidBulk(one)
  {
    Bulk(true, [b.hooks[n]], [0], b.json, b.backend)
  }

  function SingleState(f: Fields, rows: seq<Row>): State {
    State([MutationValue(f, None, false)], [0], [], [None], [None], rows, [], [])
  }

  /**
    Saving builders n, n + 1, ... one after the other, stopping at the first error: the outcome,
    the table, and what each save that succeeded has left behind.
   */
  function SaveOneByOne(b: Bulk, fs: seq<Fields>, n: nat, rows: seq<Row>): (Outcome, seq<Row>, seq<State>)
    requires n <= |b.hooks| == |fs|
    decreases |fs| - n
  {
    if n == |fs| then (Done, rows, [])
    else
      var (o, s) := RunChain(Single(b, n), SingleState(fs[n], rows));
      if o.Failed? then (o, s.rows, [])
      else
        var (o', rows', rest) := SaveOneByOne(b, fs, n + 1, s.rows);
        (o', rows', [s] + rest)
  }

  /** A save by itself: what it stores, and the entity it returns under its ID, with its mutation marked. */
  lemma SingleSaveExactly(b: Bulk, fs: seq<Fields>, n: nat, rows: seq<Row>)
    requires n < |b.hooks| == |fs| && AllPassThrough(b)
    ensures var (o, s) := RunChain(Single(b, n), SingleState(fs[n], rows));
            match Admit(b.hooks[n], 0, fs[n])
            case Err(e) => o == Failed(e) && s.rows == rows && NoNewDone(SingleState(fs[n], rows), s)
            case Ok(f) =>
              match InsertInto(b, 0, rows, [Settable(f)])
              case Ok(ids) =>
                && o == Done && s.rows == rows + Inserted(b.json, ids, [Settable(f)])
                && ValidState(Single(b, n), s) && Marked(Single(b, n), s, 0)
                && Yields(Single(b, n), s, 0, EntityValue(ids[0], Settable(f), map[]))
              case Err(e) => o == Failed(e) && s.rows == rows && NoNewDone(SingleState(fs[n], rows), s)
  {
    var one := Single(b, n);
    var s := SingleState(fs[n], rows);
    var admitted := BulkSaveExactly(one, s);
    assert EnteringFields(one, s)[0] == fs[n];
    assert EnteringFields(one, s) == [fs[n]];
    if Admit(b.hooks[n], 0, fs[n]).Ok? {
      assert Admitted(one, EnteringFields(one, s), 0);
      assert AdmittedSpecs(one, EnteringFields(one, s), 0, 1) == [Settable(Admit(b.hooks[n], 0, fs[n]).value)];
      if InsertInto(b, 0, rows, [Settable(Admit(b.hooks[n], 0, fs[n]).value)]).Ok? {
        assert Insert(one, s, [Settable(Admit(b.hooks[n], 0, fs[n]).value)]).Ok?;
        ReturnedEntities(one, s, 0);
        AllPassThroughIsHonest(one);
        SuccessMarksMutations(one, s);
      }
    } else {
      assert !Admitted(one, EnteringFields(one, s), 0);
    }
  }

  /** The database accepts each of these rows by itself, in this order. */
  predicate AcceptsEach(b: Bulk, rows: seq<Row>, specs: seq<Fields>)
    decreases |specs|
  {
    specs == [] ||
    (InsertInto(b, 0, rows, [specs[0]]).Ok?
     && AcceptsEach(b, rows + Inserted(b.json, InsertInto(b, 0, rows, [specs[0]]).value, [specs[0]]), specs[1..]))
  }

  /** The saves of builders lo, lo + 1, ... have each returned their entity, and marked their mutation. */
  ghost predicate EachYields(b: Bulk, lo: nat, saves: seq<State>, ids: seq<int>, specs: seq<Fields>)
    requires lo + |saves| <= |b.hooks| && |saves| == |ids| == |specs|
  {
    forall n :: 0 <= n < |saves| ==> SavedAs(b, lo + n, saves[n], EntityValue(ids[n], specs[n], map[]))
  }

  ghost predicate SavedAs(b: Bulk, n: nat, s: State, entity: EntityValue)
    requires n < |b.hooks|
  {
    ValidState(Single(b, n), s) && Marked(Single(b, n), s, 0) && Yields(Single(b, n), s, 0, entity)
  }

  /**
    One by one, admitted builders store the same rows in the same order, each under a fresh ID, and
    return the entities of these rows; at the first builder that is not admitted the save stops, and
    what came before it stays stored.
   */
  lemma {:induction false} OneByOneStores(b: Bulk, fs: seq<Fields>, n: nat, hi: nat, rows: seq<Row>)
    returns (ids: seq<int>)
    requires n <= hi <= |b.hooks| == |fs| && AllPassThrough(b)
    requires (forall l :: n <= l < hi ==> Admitted(b, fs, l)) && (hi < |fs| ==> !Admitted(b, fs, hi))
    requires AcceptsEach(b, rows, AdmittedSpecs(b, fs, n, hi))
    ensures |ids| == hi - n && FreshIds(rows, ids)
    ensures var (o, rows', saves) := SaveOneByOne(b, fs, n, rows);
            var specs := AdmittedSpecs(b, fs, n, hi);
            && o == (if hi < |fs| then Failed(Admit(b.hooks[hi], 0, fs[hi]).error) else Done)
            && rows' == rows + Inserted(b.json, ids, specs)
            && |saves| == hi - n && EachYields(b, n, saves, ids, specs)
    decreases hi - n
  {
    var specs := AdmittedSpecs(b, fs, n, hi);
    if n < |fs| {
      SingleSaveExactly(b, fs, n, rows);
    }
    if n == hi {
      ids := [];
      assert rows + Inserted(b.json, ids, specs) == rows;
    } else {
      var first, rows1 := FirstOfEach(b, fs, n, hi, rows);
      var rest := OneByOneStores(b, fs, n + 1, hi, rows1);
      ids := first + rest;
      OneMoreRow(b.json, rows, first, rest, specs);
      OneMoreSave(b, n, RunChain(Single(b, n), SingleState(fs[n], rows)).1, SaveOneByOne(b, fs, n + 1, rows1).2,
                  first, rest, specs);
    }
  }

  /** The first save of those that remain. */
  lemma FirstOfEach(b: Bulk, fs: seq<Fields>, n: nat, hi: nat, rows: seq<Row>)
    returns (first: seq<int>, rows1: seq<Row>)
    requires n < hi <= |b.hooks| == |fs| && AllPassThrough(b) && forall l :: n <= l < hi ==> Admitted(b, fs, l)
    requires AcceptsEach(b, rows, AdmittedSpecs(b, fs, n, hi))
    ensures var (o, s) := RunChain(Single(b, n), SingleState(fs[n], rows));
            var specs := AdmittedSpecs(b, fs, n, hi);
            && |first| == 1 && FreshIds(rows, first) && rows1 == rows + Inserted(b.json, first, [specs[0]])
            && o.Done? && s.rows == rows1 && SavedAs(b, n, s, EntityValue(first[0], specs[0], map[]))
            && specs[1..] == AdmittedSpecs(b, fs, n + 1, hi) && AcceptsEach(b, rows1, specs[1..])
  {
    assert Admitted(b, fs, n);
    var specs := AdmittedSpecs(b, fs, n, hi);
    SingleSaveExactly(b, fs, n, rows);
    first := InsertInto(b, 0, rows, [specs[0]]).value;
    rows1 := rows + Inserted(b.json, first, [specs[0]]);
    assert specs[1..] == AdmittedSpecs(b, fs, n + 1, hi);
  }

  lemma OneMoreSave(b: Bulk, n: nat, s: State, saves: seq<State>, first: seq<int>, rest: seq<int>, specs: seq<Fields>)
    requires n + 1 + |saves| <= |b.hooks| && |saves| == |rest| && |specs| == 1 + |rest| && |first| == 1
    requires SavedAs(b, n, s, EntityValue(first[0], specs[0], map[])) && EachYields(b, n + 1, saves, rest, specs[1..])
    ensures EachYields(b, n, [s] + saves, first + rest, specs)
  {
    forall k | 0 <= k < 1 + |saves|
      ensures SavedAs(b, n + k, ([s] + saves)[k], EntityValue((first + rest)[k], specs[k], map[]))
    {
      if k > 0 {
        assert specs[1..][k - 1] == specs[k];
        assert SavedAs(b, n + 1 + (k - 1), saves[k - 1], EntityValue(rest[k - 1], specs[1..][k - 1], map[]));
      }
    }
  }

  lemma OneMoreRow(j: JsonCodec, rows: seq<Row>, first: seq<int>, rest: seq<int>, specs: seq<Fields>)
    requires |first| == 1 && |specs| == 1 + |rest|
    requires FreshIds(rows, first) && FreshIds(rows + Inserted(j, first, [specs[0]]), rest)
    ensures (rows + Inserted(j, first, [specs[0]])) + Inserted(j, rest, specs[1..])
         == rows + Inserted(j, first + rest, specs)
    ensures FreshIds(rows, first + rest)
  {
    var rows1 := rows + Inserted(j, first, [specs[0]]);
    assert Inserted(j, first + rest, specs) == Inserted(j, first, [specs[0]]) + Inserted(j, rest, specs[1..]);
    assert rows1[|rows|].id == first[0];
    assert forall r :: r in rows ==> r in rows1;
    assert rows1[|rows|] in rows1;
  }

  /**
    Bulk creation agrees with creating one by one, up to the choice of fresh IDs: the same rows are
    stored and the same entities are returned. A database need not report the IDs of a batch; then
    the bulk's entities have ID 0. One by one every mutation is marked; in the bulk they all are
    exactly if no two builders share one. Builders that do share one are saved, one by one, with the
    fields that they have when the bulk reaches them.
   */
  lemma BulkAgreesWithOneByOne(b: Bulk, s: State) returns (ids: seq<int>, each: seq<int>)
    requires ValidBulk(b) && ValidState(b, s) && NodesApart(s) && AllPassThrough(b) && |b.hooks| > 0
    requires forall n :: 0 <= n < |b.hooks| ==> Admitted(b, EnteringFields(b, s), n)
    requires var specs := AdmittedSpecs(b, EnteringFields(b, s), 0, |b.hooks|);
             Insert(b, s, specs).Ok? && AcceptsEach(b, s.rows, specs)
    ensures var specs := AdmittedSpecs(b, EnteringFields(b, s), 0, |b.hooks|);
            var (o, s') := RunChain(b, s);
            var (o', rows', saves) := SaveOneByOne(b, EnteringFields(b, s), 0, s.rows);
            && |ids| == |each| == |saves| == |specs| && FreshIds(s.rows, ids) && FreshIds(s.rows, each)
            && o == Done && s'.rows == s.rows + Inserted(b.json, ids, specs)
            && o' == Done && rows' == s.rows + Inserted(b.json, each, specs)
            && (forall n :: 0 <= n < |specs| ==> Yields(b, s', n, Created(b, s, specs, ids, n)))
            && EachYields(b, 0, saves, each, specs)
            && (Separate(b, s) ==> AllMarked(b, s', 0))
  {
    var specs := AdmittedSpecs(b, EnteringFields(b, s), 0, |b.hooks|);
    var admitted := BulkSaveExactly(b, s);
    ids := Insert(b, s, specs).value;
    each := OneByOneStores(b, EnteringFields(b, s), 0, |b.hooks|, s.rows);
    forall n | 0 <= n < |specs|
      ensures Yields(b, RunChain(b, s).1, n, Created(b, s, specs, ids, n))
    {
      ReturnedEntities(b, s, n);
    }
    AllPassThroughIsHonest(b);
    if Separate(b, s) {
      SuccessMarksMutations(b, s);
    }
  }
}
