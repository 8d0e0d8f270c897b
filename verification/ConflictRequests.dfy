/**
  What conflict options can see. They may be closures that read the builders' mutations when the
  insert is made, so what they find depends on everything that runs between Save and the insert.
 */
module ConflictRequests {
  import opened Relational
  import opened RowCodec
  import opened ChangeOrderFields
  import opened MutatorChain
  import opened DoneMutations

  /** The first n specifications are what their builders' mutations hold. */
  ghost predicate Mirrors(b: Bulk, s: State, n: nat)
    requires ValidBulk(b) && ValidState(b, s) && n <= |b.hooks|
  {
    forall j :: 0 <= j < n ==> Mirror(b, s, j)
  }

  ghost predicate Mirror(b: Bulk, s: State, j: nat)
    requires ValidBulk(b) && ValidState(b, s) && j < |b.hooks|
  {
    s.specs[j].Some? && s.specs[j].value.fields == Settable(s.muts[Own(b, s, j)].fields)
  }

  /** Each row of the request is what its builder's mutation holds at that moment. */
  predicate Mirrored(r: Request) {
    |r.own| == |r.specs| && forall j :: 0 <= j < |r.specs| ==> r.specs[j] == Settable(r.own[j])
  }

  ghost predicate AllMirrored(s: State) {
    forall r :: r in s.requests ==> Mirrored(r)
  }

  /** No two positions share a mutation, and m is not another position's. */
  ghost predicate Holding(b: Bulk, i: nat, m: nat, s: State) {
    && ValidBulk(b) && ValidState(b, s) && i < |b.hooks| && Filled(s, i) && Owns(b, i, m, s) && Separate(b, s)
    && Mirrors(b, s, i) && AllMirrored(s)
  }

  /** Positions before i keep their mutations and these their fields; others keep theirs or get new ones. */
  ghost predicate Steady(b: Bulk, i: nat, m: nat, s: State, s': State)
    requires ValidBulk(b) && ValidState(b, s) && ValidState(b, s') && i < |b.hooks|
  {
    KeepsOwn(b, i, m, s, s') && forall j :: 0 <= j < i ==> KeepsFields(b, s, s', j)
  }

  ghost predicate KeepsFields(b: Bulk, s: State, s': State, j: nat)
    requires ValidBulk(b) && ValidState(b, s) && ValidState(b, s') && j < |b.hooks| && |s.muts| <= |s'.muts|
  {
    s'.muts[Own(b, s, j)].fields == s.muts[Own(b, s, j)].fields
  }

  lemma {:induction false} HooksMirror(b: Bulk, i: nat, k: nat, m: nat, s: State)
    requires Holding(b, i, m, s) && k <= |b.hooks[i]|
    ensures var s' := RunHooks(b, i, k, m, s).1; Holding(b, i, m, s') && Steady(b, i, m, s, s')
    decreases |b.hooks| - i, |b.hooks[i]| - k, 2, Finish(Succeed)
  {
    if k == |b.hooks[i]| {
      BaseMirrors(b, i, m, s);
    } else {
      var s1 := Log(s, Enter(i, k));
      LogMirrors(b, i, m, s, s, Enter(i, k));
      ProgramMirrors(b, i, k, b.hooks[i][k], Done, m, s1);
      var s2 := RunProgram(b, i, k, b.hooks[i][k], Done, m, s1).1;
      SteadyChains(b, i, m, s, m, s1, s2);
      LogMirrors(b, i, m, s, s2, Leave(i, k));
    }
  }

  lemma LogMirrors(b: Bulk, i: nat, m: nat, s: State, s1: State, e: Event)
    requires Holding(b, i, m, s) && Holding(b, i, m, s1) && Steady(b, i, m, s, s1)
    ensures Holding(b, i, m, Log(s1, e)) && Steady(b, i, m, s, Log(s1, e))
  {
    var s2 := Log(s1, e);
    SameOwn(b, s1, s2);
    assert forall j :: 0 <= j < i ==> (Mirror(b, s1, j) ==> Mirror(b, s2, j));
    assert forall j :: 0 <= j < i ==> (KeepsFields(b, s, s1, j) ==> KeepsFields(b, s, s2, j));
  }

  lemma {:induction false} ProgramMirrors(b: Bulk, i: nat, k: nat, p: Hook, last: Outcome, m: nat, s: State)
    requires Holding(b, i, m, s) && k < |b.hooks[i]|
    ensures var s' := RunProgram(b, i, k, p, last, m, s).1; Holding(b, i, m, s') && Steady(b, i, m, s, s')
    decreases |b.hooks| - i, |b.hooks[i]| - k, 1, p
  {
    match p
    case Finish(_) =>
    case Edit(edit, rest) =>
      EditMirrors(b, i, m, s, edit(s.muts[m].fields));
      var s1 := SetFields(s, m, edit(s.muts[m].fields));
      ProgramMirrors(b, i, k, rest, last, m, s1);
      SteadyChains(b, i, m, s, m, s1, RunProgram(b, i, k, p, last, m, s).1);
    case Inspect(test, yes, no) =>
      ProgramMirrors(b, i, k, if test(s.muts[m].fields) then yes else no, last, m, s);
    case Next(handed, onDone, onError) =>
      NextMirrors(b, i, k, handed, m, s);
      var (m', s1) := Hand(handed, m, s);
      var (o, s2) := RunHooks(b, i, k + 1, m', s1);
      ProgramMirrors(b, i, k, if o.Done? then onDone else onError, o, m, s2);
      SteadyChains(b, i, m, s, m, s2, RunProgram(b, i, k, p, last, m, s).1);
  }

  lemma {:induction false} NextMirrors(b: Bulk, i: nat, k: nat, handed: Handed, m: nat, s: State)
    requires Holding(b, i, m, s) && k < |b.hooks[i]|
    ensures var (m', s1) := Hand(handed, m, s);
            m' < |s1.muts| && ValidState(b, s1) && Filled(s1, i)
            && var s2 := RunHooks(b, i, k + 1, m', s1).1;
               Holding(b, i, m, s2) && Steady(b, i, m, s, s2)
    decreases |b.hooks| - i, |b.hooks[i]| - k - 1, 3, Finish(Succeed)
  {
    var (m', s1) := Hand(handed, m, s);
    HandMirrors(b, i, m, s, handed);
    HooksMirror(b, i, k + 1, m', s1);
    CallMirrors(b, i, m, s, m', s1, RunHooks(b, i, k + 1, m', s1).1);
  }

  lemma EditMirrors(b: Bulk, i: nat, m: nat, s: State, f: Fields)
    requires Holding(b, i, m, s)
    ensures Holding(b, i, m, SetFields(s, m, f)) && Steady(b, i, m, s, SetFields(s, m, f))
  {
    var s1 := SetFields(s, m, f);
    SameOwn(b, s, s1);
    forall j | 0 <= j < i
      ensures Mirror(b, s1, j) && KeepsFields(b, s, s1, j)
    {
      assert Mirror(b, s, j) && Own(b, s, j) != m;
    }
  }

  lemma HandMirrors(b: Bulk, i: nat, m: nat, s: State, h: Handed)
    requires Holding(b, i, m, s)
    ensures var (m', s1) := Hand(h, m, s);
            Holding(b, i, m', s1) && (m' == m || m' >= |s.muts|) && s1.cur == s.cur && s1.muts[..|s.muts|] == s.muts
  {
    var (m', s1) := Hand(h, m, s);
    SameOwn(b, s, s1);
    assert forall j :: 0 <= j < i ==> (Mirror(b, s, j) ==> Mirror(b, s1, j));
  }

  /** A call on another mutation still leaves the caller with its own. */
  lemma CallMirrors(b: Bulk, i: nat, m: nat, s: State, m': nat, s1: State, s2: State)
    requires Holding(b, i, m, s) && Holding(b, i, m', s1) && Holding(b, i, m', s2)
    requires |s.muts| <= |s1.muts| && s1.muts[..|s.muts|] == s.muts && s1.cur == s.cur && (m' == m || m' >= |s.muts|)
    requires Steady(b, i, m', s1, s2)
    ensures Holding(b, i, m, s2) && Steady(b, i, m, s, s2)
  {
    SameOwn(b, s, s1);
    forall j | 0 <= j < i
      ensures KeepsFields(b, s, s2, j)
    {
      assert KeepsFields(b, s1, s2, j);
      assert s1.muts[Own(b, s, j)] == s1.muts[..|s.muts|][Own(b, s, j)];
    }
  }

  lemma SteadyChains(b: Bulk, i: nat, m: nat, s: State, m': nat, s1: State, s2: State)
    requires Holding(b, i, m, s) && ValidState(b, s1) && ValidState(b, s2) && (m' == m || m' >= |s.muts|)
    requires Steady(b, i, m, s, s1) && Steady(b, i, m', s1, s2)
    ensures Steady(b, i, m, s, s2)
  {
    forall j | 0 <= j < i
      ensures KeepsFields(b, s, s2, j)
    {
      assert KeepsFields(b, s, s1, j) && KeepsFields(b, s1, s2, j);
    }
  }

  lemma {:induction false} BaseMirrors(b: Bulk, i: nat, m: nat, s: State)
    requires Holding(b, i, m, s)
    ensures var s' := RunBase(b, i, m, s).1; Holding(b, i, m, s') && Steady(b, i, m, s, s')
    decreases |b.hooks| - i, 0, 0, Finish(Succeed)
  {
    AdoptMirrors(b, i, m, s);
    var (m0, s0) := Adopt(b, i, m, s);
    if Check(s0.muts[s0.cur[b.who[i]]].fields).None? {
      BuiltMirrors(b, i, m0, s0);
      var (o, s2) := RunRest(b, i, Build(b, i, m0, s0));
      SettleMirrors(b, i, m0, s0, s2);
      AdoptedMirrors(b, i, m, s, m0, s0, if o.Failed? then s2 else Settle(b, i, m0, s2));
    } else {
      AdoptedMirrors(b, i, m, s, m0, s0, s0);
    }
  }

  /** A single save goes on with its own mutation; there are no positions before it. */
  lemma AdoptMirrors(b: Bulk, i: nat, m: nat, s: State)
    requires Holding(b, i, m, s)
    ensures var (m0, s0) := Adopt(b, i, m, s);
            && Holding(b, i, m0, s0) && Steady(b, i, m0, s0, s0) && s0.cur == s.cur && |s0.muts| == |s.muts|
            && ((m0, s0) == (m, s) || (i == 0 && |b.hooks| == 1 && m0 == Own(b, s, 0)))
  {
    var (m0, s0) := Adopt(b, i, m, s);
    SameOwn(b, s, s0);
    assert b.alone ==> i == 0;
    assert forall j :: 0 <= j < i ==> KeepsFields(b, s0, s0, j);
  }

  lemma AdoptedMirrors(b: Bulk, i: nat, m: nat, s: State, m0: nat, s0: State, s2: State)
    requires Holding(b, i, m, s) && Holding(b, i, m0, s0) && s0.cur == s.cur && |s0.muts| == |s.muts|
    requires (m0, s0) == (m, s) || (i == 0 && |b.hooks| == 1 && m0 == Own(b, s, 0))
    requires Holding(b, i, m0, s2) && Steady(b, i, m0, s0, s2)
    ensures Holding(b, i, m, s2) && Steady(b, i, m, s, s2)
  {
    SameOwn(b, s, s0);
  }

  lemma {:induction false} BuiltMirrors(b: Bulk, i: nat, m: nat, s: State)
    requires Holding(b, i, m, s)
    ensures var s1 := Build(b, i, m, s);
            var s2 := RunRest(b, i, s1).1;
            Holding(b, i, m, s2) && Steady(b, i, m, s, s2) && Filled(s2, i + 1)
    decreases |b.hooks| - i - 1, if i + 1 < |b.hooks| then |b.hooks[i + 1]| else 0, 4, Finish(Succeed)
  {
    BuildMirrors(b, i, m, s);
    RestMirrors(b, i, m, Build(b, i, m, s));
    SteadyChains(b, i, m, s, m, Build(b, i, m, s), RunRest(b, i, Build(b, i, m, s)).1);
  }

  lemma {:induction false} RestMirrors(b: Bulk, i: nat, m: nat, s: State)
    requires Holding(b, i, m, s) && Filled(s, i + 1) && Mirrors(b, s, i + 1) && Own(b, s, i) == m
    requires i + 1 < |b.hooks| ==> Holding(b, i + 1, Own(b, s, i + 1), s)
    ensures var s' := RunRest(b, i, s).1; Holding(b, i, m, s') && Steady(b, i, m, s, s')
    decreases |b.hooks| - i - 1, if i + 1 < |b.hooks| then |b.hooks[i + 1]| else 0, 3, Finish(Succeed)
  {
    if i + 1 < |b.hooks| {
      var m1 := Own(b, s, i + 1);
      HooksMirror(b, i + 1, 0, m1, s);
      LaterIsSteady(b, i, m, s, m1, RunHooks(b, i + 1, 0, m1, s).1);
    } else {
      BatchMirrors(b, i, m, s);
    }
  }

  lemma LaterIsSteady(b: Bulk, i: nat, m: nat, s: State, m1: nat, s': State)
    requires Holding(b, i, m, s) && i + 1 < |b.hooks| && m1 == Own(b, s, i + 1) && Own(b, s, i) == m
    requires Holding(b, i + 1, m1, s) && Holding(b, i + 1, m1, s') && Steady(b, i + 1, m1, s, s')
    ensures Holding(b, i, m, s') && Steady(b, i, m, s, s')
  {
    assert Own(b, s', i) == m;
    assert forall j :: 0 <= j < i ==> Mirror(b, s', j) && KeepsFields(b, s, s', j);
  }

  lemma BatchMirrors(b: Bulk, i: nat, m: nat, s: State)
    requires Holding(b, i, m, s) && i + 1 == |b.hooks| && Filled(s, |b.hooks|) && Mirrors(b, s, |b.hooks|)
    ensures var s' := BatchCreate(b, s).1; Holding(b, i, m, s') && Steady(b, i, m, s, s')
  {
    var s' := BatchCreate(b, s).1;
    SameOwn(b, s, s');
    forall j | 0 <= j < |b.hooks|
      ensures Mirror(b, s', j) && KeepsFields(b, s, s', j) && SpecFields(s)[j] == Settable(OwnFields(b, s)[j])
    {
      assert Mirror(b, s, j);
    }
    assert Mirrored(Request(SpecFields(s), OwnFields(b, s)));
  }

  lemma SettleMirrors(b: Bulk, i: nat, m: nat, s: State, s2: State)
    requires Holding(b, i, m, s) && Holding(b, i, m, s2) && Steady(b, i, m, s, s2) && Filled(s2, i + 1)
    ensures Holding(b, i, m, Settle(b, i, m, s2)) && Steady(b, i, m, s, Settle(b, i, m, s2))
  {
    var s3 := Settle(b, i, m, s2);
    SameOwn(b, s2, s3);
    forall j | 0 <= j < i
      ensures Mirror(b, s3, j) && KeepsFields(b, s, s3, j)
    {
      assert Mirror(b, s2, j) && KeepsFields(b, s, s2, j);
    }
  }

  lemma BuildMirrors(b: Bulk, i: nat, m: nat, s: State)
    requires Holding(b, i, m, s)
    ensures var s1 := Build(b, i, m, s);
            && Steady(b, i, m, s, s1) && Holding(b, i, m, s1) && Mirrors(b, s1, i + 1) && Own(b, s1, i) == m
            && (i + 1 < |b.hooks| ==> Holding(b, i + 1, Own(b, s1, i + 1), s1))
  {
    var s1 := Build(b, i, m, s);
    forall j | 0 <= j < |b.hooks| && j != i
      ensures Own(b, s1, j) == Own(b, s, j)
    {
      assert Own(b, s, j) != Own(b, s, i);
    }
    assert Own(b, s1, i) == m;
    forall j | 0 <= j <= i
      ensures Mirror(b, s1, j) && (j < i ==> KeepsFields(b, s, s1, j))
    {
      assert j < i ==> Mirror(b, s, j);
    }
  }

  /**
    In every run, whatever the hooks do, each insert finds the builders' mutations as the rows were
    made from them.
   */
  lemma EveryRequestIsMirrored(b: Bulk, s: State)
    requires ValidBulk(b) && ValidState(b, s) && Separate(b, s) && s.requests == []
    ensures AllMirrored(RunChain(b, s).1)
  {
    if |b.hooks| > 0 {
      forall j | 0 < j < |b.hooks|
        ensures Own(b, s, j) != Own(b, s, 0)
      {
      }
      HooksMirror(b, 0, 0, Own(b, s, 0), s);
    }
  }
}
