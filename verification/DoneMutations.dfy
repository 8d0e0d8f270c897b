/**
  Which mutations a successful save leaves done, with their `id` pointing at the returned node: all
  of them exactly if no two positions share one.
 */
module DoneMutations {
  import opened Relational
  import opened RowCodec
  import opened ChangeOrderFields
  import opened MutatorChain
  import opened ChainSafety
  import opened NodeDelivery

  /** The mutation that position j's builder has. */
  function Own(b: Bulk, s: State, j: nat): nat
    requires ValidBulk(b) && ValidState(b, s) && j < |b.hooks|
  {
    s.cur[b.who[j]]
  }

  lemma SameOwn(b: Bulk, s: State, s': State)
    requires ValidBulk(b) && ValidState(b, s) && ValidState(b, s') && s'.cur == s.cur
    ensures forall j :: 0 <= j < |b.hooks| ==> Own(b, s', j) == Own(b, s, j)
    ensures Separate(b, s') <==> Separate(b, s)
  {
    assert forall j :: 0 <= j < |b.hooks| ==> Own(b, s', j) == Own(b, s, j);
    assert Separate(b, s') ==> forall x, y :: 0 <= x < y < |b.hooks| ==> Own(b, s', x) != Own(b, s', y);
  }

  /** No two positions share a mutation; so no two share a builder either. */
  ghost predicate Separate(b: Bulk, s: State)
    requires ValidBulk(b) && ValidState(b, s)
  {
    forall x, y :: 0 <= x < y < |b.hooks| ==> Own(b, s, x) != Own(b, s, y)
  }

  /** Position j's mutation is done, and its `id` points at the node in slot j. */
  ghost predicate Marked(b: Bulk, s: State, j: nat)
    requires ValidBulk(b) && ValidState(b, s) && j < |b.hooks|
  {
    s.nodes[j].Some? && s.muts[Own(b, s, j)].done && s.muts[Own(b, s, j)].id == s.nodes[j]
  }

  ghost predicate AllMarked(b: Bulk, s: State, i: nat)
    requires ValidBulk(b) && ValidState(b, s)
  {
    forall j :: i <= j < |b.hooks| ==> Marked(b, s, j)
  }

  /** Position j returns the entity of its specification, and its builder's mutation is marked. */
  ghost predicate Finished(b: Bulk, s: State, j: nat)
    requires ValidBulk(b) && ValidState(b, s) && j < |b.hooks|
  {
    Returned(b, s, j) && Marked(b, s, j)
  }

  /** A mutation can point at one node only. */
  lemma MarkedIsSeparate(b: Bulk, s: State)
    requires ValidBulk(b) && ValidState(b, s) && NodesApart(s) && AllMarked(b, s, 0)
    ensures Separate(b, s)
  {
    forall x, y | 0 <= x < y < |b.hooks|
      ensures Own(b, s, x) != Own(b, s, y)
    {
      assert Marked(b, s, x) && Marked(b, s, y);
    }
  }

  /** No other position works on mutation m. */
  ghost predicate Owns(b: Bulk, i: nat, m: nat, s: State)
    requires ValidBulk(b) && ValidState(b, s) && i < |b.hooks|
  {
    m < |s.muts| && forall j :: 0 <= j < |b.hooks| && j != i ==> Own(b, s, j) != m
  }

  /** What a run from position i on mutation m leaves alone: others keep their mutations or get new ones. */
  ghost predicate KeepsOwn(b: Bulk, i: nat, m: nat, s: State, s': State)
    requires ValidBulk(b) && ValidState(b, s) && ValidState(b, s') && i < |b.hooks|
  {
    && |s.muts| <= |s'.muts|
    && (forall j :: 0 <= j < |b.hooks| ==>
          Own(b, s', j) == Own(b, s, j) || Own(b, s', j) >= |s.muts| || (j == i && Own(b, s', j) == m))
    && (forall j :: 0 <= j < i ==> Own(b, s', j) == Own(b, s, j))
  }

  ghost predicate Marks(b: Bulk, i: nat, m: nat, s: State, o: Outcome, s': State)
    requires ValidBulk(b) && ValidState(b, s) && ValidState(b, s') && i < |b.hooks|
  {
    Separate(b, s') && Owns(b, i, m, s') && KeepsOwn(b, i, m, s, s') && (o.Done? ==> AllMarked(b, s', i))
  }

  ghost predicate MayMark(b: Bulk, i: nat, m: nat, s: State) {
    && ValidBulk(b) && ValidState(b, s) && AllHonest(b) && i < |b.hooks| && Filled(s, i)
    && Separate(b, s) && Owns(b, i, m, s)
  }

  lemma {:induction false} HooksMark(b: Bulk, i: nat, k: nat, m: nat, s: State)
    requires MayMark(b, i, m, s) && k <= |b.hooks[i]|
    ensures var (o, s') := RunHooks(b, i, k, m, s); Marks(b, i, m, s, o, s')
    decreases |b.hooks| - i, |b.hooks[i]| - k, 2, Finish(Succeed)
  {
    if k == |b.hooks[i]| {
      BaseMarks(b, i, m, s);
    } else {
      var s1 := Log(s, Enter(i, k));
      SameOwn(b, s, s1);
      ProgramMarks(b, i, k, b.hooks[i][k], None, Done, m, s, s1);
      var (o, s2) := RunProgram(b, i, k, b.hooks[i][k], Done, m, s1);
      LogMarks(b, i, m, s, o, s2, Leave(i, k));
    }
  }

  lemma LogMarks(b: Bulk, i: nat, m: nat, s: State, o: Outcome, s': State, e: Event)
    requires ValidBulk(b) && ValidState(b, s) && ValidState(b, s') && i < |b.hooks| && Marks(b, i, m, s, o, s')
    ensures Marks(b, i, m, s, o, Log(s', e))
  {
    var s2 := Log(s', e);
    assert forall j :: 0 <= j < |b.hooks| ==> Own(b, s2, j) == Own(b, s', j) && (Marked(b, s', j) ==> Marked(b, s2, j));
  }

  /** `s` is the state in which the hook was entered; `ok` the verdict of its last call. */
  lemma {:induction false} ProgramMarks(b: Bulk, i: nat, k: nat, p: Hook, ok: Option<bool>, last: Outcome, m: nat,
                                        s: State, s1: State)
    requires MayMark(b, i, m, s) && MayMark(b, i, m, s1) && k < |b.hooks[i]|
    requires Honest(p, ok) && (ok.Some? ==> ok.value == last.Done?)
    requires KeepsOwn(b, i, m, s, s1) && (ok == Some(true) ==> AllMarked(b, s1, i))
    ensures var (o, s') := RunProgram(b, i, k, p, last, m, s1); Marks(b, i, m, s, o, s')
    decreases |b.hooks| - i, |b.hooks[i]| - k, 1, p
  {
    match p
    case Finish(_) =>
    case Edit(edit, rest) =>
      var s2 := SetFields(s1, m, edit(s1.muts[m].fields));
      EditMarks(b, i, m, s, s1, edit(s1.muts[m].fields));
      ProgramMarks(b, i, k, rest, ok, last, m, s, s2);
    case Inspect(test, yes, no) =>
      ProgramMarks(b, i, k, if test(s1.muts[m].fields) then yes else no, ok, last, m, s, s1);
    case Next(handed, onDone, onError) =>
      var (m', s2) := Hand(handed, m, s1);
      HandMarks(b, i, m, s1, handed);
      HooksMark(b, i, k + 1, m', s2);
      var (o, s3) := RunHooks(b, i, k + 1, m', s2);
      CallMarks(b, i, m, s, s1, m', s2, s3);
      ProgramMarks(b, i, k, if o.Done? then onDone else onError, Some(o.Done?), o, m, s, s3);
  }

  lemma EditMarks(b: Bulk, i: nat, m: nat, s: State, s1: State, f: Fields)
    requires MayMark(b, i, m, s) && MayMark(b, i, m, s1) && KeepsOwn(b, i, m, s, s1)
    ensures var s2 := SetFields(s1, m, f);
            MayMark(b, i, m, s2) && KeepsOwn(b, i, m, s, s2) && (AllMarked(b, s1, i) ==> AllMarked(b, s2, i))
  {
    var s2 := SetFields(s1, m, f);
    assert forall j :: 0 <= j < |b.hooks| ==> Own(b, s2, j) == Own(b, s1, j) && (Marked(b, s1, j) ==> Marked(b, s2, j));
  }

  lemma HandMarks(b: Bulk, i: nat, m: nat, s: State, h: Handed)
    requires MayMark(b, i, m, s)
    ensures var (m', s1) := Hand(h, m, s);
            MayMark(b, i, m', s1) && (m' == m || m' == |s.muts|) && s1.cur == s.cur && |s.muts| <= |s1.muts|
  {
    SameOwn(b, s, Hand(h, m, s).1);
  }

  /** Whatever mutation the call was made on, the caller keeps its own. */
  lemma CallMarks(b: Bulk, i: nat, m: nat, s: State, s1: State, m': nat, s2: State, s3: State)
    requires MayMark(b, i, m, s) && MayMark(b, i, m, s1) && MayMark(b, i, m', s2) && ValidState(b, s3) && Filled(s3, i)
    requires KeepsOwn(b, i, m, s, s1) && s2.cur == s1.cur && |s1.muts| <= |s2.muts| && (m' == m || m' == |s1.muts|)
    requires KeepsOwn(b, i, m', s2, s3) && Separate(b, s3)
    ensures MayMark(b, i, m, s3) && KeepsOwn(b, i, m, s, s3)
  {
    assert forall j :: 0 <= j < |b.hooks| ==> Own(b, s2, j) == Own(b, s1, j);
  }

  lemma {:induction false} BaseMarks(b: Bulk, i: nat, m: nat, s: State)
    requires MayMark(b, i, m, s)
    ensures var (o, s') := RunBase(b, i, m, s); Marks(b, i, m, s, o, s')
    decreases |b.hooks| - i, 0, 0, Finish(Succeed)
  {
    AdoptMarks(b, i, m, s);
    var (m0, s0) := Adopt(b, i, m, s);
    if Check(s0.muts[s0.cur[b.who[i]]].fields).None? {
      BuildMarks(b, i, m0, s0);
      var s1 := Build(b, i, m0, s0);
      RestMarks(b, i, m0, s1);
      var (o, s2) := RunRest(b, i, s1);
      if o.Done? {
        SettleMarks(b, i, m0, s1, s2);
        MarksBase(b, i, m, s, m0, s0, o, s1, Settle(b, i, m0, s2));
      } else {
        MarksBase(b, i, m, s, m0, s0, o, s1, s2);
      }
    }
  }

  /** A single save goes on with its own mutation. */
  lemma AdoptMarks(b: Bulk, i: nat, m: nat, s: State)
    requires MayMark(b, i, m, s)
    ensures var (m0, s0) := Adopt(b, i, m, s);
            && MayMark(b, i, m0, s0) && s0.cur == s.cur && |s0.muts| == |s.muts|
            && (m0 == m || (|b.hooks| == 1 && m0 == Own(b, s, 0)))
  {
  }

  lemma BuildMarks(b: Bulk, i: nat, m: nat, s: State)
    requires MayMark(b, i, m, s)
    ensures var s1 := Build(b, i, m, s);
            && Own(b, s1, i) == m && Separate(b, s1) && Owns(b, i, m, s1) && |s1.muts| == |s.muts|
            && (forall j :: 0 <= j < |b.hooks| && j != i ==> Own(b, s1, j) == Own(b, s, j))
            && (i + 1 < |b.hooks| ==> MayMark(b, i + 1, Own(b, s1, i + 1), s1))
  {
    var s1 := Build(b, i, m, s);
    forall j | 0 <= j < |b.hooks| && j != i
      ensures Own(b, s1, j) == Own(b, s, j)
    {
      assert Own(b, s, j) != Own(b, s, i);
    }
  }

  /** The rest of the chain marks the later positions, and leaves position i its mutation. */
  lemma {:induction false} RestMarks(b: Bulk, i: nat, m: nat, s: State)
    requires ValidBulk(b) && ValidState(b, s) && AllHonest(b) && i < |b.hooks| && Filled(s, i + 1)
    requires Separate(b, s) && Own(b, s, i) == m && (i + 1 < |b.hooks| ==> MayMark(b, i + 1, Own(b, s, i + 1), s))
    ensures var (o, s') := RunRest(b, i, s);
            && Separate(b, s') && Own(b, s', i) == m && |s.muts| <= |s'.muts| && (o.Done? ==> AllMarked(b, s', i + 1))
            && (forall j :: 0 <= j <= i ==> Own(b, s', j) == Own(b, s, j))
            && (forall j :: i < j < |b.hooks| ==> Own(b, s', j) == Own(b, s, j) || Own(b, s', j) >= |s.muts|)
    decreases |b.hooks| - i - 1, if i + 1 < |b.hooks| then |b.hooks[i + 1]| else 0, 3, Finish(Succeed)
  {
    if i + 1 < |b.hooks| {
      HooksMark(b, i + 1, 0, Own(b, s, i + 1), s);
    } else {
      var s' := BatchCreate(b, s).1;
      assert s'.cur == s.cur && s'.muts == s.muts;
      assert forall j :: 0 <= j < |b.hooks| ==> Own(b, s', j) == Own(b, s, j);
    }
  }

  lemma SettleMarks(b: Bulk, i: nat, m: nat, s: State, s2: State)
    requires ValidBulk(b) && ValidState(b, s) && ValidState(b, s2)
    requires i < |b.hooks| && m < |s2.muts| && Filled(s2, i + 1)
    requires Separate(b, s2) && Own(b, s2, i) == m && AllMarked(b, s2, i + 1)
    ensures var s3 := Settle(b, i, m, s2);
            AllMarked(b, s3, i) && forall j :: 0 <= j < |b.hooks| ==> Own(b, s3, j) == Own(b, s2, j)
  {
    var s3 := Settle(b, i, m, s2);
    assert s3.cur == s2.cur && s3.nodes == s2.nodes;
    forall j | i <= j < |b.hooks|
      ensures Marked(b, s3, j)
    {
      if j > i {
        assert Marked(b, s2, j) && Own(b, s2, j) != m;
      }
    }
  }

  lemma MarksBase(b: Bulk, i: nat, m: nat, s: State, m0: nat, s0: State, o: Outcome, s1: State, s3: State)
    requires MayMark(b, i, m, s) && MayMark(b, i, m0, s0) && s0.cur == s.cur && |s0.muts| == |s.muts|
    requires m0 == m || (|b.hooks| == 1 && m0 == Own(b, s, 0))
    requires ValidState(b, s1) && |s1.muts| == |s.muts| && Own(b, s1, i) == m0
    requires forall j :: 0 <= j < |b.hooks| && j != i ==> Own(b, s1, j) == Own(b, s0, j)
    requires ValidState(b, s3) && Separate(b, s3) && Own(b, s3, i) == m0 && |s1.muts| <= |s3.muts|
    requires forall j :: 0 <= j < i ==> Own(b, s3, j) == Own(b, s1, j)
    requires forall j :: i < j < |b.hooks| ==> Own(b, s3, j) == Own(b, s1, j) || Own(b, s3, j) >= |s1.muts|
    requires o.Done? ==> AllMarked(b, s3, i)
    ensures Marks(b, i, m, s, o, s3)
  {
    assert forall j :: 0 <= j < |b.hooks| ==> Own(b, s0, j) == Own(b, s, j);
  }
}
