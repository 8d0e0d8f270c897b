/**
  What a save returns, whatever its hooks do and whatever its builders share: every position builds
  a node of its own, and a success leaves each node with the fields and the ID of its row.
 */
module NodeDelivery {
  import opened Relational
  import opened RowCodec
  import opened ChangeOrderFields
  import opened MutatorChain
  import opened ChainSafety

  /** No two slots hold the same node. */
  ghost predicate NodesApart(s: State) {
    forall x, y :: 0 <= x < y < |s.nodes| && s.nodes[x].Some? ==> s.nodes[x] != s.nodes[y]
  }

  /** The entity of a specification: its fields, and its ID if one is reported. */
  function Built(spec: Spec): EntityValue {
    EntityValue(if spec.id.Some? then spec.id.value else 0, spec.fields, map[])
  }

  /** Position j returns the entity of its specification. */
  ghost predicate Returned(b: Bulk, s: State, j: nat)
    requires ValidBulk(b) && ValidState(b, s) && j < |b.hooks|
  {
    s.nodes[j].Some? && s.specs[j].Some? && s.made[s.nodes[j].value] == Built(s.specs[j].value)
  }

  /**
    The last rows of the table are the batch, in builder order: row j holds the fields of
    specification j, under the ID that specification reports.
   */
  ghost predicate InTable(b: Bulk, s: State, j: nat)
    requires j < |b.hooks| == |s.specs|
  {
    && |b.hooks| <= |s.rows| && s.specs[j].Some?
    && var row := s.rows[|s.rows| - |b.hooks| + j];
       && row == Stored(b.json, row.id, s.specs[j].value.fields)
       && (s.specs[j].value.id.Some? ==> s.specs[j].value.id.value == row.id)
  }

  ghost predicate Delivered(b: Bulk, s: State, i: nat)
    requires ValidBulk(b) && ValidState(b, s)
  {
    && (forall j :: i <= j < |b.hooks| ==> Returned(b, s, j))
    && (forall j :: 0 <= j < |b.hooks| ==> InTable(b, s, j))
  }

  /** A run from position i leaves alone the nodes and specifications of earlier positions, and all older nodes. */
  ghost predicate KeepsNodes(b: Bulk, i: nat, s: State, s': State)
    requires ValidBulk(b) && ValidState(b, s) && ValidState(b, s') && i < |b.hooks|
  {
    && (forall j :: 0 <= j < i ==>
          && s'.nodes[j] == s.nodes[j]
          && (s.specs[j].Some? && s'.specs[j].Some? ==> s'.specs[j].value.fields == s.specs[j].value.fields))
    && |s.made| <= |s'.made| && (forall n :: 0 <= n < |s.made| ==> s'.made[n] == s.made[n])
  }

  ghost predicate Delivers(b: Bulk, i: nat, s: State, o: Outcome, s': State)
    requires ValidBulk(b) && ValidState(b, s) && ValidState(b, s') && i < |b.hooks|
  {
    NodesApart(s') && KeepsNodes(b, i, s, s') && (o.Done? ==> Delivered(b, s', i))
  }

  ghost predicate MayDeliver(b: Bulk, i: nat, m: nat, s: State) {
    ValidBulk(b) && ValidState(b, s) && AllHonest(b) && i < |b.hooks| && m < |s.muts| && Filled(s, i) && NodesApart(s)
  }

  /** Only the mutations and the trace differ. */
  predicate SameNodes(s: State, s': State) {
    s'.made == s.made && s'.nodes == s.nodes && s'.specs == s.specs && s'.rows == s.rows
  }

  lemma SameNodesDeliver(b: Bulk, i: nat, s: State, o: Outcome, s1: State, s2: State)
    requires ValidBulk(b) && ValidState(b, s) && ValidState(b, s1) && ValidState(b, s2) && i < |b.hooks|
    requires SameNodes(s1, s2) && Delivers(b, i, s, o, s1)
    ensures Delivers(b, i, s, o, s2)
  {
    if o.Done? {
      forall j | 0 <= j < |b.hooks|
        ensures InTable(b, s2, j) && (i <= j ==> Returned(b, s2, j))
      {
        assert InTable(b, s1, j) && (i <= j ==> Returned(b, s1, j));
      }
    }
  }

  lemma {:induction false} HooksDeliver(b: Bulk, i: nat, k: nat, m: nat, s: State)
    requires MayDeliver(b, i, m, s) && k <= |b.hooks[i]|
    ensures var (o, s') := RunHooks(b, i, k, m, s); Delivers(b, i, s, o, s')
    decreases |b.hooks| - i, |b.hooks[i]| - k, 2, Finish(Succeed)
  {
    if k == |b.hooks[i]| {
      BaseDelivers(b, i, m, s);
    } else {
      var s1 := Log(s, Enter(i, k));
      ProgramDelivers(b, i, k, b.hooks[i][k], None, Done, m, s, s1);
      var (o, s2) := RunProgram(b, i, k, b.hooks[i][k], Done, m, s1);
      SameNodesDeliver(b, i, s, o, s2, Log(s2, Leave(i, k)));
    }
  }

  /** `s` is the state in which the hook was entered; `ok` the verdict of its last call. */
  lemma {:induction false} ProgramDelivers(b: Bulk, i: nat, k: nat, p: Hook, ok: Option<bool>, last: Outcome, m: nat,
                                           s: State, s1: State)
    requires MayDeliver(b, i, m, s) && MayDeliver(b, i, m, s1) && k < |b.hooks[i]|
    requires Honest(p, ok) && (ok.Some? ==> ok.value == last.Done?)
    requires KeepsNodes(b, i, s, s1) && (ok == Some(true) ==> Delivered(b, s1, i))
    ensures var (o, s') := RunProgram(b, i, k, p, last, m, s1); Delivers(b, i, s, o, s')
    decreases |b.hooks| - i, |b.hooks[i]| - k, 1, p
  {
    match p
    case Finish(_) =>
    case Edit(edit, rest) =>
      var s2 := SetFields(s1, m, edit(s1.muts[m].fields));
      SameNodesDeliver(b, i, s, if ok == Some(true) then Done else Failed(Driver), s1, s2);
      ProgramDelivers(b, i, k, rest, ok, last, m, s, s2);
    case Inspect(test, yes, no) =>
      ProgramDelivers(b, i, k, if test(s1.muts[m].fields) then yes else no, ok, last, m, s, s1);
    case Next(handed, onDone, onError) =>
      NextDelivers(b, i, k, handed, m, s, s1);
      var (m', s2) := Hand(handed, m, s1);
      var (o, s3) := RunHooks(b, i, k + 1, m', s2);
      ProgramDelivers(b, i, k, if o.Done? then onDone else onError, Some(o.Done?), o, m, s, s3);
  }

  lemma {:induction false} NextDelivers(b: Bulk, i: nat, k: nat, handed: Handed, m: nat, s: State, s1: State)
    requires MayDeliver(b, i, m, s) && MayDeliver(b, i, m, s1) && k < |b.hooks[i]| && KeepsNodes(b, i, s, s1)
    ensures var (m', s2) := Hand(handed, m, s1);
            && MayDeliver(b, i, m', s2)
            && var (o, s3) := RunHooks(b, i, k + 1, m', s2);
               MayDeliver(b, i, m, s3) && KeepsNodes(b, i, s, s3) && (o.Done? ==> Delivered(b, s3, i))
    decreases |b.hooks| - i, |b.hooks[i]| - k - 1, 3, Finish(Succeed)
  {
    var (m', s2) := Hand(handed, m, s1);
    assert NodesApart(s2) && Filled(s2, i);
    HooksDeliver(b, i, k + 1, m', s2);
    KeepsNodesChains(b, i, s, s1, s2, RunHooks(b, i, k + 1, m', s2).1);
  }

  lemma KeepsNodesChains(b: Bulk, i: nat, s: State, s1: State, s2: State, s3: State)
    requires ValidBulk(b) && ValidState(b, s) && ValidState(b, s1) && ValidState(b, s2) && ValidState(b, s3)
    requires i < |b.hooks| && Filled(s, i) && Filled(s1, i) && Filled(s3, i)
    requires KeepsNodes(b, i, s, s1) && SameNodes(s1, s2) && KeepsNodes(b, i, s2, s3)
    ensures KeepsNodes(b, i, s, s3)
  {
  }

  lemma {:induction false} BaseDelivers(b: Bulk, i: nat, m: nat, s: State)
    requires MayDeliver(b, i, m, s)
    ensures var (o, s') := RunBase(b, i, m, s); Delivers(b, i, s, o, s')
    decreases |b.hooks| - i, 0, 0, Finish(Succeed)
  {
    var (m0, s0) := Adopt(b, i, m, s);
    assert SameNodes(s, s0) && NodesApart(s0);
    if Check(s0.muts[s0.cur[b.who[i]]].fields).None? {
      BuildDelivers(b, i, m0, s0);
      var s1 := Build(b, i, m0, s0);
      RestDelivers(b, i, m0, s0);
      var (o, s2) := RunRest(b, i, s1);
      if o.Done? {
        SettleDelivers(b, i, m0, s0, s2);
      }
    }
  }

  lemma BuildDelivers(b: Bulk, i: nat, m: nat, s: State)
    requires MayDeliver(b, i, m, s)
    ensures var s1 := Build(b, i, m, s);
            && NodesApart(s1) && KeepsNodes(b, i, s, s1) && s1.nodes[i] == Some(|s.made|) && |s1.made| == |s.made| + 1
            && s1.made[|s.made|] == EntityValue(0, s1.specs[i].value.fields, map[])
  {
  }

  /** The rest of the chain delivers the later positions, and leaves position i as it was built. */
  ghost predicate RestDelivered(b: Bulk, i: nat, s: State, s1: State, o: Outcome, s2: State)
    requires ValidBulk(b) && ValidState(b, s) && ValidState(b, s1) && ValidState(b, s2) && i < |b.hooks|
    requires Filled(s1, i + 1) && Filled(s2, i + 1)
  {
    && NodesApart(s2) && KeepsNodes(b, i, s, s2) && s2.nodes[i] == s1.nodes[i] == Some(|s.made|) && |s.made| < |s2.made|
    && s2.made[|s.made|] == EntityValue(0, s2.specs[i].value.fields, map[])
    && (o.Done? ==> Delivered(b, s2, i + 1))
  }

  lemma {:induction false} RestDelivers(b: Bulk, i: nat, m: nat, s: State)
    requires MayDeliver(b, i, m, s)
    ensures var s1 := Build(b, i, m, s);
            var (o, s2) := RunRest(b, i, s1);
            Filled(s2, i + 1) && RestDelivered(b, i, s, s1, o, s2)
    decreases |b.hooks| - i - 1, if i + 1 < |b.hooks| then |b.hooks[i + 1]| else 0, 3, Finish(Succeed)
  {
    BuildDelivers(b, i, m, s);
    var s1 := Build(b, i, m, s);
    if i + 1 < |b.hooks| {
      HooksDeliver(b, i + 1, 0, s1.cur[b.who[i + 1]], s1);
      LaterKeep(b, i, s, s1, RunRest(b, i, s1).1);
    } else {
      BatchDelivers(b, s1);
    }
  }

  lemma LaterKeep(b: Bulk, i: nat, s: State, s1: State, s2: State)
    requires ValidBulk(b) && ValidState(b, s) && ValidState(b, s1) && ValidState(b, s2) && i + 1 < |b.hooks|
    requires Filled(s, i) && Filled(s1, i + 1) && Filled(s2, i + 1)
    requires KeepsNodes(b, i, s, s1) && KeepsNodes(b, i + 1, s1, s2)
    ensures KeepsNodes(b, i, s, s2) && s2.nodes[i] == s1.nodes[i]
    ensures s2.specs[i].value.fields == s1.specs[i].value.fields
  {
  }

  lemma BatchDelivers(b: Bulk, s: State)
    requires ValidBulk(b) && ValidState(b, s) && Filled(s, |b.hooks|) && NodesApart(s)
    ensures var (o, s') := BatchCreate(b, s);
            && NodesApart(s') && s'.nodes == s.nodes && s'.made == s.made
            && (forall j :: 0 <= j < |b.hooks| ==>
                  s'.specs[j].Some? && s'.specs[j].value.fields == s.specs[j].value.fields)
            && (o.Done? ==> forall j :: 0 <= j < |b.hooks| ==> InTable(b, s', j))
  {
    var fs := SpecFields(s);
    var (o, s') := BatchCreate(b, s);
    if o.Done? {
      var rows := Inserted(b.json, Insert(b, s, fs).value, fs);
      forall j | 0 <= j < |b.hooks|
        ensures InTable(b, s', j)
      {
        assert s'.rows[|s'.rows| - |b.hooks| + j] == rows[j];
      }
    }
  }

  lemma SettleDelivers(b: Bulk, i: nat, m: nat, s: State, s2: State)
    requires ValidBulk(b) && ValidState(b, s) && ValidState(b, s2) && i < |b.hooks| && m < |s2.muts|
    requires m < |s.muts| && Filled(s, i) && Filled(s2, i + 1)
    requires RestDelivered(b, i, s, Build(b, i, m, s), Done, s2)
    ensures Delivers(b, i, s, Done, Settle(b, i, m, s2))
  {
    var s3 := Settle(b, i, m, s2);
    forall j | i <= j < |b.hooks|
      ensures Returned(b, s3, j)
    {
      if j > i {
        assert Returned(b, s2, j) && s2.nodes[j] != s2.nodes[i];
      }
    }
    forall j | 0 <= j < |b.hooks|
      ensures InTable(b, s3, j)
    {
      assert InTable(b, s2, j);
    }
  }
}
