/**
  `ChangeOrderCreateBulk.Save` on builder, mutation and node objects, updated in place. The
  closures that Save builds are named by what they capture: builder position and hook position.
  Every method is proved to compute the corresponding function of MutatorChain.
 */
module BulkCreate {
  import opened Relational
  import opened RowCodec
  import opened ChangeOrderFields
  import opened MutatorChain
  import opened ChainSafety
  import opened HookNesting
  import opened NodeDelivery
  import opened DoneMutations
  import opened CheckedRows
  import opened BulkSaveTheorems
  import opened ConflictOptions

  /** ChangeOrderMutation. `id` points into a node: reading it reads that node's ID field. */
  class Mutation {
    var fields: Fields
    var id: Entity?
    var done: bool

    constructor (f: Fields)
      ensures fields == f && id == null && !done
    {
      fields, id, done := f, null, false;
    }

    /** ID(): the ID and whether there is one. */
    function ID(): Option<int>
      reads this, id
    {
      if id == null then None else Some(id.id)
    }
  }

  class ChangeOrderCreate {
    var mutation: Mutation
    var conflict: seq<ConflictOption>
    const hooks: seq<Hook>

    constructor (m: Mutation, hs: seq<Hook>)
      ensures mutation == m && hooks == hs && conflict == []
    {
      mutation, hooks, conflict := m, hs, [];
    }

    method SetDefaults(now: Clock)
      modifies mutation`fields
      ensures mutation.fields == Defaults(old(mutation.fields), now)
    {
      if Type !in mutation.fields { mutation.fields := mutation.fields[Type := Text("config")]; }
      if Source !in mutation.fields { mutation.fields := mutation.fields[Source := Text("manual")]; }
      if Status !in mutation.fields { mutation.fields := mutation.fields[Status := Text("draft")]; }
      if CreatedAt !in mutation.fields { mutation.fields := mutation.fields[CreatedAt := Time(now.created)]; }
      if UpdatedAt !in mutation.fields { mutation.fields := mutation.fields[UpdatedAt := Time(now.updated)]; }
    }

    /** The source's column-by-column copy, one column after the other. */
    method CreateSpec() returns (node: Entity, spec: Spec)
      ensures fresh(node) && node.Value() == EntityValue(0, Settable(mutation.fields), map[])
      ensures spec == Spec(Settable(mutation.fields), None)
      ensures forall c :: c in Columns(ChangeOrder) && c != Id ==>
                && Lookup(node.fields, c) == Lookup(mutation.fields, c)
                && Lookup(spec.fields, c) == Lookup(mutation.fields, c)
    {
      node := new Entity();
      var f := CopyColumns(node, Columns(ChangeOrder)[1..]);
      CreateColumns();
      spec := Spec(f, None);
    }

    method CopyColumns(node: Entity, columns: seq<Column>) returns (f: Fields)
      requires node.Value() == ZERO
      modifies node`fields
      ensures f == map c | c in mutation.fields && c in columns :: mutation.fields[c]
      ensures node.Value() == EntityValue(0, f, map[])
    {
      f := map[];
      for i := 0 to |columns|
        invariant node.id == 0 && node.selected == map[] && node.fields == f
        invariant f == map c | c in mutation.fields && c in columns[..i] :: mutation.fields[c]
      {
        var c := columns[i];
        assert columns[..i + 1] == columns[..i] + [c];
        if c in mutation.fields {
          f := f[c := mutation.fields[c]];
          node.fields := node.fields[c := mutation.fields[c]];
        }
      }
      assert columns[..|columns|] == columns;
    }
  }

  /** Names tell apart what differs. */
  lemma NamesAgree<T>(xs: seq<T>, at: seq<nat>, reg: seq<T>)
    requires |xs| == |at| && (forall i :: 0 <= i < |at| ==> at[i] < |reg| && xs[i] == reg[at[i]])
    requires forall x, y :: 0 <= x < y < |reg| ==> reg[x] != reg[y]
    ensures forall i, j :: 0 <= i < |xs| && 0 <= j < |xs| ==> (xs[i] == xs[j] <==> at[i] == at[j])
  {
  }

  lemma CreateColumns()
    ensures forall c :: c in Columns(ChangeOrder)[1..] <==> IsCreateField(c)
  {
    var cs := Columns(ChangeOrder);
    assert cs[1..] == [Title, Type, Source, Status, TargetNodes, ConfigRevisionIds, DeployPlan, SnapshotId,
       CreatedBy, ApprovedBy, Comment, StartedAt, FinishedAt, CreatedAt, UpdatedAt, DeletedAt];
  }

  /** What the closures of one Save capture. */
  class SaveRun {
    const builders: seq<ChangeOrderCreate>
    const nodes: array<Entity?>
    const specs: array<Option<Spec>>
    const json: JsonCodec
    const backend: Backend
    var rows: seq<Row>
    var trace: seq<Event>
    ghost const bulk: Bulk
    var tries: nat   // inserts so far
    ghost var requests: seq<Request>
    ghost var muts: seq<Mutation>
    ghost var made: seq<Entity>
    ghost var repr: set<object>

    constructor (builders: seq<ChangeOrderCreate>, json: JsonCodec, backend: Backend,
                 rows: seq<Row>, ghost bulk: Bulk, ghost muts: seq<Mutation>)
      requires json == bulk.json && backend == bulk.backend && |builders| == |bulk.hooks| == |bulk.who|
      requires forall i :: 0 <= i < |builders| ==> builders[i].hooks == bulk.hooks[i]
      requires forall i, j :: 0 <= i < |builders| && 0 <= j < |builders| ==>
                 (builders[i] == builders[j] <==> bulk.who[i] == bulk.who[j])
      ensures this.builders == builders
      ensures this.json == json && this.backend == backend && this.bulk == bulk && this.muts == muts && this.made == []
      ensures this.rows == rows && this.trace == [] && this.tries == 0 && this.requests == []
      ensures repr == {this, nodes, specs} + (set b | b in builders) + (set m | m in muts)
      ensures fresh(nodes) && nodes.Length == |builders| && forall i :: 0 <= i < |builders| ==> nodes[i] == null
      ensures fresh(specs) && specs.Length == |builders| && forall i :: 0 <= i < |builders| ==> specs[i] == None
    {
      this.builders, this.json, this.backend := builders, json, backend;
      this.rows, this.trace, this.tries, this.requests := rows, [], 0, [];
      this.nodes := new Entity?[|builders|](_ => null);
      this.specs := new Option<Spec>[|builders|](_ => None);
      this.bulk, this.muts, this.made := bulk, muts, [];
      this.repr := {this, nodes, specs} + (set b | b in builders) + (set m | m in muts);
    }

    /** The objects are the store of state s. */
    ghost predicate Reps(s: State)
      reads this, repr
    {
      && Owned() && Wired() && ValidBulk(bulk) && ValidState(bulk, s) && !bulk.alone
      && RepsMutations(s) && RepsNodes(s)
      && (forall i :: 0 <= i < |builders| ==> builders[i].mutation == muts[s.cur[bulk.who[i]]])
      && specs[..] == s.specs && rows == s.rows && trace == s.trace && tries == |requests| && requests == s.requests
    }

    ghost predicate Owned()
      reads this
    {
      && this in repr && nodes in repr && specs in repr
      && (forall i :: 0 <= i < |builders| ==> builders[i] in repr)
      && (forall x :: 0 <= x < |muts| ==> muts[x] in repr)
      && (forall x :: 0 <= x < |made| ==> made[x] in repr)
    }

    /** The builders are those of the bulk; two positions share one iff they name the same. */
    ghost predicate Wired() {
      && json == bulk.json && backend == bulk.backend
      && |builders| == |bulk.hooks| == |bulk.who| == nodes.Length == specs.Length
      && (forall i :: 0 <= i < |builders| ==> builders[i].hooks == bulk.hooks[i])
      && (forall i, j {:trigger Shares(i, j)} :: 0 <= i < |builders| && 0 <= j < |builders| ==>
            (Shares(i, j) <==> bulk.who[i] == bulk.who[j]))
    }

    ghost predicate Shares(i: nat, j: nat)
      requires i < |builders| && j < |builders|
    {
      builders[i] == builders[j]
    }

    ghost predicate RepsMutations(s: State)
      requires Owned()
      reads this, repr
    {
      && |muts| == |s.muts|
      && (forall x, y :: 0 <= x < y < |muts| ==> muts[x] != muts[y])
      && forall x :: 0 <= x < |muts| ==> RepsMutation(muts[x], s.muts[x])
    }

    /** The store knows an `id` pointer only once this run has set it. */
    ghost predicate RepsMutation(m: Mutation, v: MutationValue)
      reads this, m
    {
      && m.fields == v.fields && m.done == v.done
      && (v.id.Some? ==> v.id.value < |made| && m.id == made[v.id.value])
    }

    ghost predicate RepsNodes(s: State)
      requires Owned()
      reads this, repr
    {
      && |made| == |s.made| && nodes.Length == |s.nodes|
      && (forall x, y :: 0 <= x < y < |made| ==> made[x] != made[y])
      && (forall x :: 0 <= x < |made| ==> made[x].Value() == s.made[x])
      && (forall i :: 0 <= i < nodes.Length ==>
            if s.nodes[i].None? then nodes[i] == null
            else s.nodes[i].value < |made| && nodes[i] == made[s.nodes[i].value])
    }

    /** After a success every slot holds a node with its fields and its reported ID. */
    lemma ReturnedNodes(s: State, j: nat)
      requires ValidBulk(bulk) && ValidState(bulk, s) && NodesApart(s) && AllHonest(bulk)
      requires j < |builders| == |bulk.hooks|
      requires RunChain(bulk, s).0.Done? && Reps(RunChain(bulk, s).1)
      ensures var spec := RunChain(bulk, s).1.specs[j];
              nodes[j] != null && spec.Some? && nodes[j].Value() == Built(spec.value)
    {
      SuccessMeansSaved(bulk, s);
      assert Returned(bulk, RunChain(bulk, s).1, j);
    }

    /** Position j's mutation is done, and its ID is read from the returned node itself. */
    ghost predicate Aliased(j: nat)
      requires j < |builders| == nodes.Length
      reads this, builders[j], builders[j].mutation, nodes
    {
      builders[j].mutation.done && nodes[j] != null && builders[j].mutation.id == nodes[j]
    }

    /**
      If no two builders share a mutation, each mutation's ID is read from the returned node: the
      pointer taken before the ID was known aliases it.
     */
    lemma AliasesReturnedNode(s: State, j: nat)
      requires ValidBulk(bulk) && ValidState(bulk, s) && Separate(bulk, s) && AllHonest(bulk)
      requires j < |builders| == |bulk.hooks|
      requires RunChain(bulk, s).0.Done? && Reps(RunChain(bulk, s).1)
      ensures Aliased(j) && builders[j].mutation.ID() == Some(nodes[j].id)
    {
      SuccessMarksMutations(bulk, s);
      assert Marked(bulk, RunChain(bulk, s).1, j);
    }

    /** One mutation cannot alias two nodes. */
    lemma AliasedIsSeparate(s: State)
      requires Reps(s) && ValidBulk(bulk) && ValidState(bulk, s) && NodesApart(s) && |builders| == |bulk.hooks|
      requires forall j :: 0 <= j < |builders| ==> Aliased(j)
      ensures Separate(bulk, s)
    {
      forall x, y | 0 <= x < y < |bulk.hooks|
        ensures Own(bulk, s, x) != Own(bulk, s, y)
      {
        assert Aliased(x) && Aliased(y) && s.nodes[x].Some? && s.nodes[y].Some?;
      }
    }

    /** Before anything is built, the objects are the initial store. */
    lemma InitialReps(values: seq<MutationValue>, cur: seq<nat>)
      requires Owned() && Wired() && ValidBulk(bulk) && !bulk.alone
      requires made == [] && trace == [] && tries == 0 && requests == []
      requires |cur| == |builders| && |values| == |muts| && forall i :: 0 <= i < |cur| ==> cur[i] < |muts|
      requires forall x, y :: 0 <= x < y < |muts| ==> muts[x] != muts[y]
      requires forall x :: 0 <= x < |muts| ==> values[x] == ValueOf(muts[x])
      requires forall i :: 0 <= i < |builders| ==> builders[i].mutation == muts[cur[bulk.who[i]]]
      requires forall i :: 0 <= i < |builders| ==> nodes[i] == null && specs[i] == None
      ensures ValidState(bulk, InitialState(values, cur, rows)) && Reps(InitialState(values, cur, rows))
      ensures var fs := OwnFields(bulk, InitialState(values, cur, rows));
              |fs| == |builders| && forall i :: 0 <= i < |builders| ==> fs[i] == builders[i].mutation.fields
    {
      var s := InitialState(values, cur, rows);
      assert specs[..] == s.specs;
      assert RepsMutations(s) && RepsNodes(s);
    }

    /** builder.mutation = mutation */
    method SetMutation(i: nat, m: Mutation, ghost x: nat, ghost s: State)
      requires Reps(s) && i < |builders| && x < |muts| && m == muts[x] && Filled(s, i)
      modifies repr
      ensures Reps(s.(cur := s.cur[bulk.who[i] := x]))
      ensures muts == old(muts) && made == old(made) && repr == old(repr)
    {
      builders[i].mutation := m;
      assert forall j :: 0 <= j < |builders| ==> (Shares(i, j) <==> bulk.who[i] == bulk.who[j]);
    }

    /** nodes[i], specs[i] = builder.createSpec() */
    method BuildNode(i: nat, m: Mutation, ghost x: nat, ghost s: State)
      requires Reps(s) && i < |builders| && x < |muts| && m == muts[x] && Filled(s, i)
      requires s.cur[bulk.who[i]] == x
      modifies repr
      ensures Reps(Build(bulk, i, x, s))
      ensures muts == old(muts) && old(made) <= made && fresh(repr - old(repr)) && old(repr) <= repr
    {
      var node, spec := builders[i].CreateSpec();
      nodes[i], specs[i] := node, Some(spec);
      made, repr := made + [node], repr + {node};
      ghost var s' := Build(bulk, i, x, s);
      assert s'.cur == s.cur;
      assert RepsMutations(s');
      assert RepsNodes(s');
      assert specs[..] == s'.specs;
    }

    method Prepare(i: nat, m: Mutation, ghost x: nat, ghost s: State)
      requires Reps(s) && i < |builders| && x < |muts| && m == muts[x] && Filled(s, i)
      modifies repr
      ensures Reps(Build(bulk, i, x, s))
      ensures muts == old(muts) && old(made) <= made && fresh(repr - old(repr)) && old(repr) <= repr
    {
      SetMutation(i, m, x, s);
      ghost var s1 := s.(cur := s.cur[bulk.who[i] := x]);
      BuildNode(i, m, x, s1);
      assert Build(bulk, i, x, s1) == Build(bulk, i, x, s);
    }

    method WriteBack(i: nat, m: Mutation, ghost x: nat, ghost s: State)
      requires Reps(s) && i < |builders| && x < |muts| && m == muts[x] && Filled(s, i + 1)
      modifies repr
      ensures Reps(Settle(bulk, i, x, s))
      ensures muts == old(muts) && made == old(made) && repr == old(repr)
    {
      assert s.nodes[i].Some? && specs[i] == s.specs[i];
      var node := nodes[i];
      m.id := node;
      if specs[i].value.id.Some? {
        node.id := specs[i].value.id.value;
      }
      m.done := true;
    }

    /** sqlgraph.BatchCreate; conflict options would read the builders' mutations here. */
    method InsertBatch(ghost s: State) returns (o: Outcome)
      requires Reps(s) && Filled(s, |builders|)
      modifies this`rows, this`trace, this`tries, this`requests, specs
      ensures BatchCreate(bulk, s).0 == o && Reps(BatchCreate(bulk, s).1)
    {
      var before := tries;
      RecordRequest(s);
      o := Store(before, Ask(bulk, s));
    }

    /** builder.mutation for every builder, as the loop of a conflict option reads them. */
    method RecordRequest(ghost s: State)
      requires Reps(s) && Filled(s, |builders|)
      modifies this`tries, this`requests
      ensures Reps(Ask(bulk, s))
    {
      ghost var own := [];
      for i := 0 to |builders|
        invariant own == OwnFields(bulk, s)[..i] && tries == old(tries) && requests == old(requests)
      {
        FieldsOf(builders[i].mutation, s.cur[bulk.who[i]], s);
        own := own + [builders[i].mutation.fields];
      }
      assert own == OwnFields(bulk, s);
      tries, requests := tries + 1, requests + [Request(SpecFields(s), own)];
    }

    /** The database's answer. */
    method Store(before: nat, ghost s: State) returns (o: Outcome)
      requires Reps(s) && Filled(s, |builders|)
      modifies this`rows, this`trace, specs
      ensures Answer(bulk, before, s).0 == o && Reps(Answer(bulk, before, s).1)
    {
      var all := specs[..];
      var fs := seq(|all|, k requires 0 <= k < |all| && all[k].Some? => all[k].value.fields);
      assert fs == SpecFields(s);
      var verdict := backend(before, rows, fs);
      if verdict.Accept? && |verdict.ids| == |fs| && FreshIds(rows, verdict.ids) {
        Report(before, fs, verdict.ids, verdict.reported, s);
        o := Done;
      } else {
        trace := trace + [Batch(fs, false)];
        o := Failed(if verdict.Refuse? && verdict.constraint then Constraint else Driver);
      }
    }

    /** The rows are stored, and their specifications receive the IDs that are reported. */
    method Report(before: nat, fs: seq<Fields>, ids: seq<int>, reported: bool, ghost s: State)
      requires Reps(s) && Filled(s, |builders|) && fs == SpecFields(s)
      requires backend(before, rows, fs) == Accept(ids, reported) && |ids| == |fs| && FreshIds(rows, ids)
      modifies this`rows, this`trace, specs
      ensures Answer(bulk, before, s).0 == Done && Reps(Answer(bulk, before, s).1)
    {
      rows, trace := rows + Inserted(json, ids, fs), trace + [Batch(fs, true)];
      for k := 0 to specs.Length
        modifies specs
        invariant forall n :: 0 <= n < k ==> specs[n] == Some(Spec(fs[n], if reported then Some(ids[n]) else None))
      {
        specs[k] := Some(Spec(fs[k], if reported then Some(ids[k]) else None));
      }
      assert specs[..] == Answer(bulk, before, s).1.specs;
    }

    /** The innermost mutator of position i: check, build, run the rest of the chain, write back. */
    method Base(i: nat, m: Mutation, ghost x: nat, ghost s: State) returns (o: Outcome)
      requires Reps(s) && ValidBulk(bulk) && ValidState(bulk, s) && i < |builders| == |bulk.hooks|
      requires x < |muts| == |s.muts| && m == muts[x] && Filled(s, i)
      modifies repr
      ensures RunBase(bulk, i, x, s).0 == o && Reps(RunBase(bulk, i, x, s).1)
      ensures old(muts) <= muts && old(made) <= made && fresh(repr - old(repr)) && old(repr) <= repr
      decreases |builders| - i, 0, 0, Finish(Succeed)
    {
      var refused := Check(builders[i].mutation.fields);
      if refused.Some? {
        return Failed(refused.value);
      }
      o := Descend(i, m, x, s);
      if o.Done? {
        WriteBack(i, m, x, RunRest(bulk, i, Build(bulk, i, x, s)).1);
      }
    }

    /** Build the node and its specification, and run the rest of the chain. */
    method Descend(i: nat, m: Mutation, ghost x: nat, ghost s: State) returns (o: Outcome)
      requires Reps(s) && ValidBulk(bulk) && ValidState(bulk, s) && i < |builders| == |bulk.hooks|
      requires x < |muts| == |s.muts| && m == muts[x] && Filled(s, i)
      modifies repr
      ensures RunRest(bulk, i, Build(bulk, i, x, s)).0 == o && Reps(RunRest(bulk, i, Build(bulk, i, x, s)).1)
      ensures old(muts) <= muts && old(made) <= made && fresh(repr - old(repr)) && old(repr) <= repr
      decreases |builders| - i - 1, if i + 1 < |builders| then |builders[i + 1].hooks| else 0, 4, Finish(Succeed)
    {
      Prepare(i, m, x, s);
      o := Rest(i, Build(bulk, i, x, s));
    }

    /** The next position's mutator, or the database after the last position. */
    method Rest(i: nat, ghost s: State) returns (o: Outcome)
      requires Reps(s) && ValidBulk(bulk) && ValidState(bulk, s) && i < |builders| == |bulk.hooks| && Filled(s, i + 1)
      modifies repr
      ensures RunRest(bulk, i, s).0 == o && Reps(RunRest(bulk, i, s).1)
      ensures old(muts) <= muts && old(made) <= made && fresh(repr - old(repr)) && old(repr) <= repr
      decreases |builders| - i - 1, if i + 1 < |builders| then |builders[i + 1].hooks| else 0, 3, Finish(Succeed)
    {
      if i + 1 < |builders| {
        o := Mutate(i + 1, 0, builders[i + 1].mutation, s.cur[bulk.who[i + 1]], s);
      } else {
        o := InsertBatch(s);
      }
    }

    method Record(e: Event, ghost s: State)
      requires Reps(s)
      modifies this`trace
      ensures Reps(Log(s, e))
    {
      trace := trace + [e];
    }

    method EditMutation(m: Mutation, f: Fields, ghost x: nat, ghost s: State)
      requires Reps(s) && x < |muts| && m == muts[x]
      modifies m`fields
      ensures Reps(SetFields(s, x, f))
    {
      m.fields := f;
    }

    /** The fields of a mutation object are those of its place in the store. */
    lemma FieldsOf(m: Mutation, x: nat, s: State)
      requires Reps(s) && x < |muts| && m == muts[x]
      ensures x < |s.muts| && m.fields == s.muts[x].fields
    {
    }

    method HandOn(h: Handed, m: Mutation, ghost x: nat, ghost s: State) returns (m': Mutation)
      requires Reps(s) && x < |muts| && m == muts[x]
      modifies this`muts, this`repr
      ensures Reps(Hand(h, x, s).1) && Hand(h, x, s).0 < |muts| && m' == muts[Hand(h, x, s).0]
      ensures old(muts) <= muts && fresh(repr - old(repr)) && old(repr) <= repr && (h.Same? ==> m' == m)
    {
      m' := m;
      if h.Substitute? {
        m' := new Mutation(h.fields);
        muts, repr := muts + [m'], repr + {m'};
        assert RepsMutations(Hand(h, x, s).1);
      }
    }

    /** mutators[i].Mutate, from hook k inwards. */
    method Mutate(i: nat, k: nat, m: Mutation, ghost x: nat, ghost s: State) returns (o: Outcome)
      requires Reps(s) && ValidBulk(bulk)
      requires ValidState(bulk, s)
      requires i < |builders| == |bulk.hooks|
      requires builders[i].hooks == bulk.hooks[i]
      requires k <= |builders[i].hooks| && x < |muts| && m == muts[x] && Filled(s, i)
      modifies repr
      ensures RunHooks(bulk, i, k, x, s).0 == o && Reps(RunHooks(bulk, i, k, x, s).1)
      ensures old(muts) <= muts && old(made) <= made && fresh(repr - old(repr)) && old(repr) <= repr
      decreases |builders| - i, |builders[i].hooks| - k, 2, Finish(Succeed)
    {
      if k == |builders[i].hooks| {
        o := Base(i, m, x, s);
      } else {
        Record(Enter(i, k), s);
        o := RunHook(i, k, builders[i].hooks[k], m, x, Log(s, Enter(i, k)));
        Record(Leave(i, k), RunProgram(bulk, i, k, builders[i].hooks[k], Done, x, Log(s, Enter(i, k))).1);
      }
    }

    /** A hook's program, one instruction after the other; its value is that of the last call. */
    method RunHook(i: nat, k: nat, p: Hook, m: Mutation, ghost x: nat, ghost s: State) returns (o: Outcome)
      requires Reps(s) && ValidBulk(bulk)
      requires ValidState(bulk, s) && i < |builders| == |bulk.hooks| && builders[i].hooks == bulk.hooks[i]
      requires k < |builders[i].hooks| && x < |muts| == |s.muts| && m == muts[x] && Filled(s, i)
      modifies repr
      ensures RunProgram(bulk, i, k, p, Done, x, s).0 == o && Reps(RunProgram(bulk, i, k, p, Done, x, s).1)
      ensures old(muts) <= muts && old(made) <= made && fresh(repr - old(repr)) && old(repr) <= repr
      decreases |builders| - i, |builders[i].hooks| - k, 1, p
    {
      var q, last := p, Done;
      ghost var s' := s;
      while !q.Finish?
        invariant Reps(s') && ValidState(bulk, s') && Filled(s', i) && x < |s'.muts| && x < |muts| && m == muts[x]
        invariant RunProgram(bulk, i, k, q, last, x, s') == RunProgram(bulk, i, k, p, Done, x, s)
        invariant old(muts) <= muts && old(made) <= made && fresh(repr - old(repr)) && old(repr) <= repr
        decreases q
      {
        q, last, s' := Step(i, k, q, last, m, x, s');
      }
      o := if q.reply.Succeed? then Done else if q.reply.Fail? then Failed(q.reply.error) else last;
    }

    method Step(i: nat, k: nat, p: Hook, last: Outcome, m: Mutation, ghost x: nat, ghost s: State)
      returns (q: Hook, last': Outcome, ghost s': State)
      requires Reps(s) && ValidBulk(bulk)
      requires ValidState(bulk, s) && i < |builders| == |bulk.hooks| && builders[i].hooks == bulk.hooks[i]
      requires k < |builders[i].hooks| && x < |muts| == |s.muts| && m == muts[x] && Filled(s, i) && !p.Finish?
      modifies repr
      ensures q < p && Reps(s') && ValidState(bulk, s') && Filled(s', i) && x < |s'.muts|
      ensures RunProgram(bulk, i, k, q, last', x, s') == RunProgram(bulk, i, k, p, last, x, s)
      ensures old(muts) <= muts && old(made) <= made && fresh(repr - old(repr)) && old(repr) <= repr
      decreases |builders| - i, |builders[i].hooks| - k, 0, p
    {
      last' := last;
      match p {
        case Edit(edit, rest) =>
          FieldsOf(m, x, s);
          EditMutation(m, edit(m.fields), x, s);
          q, s' := rest, SetFields(s, x, edit(s.muts[x].fields));
        case Inspect(test, yes, no) =>
          FieldsOf(m, x, s);
          q, s' := if test(m.fields) then yes else no, s;
        case Next(handed, onDone, onError) =>
          last', s' := CallNext(i, k, handed, m, x, s);
          q := if last'.Done? then onDone else onError;
      }
    }

    /** The loop of Save that defaults the builders. */
    method SetAllDefaults(clocks: seq<Clock>, ghost s: State)
      requires Reps(s) && ValidBulk(bulk) && ValidState(bulk, s) && |clocks| == |builders| == |bulk.hooks|
      modifies repr
      ensures Reps(DefaultAll(bulk, s, clocks, 0)) && repr == old(repr)
    {
      ghost var s', goal := s, DefaultAll(bulk, s, clocks, 0);
      var i := 0;
      while i < |builders|
        invariant i <= |builders| && Reps(s') && repr == old(repr) && StillToDefault(s', clocks, i, goal)
      {
        s' := SetOneDefault(i, clocks, s');
        i := i + 1;
      }
      DefaultedInTheEnd(s', clocks, goal);
    }

    /** Defaulting positions i, i + 1, ... will lead to this state. */
    ghost predicate StillToDefault(s: State, clocks: seq<Clock>, i: nat, goal: State) {
      ValidBulk(bulk) && ValidState(bulk, s) && i <= |bulk.hooks| == |clocks| && DefaultAll(bulk, s, clocks, i) == goal
    }

    lemma DefaultedInTheEnd(s: State, clocks: seq<Clock>, goal: State)
      requires StillToDefault(s, clocks, |clocks|, goal)
      ensures s == goal
    {
    }

    method SetOneDefault(i: nat, clocks: seq<Clock>, ghost s: State) returns (ghost s': State)
      requires Reps(s) && ValidBulk(bulk) && ValidState(bulk, s) && i < |clocks| == |builders| == |bulk.hooks|
      modifies repr
      ensures Reps(s') && repr == old(repr)
      ensures forall goal :: StillToDefault(s, clocks, i, goal) ==> StillToDefault(s', clocks, i + 1, goal)
    {
      builders[i].SetDefaults(clocks[i]);
      ghost var x := s.cur[bulk.who[i]];
      s' := SetFields(s, x, Defaults(s.muts[x].fields, clocks[i]));
      assert RepsMutations(s');
    }

    /** mutators[0].Mutate, or nothing for an empty bulk. */
    method RunAll(ghost s: State) returns (o: Outcome)
      requires Reps(s) && ValidBulk(bulk) && ValidState(bulk, s) && |builders| == |bulk.hooks|
      modifies repr
      ensures RunChain(bulk, s).0 == o && Reps(RunChain(bulk, s).1)
    {
      o := Done;
      if |builders| > 0 {
        o := Mutate(0, 0, builders[0].mutation, s.cur[bulk.who[0]], s);
      }
    }

    method SaveAll(clocks: seq<Clock>, ghost s: State)
      returns (result: seq<Entity?>, failure: Option<Error>, rows': seq<Row>)
      requires Reps(s) && ValidBulk(bulk) && ValidState(bulk, s) && |clocks| == |builders| == |bulk.hooks|
      modifies repr
      ensures var (o, s') := RunChain(bulk, DefaultAll(bulk, s, clocks, 0));
              && Reps(s') && rows' == s'.rows
              && if o.Done? then result == nodes[..] && failure == None else result == [] && failure == Some(o.error)
    {
      SetAllDefaults(clocks, s);
      var o := RunAll(DefaultAll(bulk, s, clocks, 0));
      result, failure, rows' := [], None, rows;
      if o.Done? {
        result := nodes[..];
      } else {
        failure := Some(o.error);
      }
    }

    /** A hook's call of next.Mutate. */
    method CallNext(i: nat, k: nat, handed: Handed, m: Mutation, ghost x: nat, ghost s: State)
      returns (o: Outcome, ghost s': State)
      requires Reps(s) && ValidBulk(bulk) && ValidState(bulk, s)
      requires i < |builders| == |bulk.hooks| && builders[i].hooks == bulk.hooks[i]
      requires k < |builders[i].hooks| && x < |muts| == |s.muts| && m == muts[x] && Filled(s, i)
      modifies repr
      ensures var (x', s1) := Hand(handed, x, s); (o, s') == RunHooks(bulk, i, k + 1, x', s1)
      ensures Reps(s') && ValidState(bulk, s') && Filled(s', i) && x < |s'.muts|
      ensures old(muts) <= muts && old(made) <= made && fresh(repr - old(repr)) && old(repr) <= repr
      decreases |builders| - i, |builders[i].hooks| - k - 1, 3, Finish(Succeed)
    {
      ghost var (x', s1) := Hand(handed, x, s);
      var m' := HandOn(handed, m, x, s);
      o := Mutate(i, k + 1, m', x', s1);
      s' := RunHooks(bulk, i, k + 1, x', s1).1;
    }
  }

  /** A bulk before anything has been built. */
  function InitialState(muts: seq<MutationValue>, cur: seq<nat>, rows: seq<Row>): State {
    State(muts, cur, [], seq(|cur|, _ => None), seq(|cur|, _ => None), rows, [], [])
  }

  ghost function ValueOf(m: Mutation): MutationValue
    reads m
  {
    MutationValue(m.fields, None, m.done)
  }

  /** builder.defaults() for positions i, i + 1, ... */
  function DefaultAll(b: Bulk, s: State, clocks: seq<Clock>, i: nat): (s': State)
    requires ValidBulk(b) && ValidState(b, s) && i <= |b.hooks| == |clocks|
    ensures ValidState(b, s') && |s'.muts| == |s.muts| && s' == s.(muts := s'.muts)
    decreases |clocks| - i
  {
    if i == |clocks| then s
    else
      var m := s.cur[b.who[i]];
      DefaultAll(b, SetFields(s, m, Defaults(s.muts[m].fields, clocks[i])), clocks, i + 1)
  }

  /** The first position from i on whose builder has mutation m. */
  function FirstWith(b: Bulk, s: State, i: nat, m: nat): (j: nat)
    requires ValidBulk(b) && ValidState(b, s) && i <= |b.hooks|
    ensures i <= j <= |b.hooks| && (j < |b.hooks| ==> Own(b, s, j) == m)
    ensures forall l :: i <= l < j ==> Own(b, s, l) != m
    decreases |b.hooks| - i
  {
    if i == |b.hooks| || Own(b, s, i) == m then i else FirstWith(b, s, i + 1, m)
  }

  lemma DefaultsOnce(f: Fields, first: Clock, second: Clock)
    ensures Defaults(Defaults(f, first), second) == Defaults(f, first)
  {
  }

  /**
    Every builder enters the chain with its own fields, defaulted by its own clock; builders that
    share a mutation by that of the first of them.
   */
  lemma {:induction false} DefaultsReachEveryBuilder(b: Bulk, s: State, clocks: seq<Clock>, i: nat, m: nat)
    requires ValidBulk(b) && ValidState(b, s) && i <= |b.hooks| == |clocks| && m < |s.muts|
    ensures DefaultAll(b, s, clocks, i).muts[m].fields == Defaulted(s.muts[m].fields, clocks, FirstWith(b, s, i, m))
    decreases |clocks| - i, 0
  {
    if i < |clocks| {
      var x := Own(b, s, i);
      DefaultUnfolds(b, s, clocks, i);
      LaterDefaults(b, s, clocks, i, m, Defaults(s.muts[x].fields, clocks[i]));
      if x == m {
        DefaultedOnce(s.muts[m].fields, clocks, i, FirstWith(b, s, i + 1, m));
      }
    }
  }

  lemma {:induction false} LaterDefaults(b: Bulk, s: State, clocks: seq<Clock>, i: nat, m: nat, f: Fields)
    requires ValidBulk(b) && ValidState(b, s) && i < |b.hooks| == |clocks| && m < |s.muts|
    ensures var x := Own(b, s, i);
            DefaultAll(b, SetFields(s, x, f), clocks, i + 1).muts[m].fields
            == Defaulted(if x == m then f else s.muts[m].fields, clocks, FirstWith(b, s, i + 1, m))
    decreases |clocks| - i - 1, 1
  {
    var x := Own(b, s, i);
    var s' := SetFields(s, x, f);
    var after := DefaultAll(b, s', clocks, i + 1).muts[m].fields;
    var first := FirstWith(b, s', i + 1, m);
    assert after == Defaulted(s'.muts[m].fields, clocks, first) by {
      DefaultsReachEveryBuilder(b, s', clocks, i + 1, m);
    }
    assert first == FirstWith(b, s, i + 1, m) by {
      SameFirst(b, s, s', i + 1, m);
    }
  }

  /** Fields defaulted at position j, if there is one. */
  function Defaulted(f: Fields, clocks: seq<Clock>, j: nat): Fields {
    if j < |clocks| then Defaults(f, clocks[j]) else f
  }

  lemma DefaultedOnce(f: Fields, clocks: seq<Clock>, i: nat, j: nat)
    requires i < |clocks|
    ensures Defaulted(Defaulted(f, clocks, i), clocks, j) == Defaulted(f, clocks, i)
  {
    if j < |clocks| {
      DefaultsOnce(f, clocks[i], clocks[j]);
    }
  }

  lemma DefaultUnfolds(b: Bulk, s: State, clocks: seq<Clock>, i: nat)
    requires ValidBulk(b) && ValidState(b, s) && i < |b.hooks| == |clocks|
    ensures var x := Own(b, s, i);
            DefaultAll(b, s, clocks, i)
            == DefaultAll(b, SetFields(s, x, Defaults(s.muts[x].fields, clocks[i])), clocks, i + 1)
  {
  }

  lemma {:induction false} SameFirst(b: Bulk, s: State, s': State, i: nat, m: nat)
    requires ValidBulk(b) && ValidState(b, s) && ValidState(b, s') && i <= |b.hooks| && s'.cur == s.cur
    ensures FirstWith(b, s', i, m) == FirstWith(b, s, i, m)
    decreases |b.hooks| - i
  {
    if i < |b.hooks| {
      SameFirst(b, s, s', i + 1, m);
    }
  }

  class ChangeOrderCreateBulk {
    const err: Option<Error>
    const builders: seq<ChangeOrderCreate>
    var conflict: seq<ConflictOption>

    constructor (builders: seq<ChangeOrderCreate>, err: Option<Error>)
      ensures this.builders == builders && this.err == err && conflict == []
    {
      this.builders, this.err, conflict := builders, err, [];
    }

    /** OnConflict replaces the options of the bulk, OnConflictColumns adds a conflict target to them. */
    method OnConflict(options: seq<ConflictOption>)
      modifies this`conflict
      ensures conflict == options
    {
      conflict := options;
    }

    method OnConflictColumns(columns: seq<Column>)
      modifies this`conflict
      ensures conflict == old(conflict) + OptionsOf(ConflictColumns(columns))
    {
      conflict := conflict + [Target(columns)];
    }

    /** Names for the builders and their mutations: `who` for positions, `reg` for objects. */
    ghost predicate Registered(who: seq<nat>, reg: seq<Mutation>, cur: seq<nat>)
      reads this, builders
    {
      && |who| == |cur| == |builders|
      && (forall i :: 0 <= i < |who| ==> who[i] < |who|)
      && (forall i :: 0 <= i < |cur| ==> cur[i] < |reg|)
      && (forall i, j :: 0 <= i < |builders| && 0 <= j < |builders| ==>
            (builders[i] == builders[j] <==> who[i] == who[j]))
      && (forall x, y :: 0 <= x < y < |reg| ==> reg[x] != reg[y])
      && (forall i :: 0 <= i < |builders| ==> builders[i].mutation == reg[cur[who[i]]])
      && (forall x :: 0 <= x < |reg| ==> reg[x] in Mutations())
    }

    ghost function Mutations(): set<Mutation>
      reads builders
    {
      set b | b in builders :: b.mutation
    }

    /** What a save may change: the builders, and their mutations. */
    ghost function Footprint(): set<object>
      reads builders
    {
      (set b: object | b in builders) + (set m: object | m in Mutations())
    }

    lemma NamePositions() returns (who: seq<nat>)
      ensures |who| == |builders| && forall i :: 0 <= i < |who| ==> who[i] < |who| && builders[who[i]] == builders[i]
      ensures forall i, j :: 0 <= i < |who| && 0 <= j < |who| && builders[i] == builders[j] ==> who[i] == who[j]
    {
      who := [];
      for n := 0 to |builders|
        invariant |who| == n && forall i :: 0 <= i < n ==> who[i] <= i && builders[who[i]] == builders[i]
        invariant forall i, j :: 0 <= i < n && 0 <= j < n && builders[i] == builders[j] ==> who[i] == who[j]
      {
        if j :| 0 <= j < n && builders[j] == builders[n] {
          who := who + [who[j]];
        } else {
          who := who + [n];
        }
      }
    }

    lemma NameMutations() returns (reg: seq<Mutation>, cur: seq<nat>)
      ensures |cur| == |builders|
      ensures forall i :: 0 <= i < |cur| ==> cur[i] < |reg| && reg[cur[i]] == builders[i].mutation
      ensures forall x, y :: 0 <= x < y < |reg| ==> reg[x] != reg[y]
      ensures forall x :: 0 <= x < |reg| ==> reg[x] in Mutations()
    {
      reg, cur := [], [];
      for n := 0 to |builders|
        invariant |cur| == n && forall i :: 0 <= i < n ==> cur[i] < |reg| && reg[cur[i]] == builders[i].mutation
        invariant forall x, y :: 0 <= x < y < |reg| ==> reg[x] != reg[y]
        invariant forall x :: 0 <= x < |reg| ==> reg[x] in Mutations()
      {
        var m := builders[n].mutation;
        assert m in Mutations();
        if x :| 0 <= x < |reg| && reg[x] == m {
          cur := cur + [x];
        } else {
          cur, reg := cur + [|reg|], reg + [m];
        }
      }
    }

    /** Any bulk can be named, whatever its builders share. */
    lemma Register() returns (who: seq<nat>, reg: seq<Mutation>, cur: seq<nat>)
      ensures Registered(who, reg, cur)
    {
      who := NamePositions();
      reg, cur := NameMutations();
    }

    /**
      Save. The clocks are the readings of the default functions, one per position; `rows` is the
      table before and `rows'` after. The ghost results say which run of the chain this was. After a
      success with honest hooks every slot holds a node, and if no two builders share a mutation, each
      mutation is done and reads its ID from its node; with pass-through hooks exactly then.
     */
    method Save(clocks: seq<Clock>, json: JsonCodec, backend: Backend, rows: seq<Row>)
      returns (nodes: seq<Entity?>, failure: Option<Error>, rows': seq<Row>, ghost start: State, ghost run: SaveRun?)
      requires |clocks| == |builders|
      modifies builders, Mutations()
      ensures err.Some? ==> nodes == [] && failure == err && rows' == rows
      ensures err.Some? ==> forall b :: b in builders ==>
                b.mutation == old(b.mutation) && b.mutation.fields == old(b.mutation.fields)
      ensures err.None? ==> Saves(old(MutationFields()), old(MutationObjects()), clocks, json, backend, rows,
                                  nodes, failure, rows', start, run)
      ensures err.None? && failure.None? && HonestHooks() ==>
                |nodes| == |builders| && (forall i :: 0 <= i < |nodes| ==> nodes[i] != null)
                && (Distinct(old(MutationObjects())) ==> Aliases(nodes))
      ensures err.None? && failure.None? && PassThroughHooks() && |nodes| == |builders| ==>
                (Aliases(nodes) <==> Distinct(old(MutationObjects())))
    {
      nodes, failure, rows', run := [], err, rows, null;
      start := InitialState([], [], rows);
      if err.None? {
        nodes, failure, rows', start, run := RunSave(clocks, json, backend, rows);
        if failure.None? {
          SavedAliases(old(MutationFields()), old(MutationObjects()), clocks, json, backend, rows, nodes, rows', start,
                       run);
        }
      }
    }

    ghost predicate HonestHooks() {
      forall i, k :: 0 <= i < |builders| && 0 <= k < |builders[i].hooks| ==> Honest(builders[i].hooks[k], None)
    }

    ghost predicate PassThroughHooks() {
      forall i, k :: 0 <= i < |builders| && 0 <= k < |builders[i].hooks| ==> PassesThrough(builders[i].hooks[k])
    }

    ghost predicate Distinct(objects: seq<Mutation>) {
      forall i, j :: 0 <= i < j < |objects| ==> objects[i] != objects[j]
    }

    /** Each builder's mutation is done, and its ID is read from the node in the builder's slot. */
    ghost predicate Aliases(nodes: seq<Entity?>)
      requires |nodes| == |builders|
      reads builders, Mutations(), nodes
    {
      forall i :: 0 <= i < |builders| ==> IsAlias(i, nodes[i])
    }

    ghost predicate IsAlias(i: nat, node: Entity?)
      requires i < |builders|
      reads builders, Mutations(), if node == null then {} else {node}
    {
      var m := builders[i].mutation;
      assert m in Mutations();
      node != null && m.done && m.id == node && m.ID() == Some(node.id)
    }

    lemma SavedAliases(before: seq<Fields>, objects: seq<Mutation>, clocks: seq<Clock>, json: JsonCodec,
                       backend: Backend, rows: seq<Row>, nodes: seq<Entity?>, rows': seq<Row>, start: State,
                       run: SaveRun?)
      requires |clocks| == |builders|
      requires Saves(before, objects, clocks, json, backend, rows, nodes, None, rows', start, run)
      ensures HonestHooks() ==>
                |nodes| == |builders| && (forall i :: 0 <= i < |nodes| ==> nodes[i] != null)
                && (Distinct(objects) ==> Aliases(nodes))
      ensures PassThroughHooks() && |nodes| == |builders| ==> (Aliases(nodes) <==> Distinct(objects))
    {
      var s := DefaultAll(run.bulk, start, clocks, 0);
      assert HonestHooks() ==> AllHonest(run.bulk);
      assert PassThroughHooks() ==> AllPassThrough(run.bulk);
      if PassThroughHooks() {
        AllPassThroughIsHonest(run.bulk);
        HooksAreHonest();
      }
      DistinctIsSeparate(objects, run, start, clocks);
      if HonestHooks() {
        forall i | 0 <= i < |builders|
          ensures nodes[i] != null && (Distinct(objects) ==> IsAlias(i, nodes[i]))
        {
          run.ReturnedNodes(s, i);
          if Distinct(objects) {
            run.AliasesReturnedNode(s, i);
          }
        }
      }
      if PassThroughHooks() && |nodes| == |builders| && |builders| > 0 && Aliases(nodes) {
        AliasesAreDistinct(objects, run, start, clocks, nodes);
      }
    }

    lemma HooksAreHonest()
      requires PassThroughHooks()
      ensures HonestHooks()
    {
      forall i, k | 0 <= i < |builders| && 0 <= k < |builders[i].hooks|
        ensures Honest(builders[i].hooks[k], None)
      {
        PassThroughIsHonest(builders[i].hooks[k]);
      }
    }

    /** Different mutation objects have different places in the store, before and after the defaults. */
    lemma DistinctIsSeparate(objects: seq<Mutation>, run: SaveRun, start: State, clocks: seq<Clock>)
      requires ValidBulk(run.bulk) && ValidState(run.bulk, start) && |clocks| == |builders| == |run.bulk.hooks|
      requires SharedAs(objects, run, start) && NodesApart(start)
      ensures var s := DefaultAll(run.bulk, start, clocks, 0);
              && NodesApart(s)
              && (Distinct(objects) <==> Separate(run.bulk, start)) && (Distinct(objects) <==> Separate(run.bulk, s))
    {
      var s := DefaultAll(run.bulk, start, clocks, 0);
      SameOwn(run.bulk, start, s);
      forall i, j | 0 <= i < j < |objects|
        ensures objects[i] == objects[j] <==> Own(run.bulk, start, i) == Own(run.bulk, start, j)
      {
      }
    }

    lemma AliasesAreDistinct(objects: seq<Mutation>, run: SaveRun, start: State, clocks: seq<Clock>,
                             nodes: seq<Entity?>)
      requires ValidBulk(run.bulk) && ValidState(run.bulk, start) && |clocks| == |builders| == |run.bulk.hooks| > 0
      requires SharedAs(objects, run, start) && NodesApart(start) && run.builders == builders
      requires AllPassThrough(run.bulk)
      requires var (o, final) := RunChain(run.bulk, DefaultAll(run.bulk, start, clocks, 0));
               o.Done? && run.Reps(final) && nodes == run.nodes[..]
      requires |nodes| == |builders| && Aliases(nodes)
      ensures Distinct(objects)
    {
      var s := DefaultAll(run.bulk, start, clocks, 0);
      var final := RunChain(run.bulk, s).1;
      DistinctIsSeparate(objects, run, start, clocks);
      AllPassThroughIsHonest(run.bulk);
      SuccessMeansSaved(run.bulk, s);
      forall j | 0 <= j < |builders|
        ensures run.Aliased(j)
      {
        assert IsAlias(j, nodes[j]);
      }
      run.AliasedIsSeparate(final);
      SaveFollowsPlan(run.bulk, s);
      SameOwn(run.bulk, s, final);
    }

    method RunSave(clocks: seq<Clock>, json: JsonCodec, backend: Backend, rows: seq<Row>)
      returns (nodes: seq<Entity?>, failure: Option<Error>, rows': seq<Row>, ghost start: State, ghost run: SaveRun?)
      requires |clocks| == |builders|
      modifies builders, Mutations()
      ensures Saves(old(MutationFields()), old(MutationObjects()), clocks, json, backend, rows,
                    nodes, failure, rows', start, run)
    {
      var r;
      r, start := SetUp(json, backend, rows);
      run := r;
      nodes, failure, rows' := r.SaveAll(clocks, start);
    }

    /** These are the results of a run of the chain on the builders as they were before, and then defaulted. */
    ghost predicate Saves(before: seq<Fields>, objects: seq<Mutation>, clocks: seq<Clock>, json: JsonCodec,
                          backend: Backend, rows: seq<Row>, nodes: seq<Entity?>, failure: Option<Error>,
                          rows': seq<Row>, start: State, run: SaveRun?)
      requires |clocks| == |builders|
      reads if run == null then {} else {run, run.nodes} + run.repr
    {
      && StartedAs(run, start, json, backend, rows)
      && OwnFields(run.bulk, start) == before && SharedAs(objects, run, start)
      && var (o, final) := RunChain(run.bulk, DefaultAll(run.bulk, start, clocks, 0));
         && run.Reps(final) && rows' == final.rows
         && if o.Done? then nodes == run.nodes[..] && failure == None else nodes == [] && failure == Some(o.error)
    }

    /** Positions share a place in the store exactly if their builders shared a mutation. */
    ghost predicate SharedAs(objects: seq<Mutation>, run: SaveRun, start: State)
      requires ValidBulk(run.bulk) && ValidState(run.bulk, start)
    {
      && |objects| == |builders| == |run.bulk.hooks|
      && forall i, j :: 0 <= i < |objects| && 0 <= j < |objects| ==>
           (objects[i] == objects[j] <==> Own(run.bulk, start, i) == Own(run.bulk, start, j))
    }

    /** The slices that the closures share. */
    method SetUp(json: JsonCodec, backend: Backend, rows: seq<Row>)
      returns (r: SaveRun, ghost start: State)
      ensures fresh(r) && fresh(r.nodes) && fresh(r.specs) && r.repr <= {r, r.nodes, r.specs} + Footprint()
      ensures StartedAs(r, start, json, backend, rows) && r.Reps(start)
      ensures OwnFields(r.bulk, start) == MutationFields() && SharedAs(MutationObjects(), r, start)
    {
      ghost var who, reg, cur := Register();
      r := NewRun(who, reg, cur, json, backend, rows);
      start := InitialState(ValuesOf(reg), cur, rows);
      r.InitialReps(ValuesOf(reg), cur);
      SetUpStarts(who, reg, cur, r, start, json, backend, rows);
    }

    lemma SetUpStarts(who: seq<nat>, reg: seq<Mutation>, cur: seq<nat>, r: SaveRun, start: State, json: JsonCodec,
                      backend: Backend, rows: seq<Row>)
      requires Registered(who, reg, cur) && r.builders == builders && start == InitialState(ValuesOf(reg), cur, rows)
      requires r.bulk == Bulk(false, HooksOf(builders), who, json, backend)
      requires ValidBulk(r.bulk) && ValidState(r.bulk, start)
      ensures StartedAs(r, start, json, backend, rows) && SharedAs(MutationObjects(), r, start)
      ensures OwnFields(r.bulk, start) == MutationFields()
    {
      var at := Places(r.bulk, start);
      NamesAgree(MutationObjects(), at, reg);
      assert forall i :: 0 <= i < |at| ==> at[i] == Own(r.bulk, start, i);
      assert forall i :: 0 <= i < |at| ==> OwnFields(r.bulk, start)[i] == MutationFields()[i];
    }

    method NewRun(ghost who: seq<nat>, ghost reg: seq<Mutation>, ghost cur: seq<nat>,
                  json: JsonCodec, backend: Backend, rows: seq<Row>) returns (r: SaveRun)
      requires Registered(who, reg, cur)
      ensures fresh(r) && fresh(r.nodes) && fresh(r.specs) && r.repr <= {r, r.nodes, r.specs} + Footprint()
      ensures r.Owned() && r.Wired()
      ensures r.builders == builders
      ensures r.bulk == Bulk(false, HooksOf(builders), who, json, backend) && ValidBulk(r.bulk)
      ensures r.muts == reg && r.made == [] && r.rows == rows && r.trace == [] && r.tries == 0 && r.requests == []
      ensures forall i :: 0 <= i < |builders| ==> r.nodes[i] == null && r.specs[i] == None
    {
      r := new SaveRun(builders, json, backend, rows, Bulk(false, HooksOf(builders), who, json, backend), reg);
    }

    ghost function MutationObjects(): (ms: seq<Mutation>)
      reads builders
      ensures |ms| == |builders| && forall i :: 0 <= i < |builders| ==> ms[i] == builders[i].mutation
    {
      seq(|builders|, i requires 0 <= i < |builders| reads builders => builders[i].mutation)
    }

    ghost function MutationFields(): (fs: seq<Fields>)
      reads builders, Mutations()
      ensures |fs| == |builders| && forall i :: 0 <= i < |builders| ==> fs[i] == builders[i].mutation.fields
    {
      FieldsFrom(0)
    }

    ghost function FieldsFrom(n: nat): (fs: seq<Fields>)
      requires n <= |builders|
      reads builders, Mutations()
      ensures |fs| == |builders| - n && forall i :: n <= i < |builders| ==> fs[i - n] == builders[i].mutation.fields
      decreases |builders| - n
    {
      if n == |builders| then []
      else
        assert builders[n].mutation in Mutations();
        [builders[n].mutation.fields] + FieldsFrom(n + 1)
    }

    ghost function HooksOf(bs: seq<ChangeOrderCreate>): (hs: seq<seq<Hook>>)
      ensures |hs| == |bs| && forall i :: 0 <= i < |bs| ==> hs[i] == bs[i].hooks
    {
      seq(|bs|, i requires 0 <= i < |bs| => bs[i].hooks)
    }

    ghost function ValuesOf(ms: seq<Mutation>): (vs: seq<MutationValue>)
      reads set m | m in ms
      ensures |vs| == |ms| && forall i :: 0 <= i < |ms| ==> vs[i] == ValueOf(ms[i])
    {
      if ms == [] then [] else [ValueOf(ms[0])] + ValuesOf(ms[1..])
    }

    /** The run was set up from these builders, with nothing built yet. */
    ghost predicate StartedAs(run: SaveRun?, start: State, json: JsonCodec,
                              backend: Backend, rows: seq<Row>)
    {
      && run != null && run.builders == builders && ValidBulk(run.bulk) && ValidState(run.bulk, start)
      && run.bulk.hooks == HooksOf(builders) && run.bulk.json == json && run.bulk.backend == backend && !run.bulk.alone
      && start.rows == rows && start.trace == [] && start.made == [] && Filled(start, 0)
      && start.requests == [] && NodesApart(start) && Checked(start)
    }
  }
}
