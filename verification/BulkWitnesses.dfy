/** One builder twice in a bulk: what the save then does not do. */
module BulkWitnesses {
  import opened Relational
  import opened RowCodec
  import opened ChangeOrderFields
  import opened MutatorChain
  import opened NodeDelivery
  import opened DoneMutations
  import opened ConflictOptions
  import opened Upsert

  /** A change order with a title, after the defaults. */
  function Titled(): Fields {
    Defaults(map[Title := Text("x")], Clock(1, 1))
  }

  lemma TitledPasses()
    ensures Check(Titled()).None? && CreatedAt in Titled()
    ensures Check(Titled()[Comment := Text("y")]).None? && Comment !in Titled()
  {
    var f := map[Title := Text("x")];
    CheckAfterDefaults(f, Clock(1, 1));
    CheckAfterDefaults(f[Comment := Text("y")], Clock(1, 1));
    assert Defaults(f[Comment := Text("y")], Clock(1, 1)) == Titled()[Comment := Text("y")];
  }

  /** An empty table gives the IDs 1, 2, ... */
  function AcceptTwo(): Backend {
    (tries, rows, specs) => if |specs| == 2 && rows == [] then Accept([1, 2], true) else Refuse(false)
  }

  /** The same builder twice, with these hooks, and its one mutation. */
  function Twice(hooks: seq<Hook>, j: JsonCodec): Bulk {
    Bulk(false, [hooks, hooks], [0, 0], j, AcceptTwo())
  }

  function OneMutation(f: Fields): State {
    State([MutationValue(f, None, false)], [0, 0], [], [None, None], [None, None], [], [], [])
  }

  /** The innermost mutator of a bulk, once its check has passed. */
  lemma BasePasses(b: Bulk, i: nat, m: nat, s: State)
    requires ValidBulk(b) && ValidState(b, s) && i < |b.hooks| && m < |s.muts| && Filled(s, i) && !b.alone
    requires Check(s.muts[s.cur[b.who[i]]].fields).None?
    ensures RunBase(b, i, m, s)
         == var (o, s2) := RunRest(b, i, Build(b, i, m, s)); if o.Failed? then (o, s2) else (Done, Settle(b, i, m, s2))
  {
  }

  /** A bulk in which both positions are one builder without hooks. */
  lemma PairRun(b: Bulk, s: State)
    requires ValidBulk(b) && ValidState(b, s) && !b.alone && b.hooks == [[], []] && b.who == [0, 0]
    requires Check(s.muts[s.cur[0]].fields).None?
    ensures var m := s.cur[0];
            var (o, s') := BatchCreate(b, Build(b, 1, m, Build(b, 0, m, s)));
            RunChain(b, s) == if o.Failed? then (o, s') else (Done, Settle(b, 0, m, Settle(b, 1, m, s')))
  {
    var m := s.cur[0];
    var s1 := Build(b, 0, m, s);
    BasePasses(b, 0, m, s);
    BasePasses(b, 1, m, s1);
    assert RunRest(b, 1, Build(b, 1, m, s1)) == BatchCreate(b, Build(b, 1, m, s1));
    assert RunRest(b, 0, s1) == RunBase(b, 1, m, s1);
  }

  /** After both positions have been built. */
  function BothBuilt(f: Fields): State {
    var node, spec := EntityValue(0, Settable(f), map[]), Spec(Settable(f), None);
    OneMutation(f).(made := [node, node], nodes := [Some(0), Some(1)], specs := [Some(spec), Some(spec)])
  }

  lemma BothAreBuilt(j: JsonCodec, f: Fields)
    ensures Build(Twice([], j), 1, 0, Build(Twice([], j), 0, 0, OneMutation(f))) == BothBuilt(f)
  {
  }

  lemma BothAreStored(j: JsonCodec, f: Fields)
    ensures var (o, s') := BatchCreate(Twice([], j), BothBuilt(f));
            && o.Done? && |s'.rows| == 2 && s'.muts == BothBuilt(f).muts && s'.made == BothBuilt(f).made
            && s'.cur == [0, 0] && s'.nodes == [Some(0), Some(1)]
            && s'.specs == [Some(Spec(Settable(f), Some(1))), Some(Spec(Settable(f), Some(2)))]
  {
    var b, s := Twice([], j), BothBuilt(f);
    assert SpecFields(s) == [Settable(f), Settable(f)];
    assert Insert(b, s, SpecFields(s)) == Ok([1, 2]);
  }

  /** The bulk is stored and returns two nodes, but the one mutation points at the first only. */
  lemma SecondPositionIsNotMarked(j: JsonCodec)
    ensures var b, s := Twice([], j), OneMutation(Titled());
            var (o, s') := RunChain(b, s);
            && o.Done? && |s'.rows| == 2
            && Returned(b, s', 0) && Returned(b, s', 1) && Marked(b, s', 0) && !Marked(b, s', 1)
            && s'.muts[Own(b, s', 1)].id == s'.nodes[0] != s'.nodes[1]
  {
    var b, s := Twice([], j), OneMutation(Titled());
    TitledPasses();
    PairRun(b, s);
    BothAreBuilt(j, Titled());
    BothAreStored(j, Titled());
    SettledTwice(b, BatchCreate(b, BothBuilt(Titled())).1, Settable(Titled()));
  }

  /** The first position writes back last, so the mutation ends up with its node. */
  lemma SettledTwice(b: Bulk, s: State, f: Fields)
    requires ValidBulk(b) && ValidState(b, s) && |b.hooks| == 2 && b.who == [0, 0] && s.cur == [0, 0] && |s.muts| == 1
    requires s.nodes == [Some(0), Some(1)] && s.made == [EntityValue(0, f, map[]), EntityValue(0, f, map[])]
    requires s.specs == [Some(Spec(f, Some(1))), Some(Spec(f, Some(2)))]
    ensures var s' := Settle(b, 0, 0, Settle(b, 1, 0, s));
            && Returned(b, s', 0) && Returned(b, s', 1) && Marked(b, s', 0) && !Marked(b, s', 1)
            && s'.rows == s.rows && s'.nodes == s.nodes && s'.cur == s.cur && s'.muts[0].id == Some(0)
  {
    var s1 := Settle(b, 1, 0, s);
    assert s1.made == [EntityValue(0, f, map[]), EntityValue(2, f, map[])] && s1.muts[0].id == Some(1);
    var s2 := Settle(b, 0, 0, s1);
    assert s2.made == [EntityValue(1, f, map[]), EntityValue(2, f, map[])] && s2.muts[0].id == Some(0);
  }

  // ---------------------------------------------------------------- a hook that hands on mutations of its own

  predicate HasComment(f: Fields) {
    Comment in f
  }

  function Commented(): Fields {
    Titled()[Comment := Text("y")]
  }

  /** Hands on a commented change order the first time, and an empty mutation when it finds the comment. */
  function Hiding(): Hook {
    Inspect(f => HasComment(f), HandOn(map[]), HandOn(Commented()))
  }

  /** What the inner mutator of position i gets to see. */
  function Replaced(i: nat, m: nat, s: State): State
    requires m < |s.muts|
  {
    var f := if HasComment(s.muts[m].fields) then map[] else Commented();
    Log(s, Enter(i, 0)).(muts := s.muts + [MutationValue(f, None, false)])
  }

  lemma ReplacedIsValid(b: Bulk, i: nat, m: nat, s: State)
    requires ValidState(b, s) && Filled(s, i) && m < |s.muts|
    ensures ValidState(b, Replaced(i, m, s)) && Filled(Replaced(i, m, s), i)
  {
  }

  function HandOn(f: Fields): Hook {
    Next(Substitute(f), Finish(Propagate), Finish(Propagate))
  }

  lemma HandOnRun(b: Bulk, i: nat, m: nat, s: State, f: Fields)
    requires ValidBulk(b) && ValidState(b, s) && i < |b.hooks| && |b.hooks[i]| == 1 && m < |s.muts| && Filled(s, i)
    ensures var s1 := s.(muts := s.muts + [MutationValue(f, None, false)]);
            ValidState(b, s1) && RunProgram(b, i, 0, HandOn(f), Done, m, s) == RunBase(b, i, |s.muts|, s1)
  {
    var (m1, s1) := Hand(Substitute(f), m, s);
    assert ValidState(b, s1);
    var (o, s2) := RunHooks(b, i, 1, m1, s1);
    assert RunProgram(b, i, 0, Finish(Propagate), o, m, s2) == (o, s2);
  }

  /** The hook is entered, hands its mutation to the innermost mutator, and is left. */
  lemma HidingRun(b: Bulk, i: nat, m: nat, s: State)
    requires ValidBulk(b) && ValidState(b, s) && i < |b.hooks| && b.hooks[i] == [Hiding()]
    requires m < |s.muts| && Filled(s, i)
    ensures ValidState(b, Replaced(i, m, s))
    ensures RunHooks(b, i, 0, m, s).1.requests == RunBase(b, i, |s.muts|, Replaced(i, m, s)).1.requests
  {
    var s1 := Log(s, Enter(i, 0));
    var handed := if HasComment(s.muts[m].fields) then map[] else Commented();
    HandOnRun(b, i, m, s1, handed);
    assert b.hooks[i][0] == Hiding();
    assert RunProgram(b, i, 0, Hiding(), Done, m, s1) == RunProgram(b, i, 0, HandOn(handed), Done, m, s1);
  }

  /** ... which goes on to the rest if its check passes. */
  lemma HidingGoesOn(b: Bulk, i: nat, m: nat, s: State)
    requires ValidBulk(b) && ValidState(b, s) && !b.alone && i < |b.hooks| && b.hooks[i] == [Hiding()]
    requires m < |s.muts| && Filled(s, i) && Check(s.muts[s.cur[b.who[i]]].fields).None?
    ensures ValidState(b, Replaced(i, m, s))
    ensures RunHooks(b, i, 0, m, s).1.requests
         == RunRest(b, i, Build(b, i, |s.muts|, Replaced(i, m, s))).1.requests
  {
    HidingRun(b, i, m, s);
    ReplacedIsValid(b, i, m, s);
    BasePasses(b, i, |s.muts|, Replaced(i, m, s));
  }

  /** After both positions have been built, each from the mutation it was handed. */
  lemma BuiltFromHanded(j: JsonCodec)
    ensures var b, s := Twice([Hiding()], j), OneMutation(Titled());
            var s1 := Build(b, 0, 1, Replaced(0, 0, s));
            && s1.muts == s.muts + [MutationValue(Commented(), None, false)] && s1.cur == [1, 0]
            && s1.requests == [] && ValidState(b, s1) && Filled(s1, 1)
            && var s2 := Build(b, 1, 2, Replaced(1, 1, s1));
               && s2.requests == [] && ValidState(b, s2) && Filled(s2, 2)
               && SpecFields(s2) == [Settable(Commented()), map[]] && OwnFields(b, s2) == [map[], map[]]
  {
    TitledPasses();
    var b, s := Twice([Hiding()], j), OneMutation(Titled());
    var s1 := Build(b, 0, 1, Replaced(0, 0, s));
    assert HasComment(s1.muts[1].fields);
    var s2 := Build(b, 1, 2, Replaced(1, 1, s1));
    assert s2.muts[2].fields == map[] && s2.cur == [2, 0] && Settable(map[]) == map[];
  }

  /** The one insert of this bulk: its rows, and what the builder's mutation holds by then. */
  function HiddenRequest(): Request {
    Request([Settable(Commented()), map[]], [map[], map[]])
  }

  lemma HidingRequests(j: JsonCodec)
    ensures Requested(Twice([Hiding()], j), OneMutation(Titled())) == [HiddenRequest()]
  {
    var b, s := Twice([Hiding()], j), OneMutation(Titled());
    var s1 := Build(b, 0, 1, Replaced(0, 0, s));
    assert RunRest(b, 0, s1).1.requests == [HiddenRequest()] by {
      TitledPasses();
      BuiltFromHanded(j);
      FromSecondPosition(b, s1);
    }
    FromFirstPosition(j);
  }

  lemma FromFirstPosition(j: JsonCodec)
    ensures var b, s := Twice([Hiding()], j), OneMutation(Titled());
            RunChain(b, s).1.requests == RunRest(b, 0, Build(b, 0, 1, Replaced(0, 0, s))).1.requests
  {
    TitledPasses();
    HidingGoesOn(Twice([Hiding()], j), 0, 0, OneMutation(Titled()));
  }

  lemma FromSecondPosition(b: Bulk, s: State)
    requires ValidBulk(b) && ValidState(b, s) && !b.alone && b.hooks == [[Hiding()], [Hiding()]] && b.who == [0, 0]
    requires Filled(s, 1) && |s.muts| == 2 && s.cur == [1, 0] && Check(s.muts[1].fields).None?
    requires var s2 := Replaced(1, 1, s);
             && ValidState(b, s2) && Filled(s2, 1)
             && var s3 := Build(b, 1, 2, s2);
                SpecFields(s3) == HiddenRequest().specs && OwnFields(b, s3) == HiddenRequest().own && s3.requests == []
    ensures RunRest(b, 0, s).1.requests == [HiddenRequest()]
  {
    HidingGoesOn(b, 1, 1, s);
    var s3 := Build(b, 1, 2, Replaced(1, 1, s));
    assert RunRest(b, 0, s) == RunHooks(b, 1, 0, 1, s);
    assert RunRest(b, 1, s3) == BatchCreate(b, s3);
    assert Ask(b, s3).requests == [HiddenRequest()];
  }

  /**
    The first row is inserted with its created_at, and at that moment no builder's mutation shows
    one: UpdateNewValues, and nothing else, would overwrite it in the row it conflicts with.
   */
  lemma SubstituteHidesCreatedAt(j: JsonCodec)
    ensures Requested(Twice([Hiding()], j), OneMutation(Titled())) == [HiddenRequest()]
    ensures !ShowsCreatedAt(HiddenRequest())
    ensures !Keeps(Assignments(AllOptions([UpsertCall.UpdateNewValues]), HiddenRequest()), CreatedAt)
  {
    HidingRequests(j);
    HiddenIsOverwritten(HiddenRequest());
  }

  lemma HiddenIsOverwritten(r: Request)
    requires r == Request([Settable(Commented()), map[]], [map[], map[]])
    ensures !ShowsCreatedAt(r) && !Keeps(Assignments(AllOptions([UpsertCall.UpdateNewValues]), r), CreatedAt)
  {
    TitledPasses();
    assert CreatedAt in r.specs[0];
    assert AllOptions([UpsertCall.UpdateNewValues]) == [NewValues, KeepCreatedAt];
    KeepsCreatedAtIffShown([UpsertCall.UpdateNewValues], r);
  }
}
