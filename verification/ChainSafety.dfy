/**
  What bulk creation guarantees whatever the hooks do: they may call the next mutator never, once
  or many times, and on other mutations. Only a hook that reports success without having obtained
  it can make Save report a success that never happened.
 */
module ChainSafety {
  import opened Relational
  import opened RowCodec
  import opened ChangeOrderFields
  import opened MutatorChain

  /** How many batches the database accepted. */
  function Commits(t: seq<Event>): nat {
    |Filter(t, IsCommit)|
  }

  /**
    An honest hook reports success only after its last call of next has. `last` is the verdict of
    that call, None before the first one.
   */
  predicate Honest(p: Hook, last: Option<bool>) {
    match p
    case Finish(Succeed) => last == Some(true)
    case Finish(Fail(_)) => true
    case Finish(Propagate) => last.Some?
    case Edit(_, rest) => Honest(rest, last)
    case Inspect(_, yes, no) => Honest(yes, last) && Honest(no, last)
    case Next(_, onDone, onError) => Honest(onDone, Some(true)) && Honest(onError, Some(false))
  }

  ghost predicate AllHonest(b: Bulk) {
    forall i, k :: 0 <= i < |b.hooks| && 0 <= k < |b.hooks[i]| ==> Honest(b.hooks[i][k], None)
  }

  // ---------------------------------------------------------------- nothing happens before a commit

  ghost predicate NoNewDone(s: State, s': State) {
    forall m :: 0 <= m < |s'.muts| && s'.muts[m].done ==> m < |s.muts| && s.muts[m].done
  }

  /** Commits are never undone, and without a new one nothing is stored and no mutation is done. */
  ghost predicate AllOrNothing(s: State, s': State) {
    && Commits(s.trace) <= Commits(s'.trace)
    && (Commits(s'.trace) == Commits(s.trace) ==> NoNewDone(s, s') && s'.rows == s.rows)
  }

  /** ... and success is never reported without one. */
  ghost predicate Truthful(s: State, o: Outcome, s': State) {
    AllOrNothing(s, s') && (o.Done? ==> Commits(s.trace) < Commits(s'.trace))
  }

  /**
    A single save copies the mutation it is handed over its own, so that mutation must not be done
    already, unless it is its own.
   */
  ghost predicate Handled(b: Bulk, m: nat, s: State)
    requires ValidBulk(b) && ValidState(b, s) && m < |s.muts|
  {
    b.alone ==> m == s.cur[b.who[0]] || !s.muts[m].done
  }

  /** A single save writes to no mutation but its own, except for the fields. */
  ghost predicate KeepsOthers(b: Bulk, s: State, s': State)
    requires ValidBulk(b) && ValidState(b, s) && ValidState(b, s')
  {
    b.alone ==>
      && s'.cur == s.cur && |s.muts| <= |s'.muts|
      && forall m :: 0 <= m < |s.muts| && m != s.cur[b.who[0]] ==> s'.muts[m].done == s.muts[m].done
  }

  lemma LogCommits(s: State, e: Event)
    ensures Commits(Log(s, e).trace) == Commits(s.trace) + (if e.Batch? && e.ok then 1 else 0)
  {
    FilterConcat(s.trace, [e], IsCommit);
  }

  lemma {:induction false} HooksAreTruthful(b: Bulk, i: nat, k: nat, m: nat, s: State)
    requires ValidBulk(b)
    requires ValidState(b, s) && AllHonest(b) && i < |b.hooks| && k <= |b.hooks[i]| && m < |s.muts| && Filled(s, i)
    requires Handled(b, m, s)
    ensures var (o, s') := RunHooks(b, i, k, m, s); Truthful(s, o, s') && KeepsOthers(b, s, s')
    decreases |b.hooks| - i, |b.hooks[i]| - k, 2, Finish(Succeed)
  {
    if k == |b.hooks[i]| {
      BaseIsTruthful(b, i, m, s);
    } else {
      var s1 := Log(s, Enter(i, k));
      LogCommits(s, Enter(i, k));
      ProgramIsTruthful(b, i, k, b.hooks[i][k], None, Done, m, s1, s1);
      LogCommits(RunProgram(b, i, k, b.hooks[i][k], Done, m, s1).1, Leave(i, k));
    }
  }

  /** `s` is the state in which the hook was entered; `ok` the verdict of its last call. */
  lemma {:induction false} ProgramIsTruthful(b: Bulk, i: nat, k: nat, p: Hook, ok: Option<bool>, last: Outcome, m: nat,
                                             s: State, s1: State)
    requires ValidBulk(b)
    requires ValidState(b, s1) && AllHonest(b) && i < |b.hooks| && k < |b.hooks[i]| && m < |s1.muts| && Filled(s1, i)
    requires Honest(p, ok) && (ok.Some? ==> ok.value == last.Done?) && Handled(b, m, s1)
    requires AllOrNothing(s, s1) && (ok == Some(true) ==> Commits(s.trace) < Commits(s1.trace))
    ensures var (o, s') := RunProgram(b, i, k, p, last, m, s1); Truthful(s, o, s') && KeepsOthers(b, s1, s')
    decreases |b.hooks| - i, |b.hooks[i]| - k, 1, p
  {
    match p
    case Finish(_) =>
    case Edit(edit, rest) =>
      var s2 := SetFields(s1, m, edit(s1.muts[m].fields));
      EditIsTruthful(b, m, s, s1, edit(s1.muts[m].fields));
      ProgramIsTruthful(b, i, k, rest, ok, last, m, s, s2);
      KeepsOthersChains(b, s1, s2, RunProgram(b, i, k, p, last, m, s1).1);
    case Inspect(test, yes, no) =>
      ProgramIsTruthful(b, i, k, if test(s1.muts[m].fields) then yes else no, ok, last, m, s, s1);
    case Next(handed, onDone, onError) =>
      NextIsTruthful(b, i, k, handed, m, s, s1);
      var (m', s2) := Hand(handed, m, s1);
      var (o, s3) := RunHooks(b, i, k + 1, m', s2);
      ProgramIsTruthful(b, i, k, if o.Done? then onDone else onError, Some(o.Done?), o, m, s, s3);
      KeepsOthersChains(b, s1, s3, RunProgram(b, i, k, p, last, m, s1).1);
  }

  lemma {:induction false} NextIsTruthful(b: Bulk, i: nat, k: nat, handed: Handed, m: nat, s: State, s1: State)
    requires ValidBulk(b)
    requires ValidState(b, s1) && AllHonest(b) && i < |b.hooks| && k < |b.hooks[i]| && m < |s1.muts| && Filled(s1, i)
    requires Handled(b, m, s1) && AllOrNothing(s, s1)
    ensures var (m', s2) := Hand(handed, m, s1);
            var (o, s3) := RunHooks(b, i, k + 1, m', s2);
            && AllOrNothing(s, s3) && (o.Done? ==> Commits(s.trace) < Commits(s3.trace))
            && KeepsOthers(b, s1, s3) && Handled(b, m, s3)
    decreases |b.hooks| - i, |b.hooks[i]| - k - 1, 3, Finish(Succeed)
  {
    var (m', s2) := Hand(handed, m, s1);
    HandIsTruthful(b, m, s, s1, handed);
    HooksAreTruthful(b, i, k + 1, m', s2);
    var (o, s3) := RunHooks(b, i, k + 1, m', s2);
    CallIsTruthful(b, m, s, s1, m', s2, o, s3);
  }

  lemma EditIsTruthful(b: Bulk, m: nat, s: State, s1: State, f: Fields)
    requires ValidBulk(b) && ValidState(b, s1) && m < |s1.muts| && Handled(b, m, s1) && AllOrNothing(s, s1)
    ensures var s2 := SetFields(s1, m, f);
            ValidState(b, s2) && Handled(b, m, s2) && AllOrNothing(s, s2) && KeepsOthers(b, s1, s2)
  {
  }

  lemma HandIsTruthful(b: Bulk, m: nat, s: State, s1: State, h: Handed)
    requires ValidBulk(b) && ValidState(b, s1) && m < |s1.muts| && Handled(b, m, s1) && AllOrNothing(s, s1)
    ensures var (m', s2) := Hand(h, m, s1);
            && ValidState(b, s2) && m' < |s2.muts| && Handled(b, m', s2) && AllOrNothing(s, s2)
            && ((m', s2) == (m, s1)
                || (|s1.muts| < |s2.muts| && s2.muts[..|s1.muts|] == s1.muts && s2 == s1.(muts := s2.muts)))
  {
  }

  lemma KeepsOthersChains(b: Bulk, s1: State, s2: State, s3: State)
    requires ValidBulk(b) && ValidState(b, s1) && ValidState(b, s2) && ValidState(b, s3)
    requires KeepsOthers(b, s1, s2) && KeepsOthers(b, s2, s3)
    ensures KeepsOthers(b, s1, s3)
  {
  }

  lemma AllOrNothingChains(s: State, s1: State, s2: State)
    requires AllOrNothing(s, s1) && AllOrNothing(s1, s2)
    ensures AllOrNothing(s, s2)
  {
  }

  lemma CallIsTruthful(b: Bulk, m: nat, s: State, s1: State, m': nat, s2: State, o: Outcome, s3: State)
    requires ValidBulk(b)
    requires ValidState(b, s1) && ValidState(b, s2) && ValidState(b, s3) && m < |s1.muts| && Handled(b, m, s1)
    requires (m', s2) == (m, s1)
             || (|s1.muts| < |s2.muts| && s2.muts[..|s1.muts|] == s1.muts && s2 == s1.(muts := s2.muts))
    requires AllOrNothing(s, s2) && Truthful(s2, o, s3) && KeepsOthers(b, s2, s3) && Grows(s2, s3)
    ensures AllOrNothing(s, s3) && (o.Done? ==> Commits(s.trace) < Commits(s3.trace))
    ensures KeepsOthers(b, s1, s3) && Handled(b, m, s3)
  {
    AllOrNothingChains(s, s2, s3);
  }

  /** Copying an undone mutation over its own makes nothing done. */
  lemma AdoptIsTruthful(b: Bulk, i: nat, m: nat, s: State)
    requires ValidBulk(b) && ValidState(b, s) && i < |b.hooks| && m < |s.muts| && Handled(b, m, s)
    ensures var (m0, s0) := Adopt(b, i, m, s);
            && AllOrNothing(s, s0) && KeepsOthers(b, s, s0) && s0.trace == s.trace
            && (b.alone ==> i == 0 && m0 == s.cur[b.who[0]])
  {
  }

  lemma {:induction false} BaseIsTruthful(b: Bulk, i: nat, m: nat, s: State)
    requires ValidBulk(b) && ValidState(b, s) && AllHonest(b) && i < |b.hooks| && m < |s.muts| && Filled(s, i)
    requires Handled(b, m, s)
    ensures var (o, s') := RunBase(b, i, m, s); Truthful(s, o, s') && KeepsOthers(b, s, s')
    decreases |b.hooks| - i, 0, 0, Finish(Succeed)
  {
    AdoptIsTruthful(b, i, m, s);
    var (m0, s0) := Adopt(b, i, m, s);
    if Check(s0.muts[s0.cur[b.who[i]]].fields).None? {
      var s1 := Build(b, i, m0, s0);
      BuildIsTruthful(b, i, m0, s, s0);
      RestIsTruthful(b, i, m0, s1);
      var (o, s2) := RunRest(b, i, s1);
      AllOrNothingChains(s, s1, s2);
      KeepsOthersChains(b, s, s1, s2);
      if o.Done? {
        SettleIsTruthful(b, i, m0, s, s2);
      }
    }
  }

  lemma BuildIsTruthful(b: Bulk, i: nat, m: nat, s: State, s0: State)
    requires ValidBulk(b) && ValidState(b, s) && ValidState(b, s0) && i < |b.hooks| && m < |s0.muts| && Filled(s0, i)
    requires AllOrNothing(s, s0) && KeepsOthers(b, s, s0) && s0.trace == s.trace && (b.alone ==> m == s.cur[b.who[0]])
    ensures var s1 := Build(b, i, m, s0); AllOrNothing(s, s1) && KeepsOthers(b, s, s1) && s1.trace == s.trace
  {
  }

  lemma {:induction false} RestIsTruthful(b: Bulk, i: nat, m: nat, s: State)
    requires ValidBulk(b) && ValidState(b, s) && AllHonest(b) && i < |b.hooks| && m < |s.muts| && Filled(s, i + 1)
    ensures var (o, s') := RunRest(b, i, s); Truthful(s, o, s') && KeepsOthers(b, s, s')
    decreases |b.hooks| - i - 1, if i + 1 < |b.hooks| then |b.hooks[i + 1]| else 0, 3, Finish(Succeed)
  {
    if i + 1 < |b.hooks| {
      HooksAreTruthful(b, i + 1, 0, s.cur[b.who[i + 1]], s);
    } else {
      LogCommits(s, Batch(SpecFields(s), true));
      LogCommits(s, Batch(SpecFields(s), false));
    }
  }

  /** By the time a mutation is marked done the database has accepted a batch. */
  lemma SettleIsTruthful(b: Bulk, i: nat, m: nat, s: State, s2: State)
    requires ValidBulk(b)
    requires ValidState(b, s) && ValidState(b, s2) && i < |b.hooks| && m < |s2.muts| && Filled(s2, i + 1)
    requires AllOrNothing(s, s2) && Commits(s.trace) < Commits(s2.trace) && KeepsOthers(b, s, s2)
    requires b.alone ==> m == s.cur[b.who[0]]
    ensures Truthful(s, Done, Settle(b, i, m, s2)) && KeepsOthers(b, s, Settle(b, i, m, s2))
  {
  }
}
