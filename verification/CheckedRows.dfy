/**
  Which rows have passed the builder's check when they reach the database. A single save checks
  the mutation it inserts. A bulk checks the mutation the builder had before its hooks ran, so the
  guarantee holds there only as long as no hook hands on another mutation.
 */
module CheckedRows {
  import opened Relational
  import opened RowCodec
  import opened ChangeOrderFields
  import opened MutatorChain

  predicate NeverSubstitutes(p: Hook) {
    match p
    case Finish(_) => true
    case Edit(_, rest) => NeverSubstitutes(rest)
    case Inspect(_, yes, no) => NeverSubstitutes(yes) && NeverSubstitutes(no)
    case Next(handed, onDone, onError) => handed.Same? && NeverSubstitutes(onDone) && NeverSubstitutes(onError)
  }

  /** A single save, or a bulk whose hooks pass on the mutation they got. */
  ghost predicate KeepsMutations(b: Bulk) {
    b.alone || forall i, k :: 0 <= i < |b.hooks| && 0 <= k < |b.hooks[i]| ==> NeverSubstitutes(b.hooks[i][k])
  }

  ghost predicate CheckedBatches(t: seq<Event>) {
    forall e, f :: e in t && e.Batch? && f in e.specs ==> Check(f).None?
  }

  /** In a bulk the last builder has passed its check just before the insert. */
  predicate CheckedRequest(r: Request) {
    r.own != [] && Check(r.own[|r.own| - 1]).None?
  }

  /** Every specification built so far, and every row of every batch so far, has passed the check. */
  ghost predicate Checked(s: State) {
    && CheckedBatches(s.trace) && (forall r :: r in s.requests ==> CheckedRequest(r))
    && forall j :: 0 <= j < |s.specs| && s.specs[j].Some? ==> Check(s.specs[j].value.fields).None?
  }

  lemma CheckReadsSettable(f: Fields)
    ensures Check(Settable(f)) == Check(f)
  {
  }

  lemma {:induction false} HooksInsertChecked(b: Bulk, i: nat, k: nat, m: nat, s: State)
    requires ValidBulk(b)
    requires ValidState(b, s) && KeepsMutations(b) && i < |b.hooks| && k <= |b.hooks[i]| && m < |s.muts| && Filled(s, i)
    requires Checked(s) && (!b.alone ==> m == s.cur[b.who[i]])
    ensures var s' := RunHooks(b, i, k, m, s).1; Checked(s') && (!b.alone ==> s'.cur == s.cur)
    decreases |b.hooks| - i, |b.hooks[i]| - k, 2, Finish(Succeed)
  {
    if k == |b.hooks[i]| {
      BaseInsertsChecked(b, i, m, s);
    } else {
      ProgramInsertsChecked(b, i, k, b.hooks[i][k], Done, m, Log(s, Enter(i, k)));
    }
  }

  lemma {:induction false} ProgramInsertsChecked(b: Bulk, i: nat, k: nat, p: Hook, last: Outcome, m: nat, s: State)
    requires ValidBulk(b)
    requires ValidState(b, s) && KeepsMutations(b) && i < |b.hooks| && k < |b.hooks[i]| && m < |s.muts| && Filled(s, i)
    requires Checked(s) && (!b.alone ==> m == s.cur[b.who[i]] && NeverSubstitutes(p))
    ensures var s' := RunProgram(b, i, k, p, last, m, s).1; Checked(s') && (!b.alone ==> s'.cur == s.cur)
    decreases |b.hooks| - i, |b.hooks[i]| - k, 1, p
  {
    match p
    case Finish(_) =>
    case Edit(edit, rest) => ProgramInsertsChecked(b, i, k, rest, last, m, SetFields(s, m, edit(s.muts[m].fields)));
    case Inspect(test, yes, no) =>
      ProgramInsertsChecked(b, i, k, if test(s.muts[m].fields) then yes else no, last, m, s);
    case Next(handed, onDone, onError) =>
      var (m', s1) := Hand(handed, m, s);
      HooksInsertChecked(b, i, k + 1, m', s1);
      var (o, s2) := RunHooks(b, i, k + 1, m', s1);
      ProgramInsertsChecked(b, i, k, if o.Done? then onDone else onError, o, m, s2);
  }

  lemma {:induction false} BaseInsertsChecked(b: Bulk, i: nat, m: nat, s: State)
    requires ValidBulk(b) && ValidState(b, s) && KeepsMutations(b) && i < |b.hooks| && m < |s.muts| && Filled(s, i)
    requires Checked(s) && (!b.alone ==> m == s.cur[b.who[i]])
    ensures var s' := RunBase(b, i, m, s).1; Checked(s') && (!b.alone ==> s'.cur == s.cur)
    decreases |b.hooks| - i, 0, 0, Finish(Succeed)
  {
    var (m0, s0) := Adopt(b, i, m, s);
    if Check(s0.muts[m0].fields).None? {
      var s1 := Build(b, i, m0, s0);
      BuildKeepsChecked(b, i, m0, s0);
      if i + 1 < |b.hooks| {
        HooksInsertChecked(b, i + 1, 0, s1.cur[b.who[i + 1]], s1);
      } else {
        BatchKeepsChecked(b, s1);
      }
    }
  }

  lemma BuildKeepsChecked(b: Bulk, i: nat, m: nat, s: State)
    requires ValidBulk(b) && ValidState(b, s) && i < |b.hooks| && m < |s.muts| && Filled(s, i)
    requires Checked(s) && Check(s.muts[m].fields).None?
    ensures Checked(Build(b, i, m, s))
    ensures m == s.cur[b.who[i]] ==> Build(b, i, m, s).cur == s.cur
  {
    CheckReadsSettable(s.muts[m].fields);
  }

  lemma BatchKeepsChecked(b: Bulk, s: State)
    requires ValidBulk(b) && ValidState(b, s) && Filled(s, |b.hooks|) && Checked(s) && |b.hooks| > 0
    requires Check(s.muts[s.cur[b.who[|b.hooks| - 1]]].fields).None?
    ensures Checked(BatchCreate(b, s).1)
  {
    assert forall g :: g in SpecFields(s) ==> Check(g).None?;
    assert CheckedRequest(Request(SpecFields(s), OwnFields(b, s)));
  }

  /** A single save, whatever its hooks do, and a bulk without substitution insert only checked rows. */
  lemma OnlyCheckedRowsAreInserted(b: Bulk, s: State)
    requires ValidBulk(b) && ValidState(b, s) && KeepsMutations(b) && Checked(s)
    ensures Checked(RunChain(b, s).1)
  {
    if |b.hooks| > 0 {
      HooksInsertChecked(b, 0, 0, s.cur[b.who[0]], s);
    }
  }

  /** A hook that hands on a mutation of its own. */
  function Substituting(f: Fields): Hook {
    Next(Substitute(f), Finish(Propagate), Finish(Propagate))
  }

  /**
    The two saves disagree on a substituted mutation: the row sent to the database is the
    substitute's in both, but the bulk decides by checking the mutation that was replaced.
   */
  lemma SubstituteIsCheckedOnlyAlone(b: Bulk, s: State, f: Fields)
    requires ValidBulk(b) && ValidState(b, s) && b.hooks == [[Substituting(f)]]
    ensures var (o, s') := RunChain(b, s);
            var checked := if b.alone then f else s.muts[s.cur[0]].fields;
            var sent := [Batch([Settable(f)], Insert(b, s, [Settable(f)]).Ok?)];
            && (Check(checked).Some? ==> o == Failed(Check(checked).value))
            && s'.trace == s.trace + [Enter(0, 0)] + (if Check(checked).Some? then [] else sent) + [Leave(0, 0)]
  {
    SubstituteRuns(b, s, f);
    SubstituteReachesBase(b, |s.muts|, Hand(Substitute(f), s.cur[0], Log(s, Enter(0, 0))).1);
  }

  /** The substituting hook around the innermost mutator. */
  lemma SubstituteRuns(b: Bulk, s: State, f: Fields)
    requires ValidBulk(b) && ValidState(b, s) && b.hooks == [[Substituting(f)]]
    ensures var (o, s') := RunBase(b, 0, |s.muts|, Hand(Substitute(f), s.cur[0], Log(s, Enter(0, 0))).1);
            RunChain(b, s) == (o, Log(s', Leave(0, 0)))
  {
    var m := s.cur[0];
    var s1 := Log(s, Enter(0, 0));
    var (m', s2) := Hand(Substitute(f), m, s1);
    assert b.hooks[0] == [Substituting(f)] && b.who[0] == 0;
    assert RunHooks(b, 0, 1, m', s2) == RunBase(b, 0, m', s2);
    var (o, s5) := RunHooks(b, 0, 1, m', s2);
    assert RunProgram(b, 0, 0, Finish(Propagate), o, m, s5) == (o, s5);
    assert RunProgram(b, 0, 0, Substituting(f), Done, m, s1) == (o, s5);
  }

  lemma SubstituteReachesBase(b: Bulk, m: nat, s: State)
    requires ValidBulk(b) && ValidState(b, s) && |b.hooks| == 1 && b.who[0] == 0 && m < |s.muts| && m != s.cur[0]
    ensures var (o, s') := RunBase(b, 0, m, s);
            var spec := Settable(s.muts[m].fields);
            var checked := if b.alone then s.muts[m].fields else s.muts[s.cur[0]].fields;
            && (Check(checked).Some? ==> o == Failed(Check(checked).value))
            && s'.trace == s.trace + if Check(checked).Some? then [] else [Batch([spec], Insert(b, s, [spec]).Ok?)]
  {
    var (m0, s0) := Adopt(b, 0, m, s);
    if Check(s0.muts[s0.cur[0]].fields).None? {
      var s1 := Build(b, 0, m0, s0);
      assert SpecFields(s1) == [Settable(s.muts[m].fields)];
      assert RunRest(b, 0, s1) == BatchCreate(b, s1);
    }
  }

  // ---------------------------------------------------------------- at most one batch

  function Attempts(t: seq<Event>): nat {
    |Filter(t, IsBatch)|
  }

  lemma LogAttempts(s: State, e: Event)
    ensures Attempts(Log(s, e).trace) == Attempts(s.trace) + (if e.Batch? then 1 else 0)
  {
    FilterConcat(s.trace, [e], IsBatch);
  }

  /** The hook calls next at most once on every path; `called` says whether it already has. */
  predicate CallsOnce(p: Hook, called: bool) {
    match p
    case Finish(_) => true
    case Edit(_, rest) => CallsOnce(rest, called)
    case Inspect(_, yes, no) => CallsOnce(yes, called) && CallsOnce(no, called)
    case Next(_, onDone, onError) => !called && CallsOnce(onDone, true) && CallsOnce(onError, true)
  }

  ghost predicate AllCallOnce(b: Bulk) {
    forall i, k :: 0 <= i < |b.hooks| && 0 <= k < |b.hooks[i]| ==> CallsOnce(b.hooks[i][k], false)
  }

  lemma {:induction false} HooksAttemptOnce(b: Bulk, i: nat, k: nat, m: nat, s: State)
    requires ValidBulk(b)
    requires ValidState(b, s) && AllCallOnce(b) && i < |b.hooks| && k <= |b.hooks[i]| && m < |s.muts| && Filled(s, i)
    ensures Attempts(RunHooks(b, i, k, m, s).1.trace) <= Attempts(s.trace) + 1
    decreases |b.hooks| - i, |b.hooks[i]| - k, 2, Finish(Succeed)
  {
    if k < |b.hooks[i]| {
      var s1 := Log(s, Enter(i, k));
      LogAttempts(s, Enter(i, k));
      ProgramAttemptsOnce(b, i, k, b.hooks[i][k], false, Done, m, s1);
      LogAttempts(RunProgram(b, i, k, b.hooks[i][k], Done, m, s1).1, Leave(i, k));
    } else {
      BaseAttemptsOnce(b, i, m, s);
    }
  }

  lemma {:induction false} BaseAttemptsOnce(b: Bulk, i: nat, m: nat, s: State)
    requires ValidBulk(b) && ValidState(b, s) && AllCallOnce(b) && i < |b.hooks| && m < |s.muts| && Filled(s, i)
    ensures Attempts(RunBase(b, i, m, s).1.trace) <= Attempts(s.trace) + 1
    decreases |b.hooks| - i, 0, 0, Finish(Succeed)
  {
    var (m0, s0) := Adopt(b, i, m, s);
    if Check(s0.muts[s0.cur[b.who[i]]].fields).None? {
      var s1 := Build(b, i, m0, s0);
      if i + 1 < |b.hooks| {
        HooksAttemptOnce(b, i + 1, 0, s1.cur[b.who[i + 1]], s1);
      } else {
        LogAttempts(s1, Batch(SpecFields(s1), true));
        LogAttempts(s1, Batch(SpecFields(s1), false));
      }
    }
  }

  lemma {:induction false} ProgramAttemptsOnce(b: Bulk, i: nat, k: nat, p: Hook, called: bool, last: Outcome, m: nat,
                                               s: State)
    requires ValidBulk(b)
    requires ValidState(b, s) && AllCallOnce(b) && i < |b.hooks| && k < |b.hooks[i]| && m < |s.muts| && Filled(s, i)
    requires CallsOnce(p, called)
    ensures Attempts(RunProgram(b, i, k, p, last, m, s).1.trace) <= Attempts(s.trace) + if called then 0 else 1
    decreases |b.hooks| - i, |b.hooks[i]| - k, 1, p
  {
    match p
    case Finish(_) =>
    case Edit(edit, rest) =>
      ProgramAttemptsOnce(b, i, k, rest, called, last, m, SetFields(s, m, edit(s.muts[m].fields)));
    case Inspect(test, yes, no) =>
      ProgramAttemptsOnce(b, i, k, if test(s.muts[m].fields) then yes else no, called, last, m, s);
    case Next(handed, onDone, onError) =>
      var (m', s1) := Hand(handed, m, s);
      HooksAttemptOnce(b, i, k + 1, m', s1);
      var (o, s2) := RunHooks(b, i, k + 1, m', s1);
      ProgramAttemptsOnce(b, i, k, if o.Done? then onDone else onError, true, o, m, s2);
  }
}
