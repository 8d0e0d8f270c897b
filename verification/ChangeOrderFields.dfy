/**
  The create builder's `defaults` and `check`, and the fields `createSpec` copies from a mutation
  into the node and the insert specification. An unset field of a mutation has no binding.
 */
module ChangeOrderFields {
  import opened Relational

  datatype Error =
    | Validation(field: Column)
    | Constraint
    | Driver
    | Rejected(code: int)
    | NotFound
    | NotSingular
    | NotLoaded
    | ScanMismatch

  const TYPES := {"config", "cert_renew", "security_block", "lvs", "upgrade", "rollback"}
  const SOURCES := {"manual", "api", "schedule", "auto_renew"}
  const STATUSES := {"draft", "pending_approval", "pending", "running", "success", "failed", "rolling_back",
                     "rolled_back", "rollback_failed", "partial_success", "rejected", "canceled"}

  predicate IsOneOf(f: Fields, c: Column, names: set<string>) {
    c in f && f[c].Text? && f[c].s in names
  }

  /** One reading of the DefaultCreatedAt and DefaultUpdatedAt clocks. */
  datatype Clock = Clock(created: int, updated: int)

  function Default(f: Fields, c: Column, v: Value): Fields {
    if c in f then f else f[c := v]
  }

  function Defaults(f: Fields, now: Clock): Fields {
    var f1 := Default(f, Type, Text("config"));
    var f2 := Default(f1, Source, Text("manual"));
    var f3 := Default(f2, Status, Text("draft"));
    var f4 := Default(f3, CreatedAt, Time(now.created));
    Default(f4, UpdatedAt, Time(now.updated))
  }

  function Check(f: Fields): Option<Error> {
    if Title !in f then Some(Validation(Title))
    else if !IsOneOf(f, Type, TYPES) then Some(Validation(Type))
    else if !IsOneOf(f, Source, SOURCES) then Some(Validation(Source))
    else if !IsOneOf(f, Status, STATUSES) then Some(Validation(Status))
    else if CreatedAt !in f then Some(Validation(CreatedAt))
    else if UpdatedAt !in f then Some(Validation(UpdatedAt))
    else None
  }

  /** The fields `createSpec` looks at: every column of the table but the ID. */
  predicate IsCreateField(c: Column) {
    !KindOf(ChangeOrder, c).IdKind? && !KindOf(ChangeOrder, c).UnknownKind?
  }

  function Settable(f: Fields): Fields {
    map c | c in f && IsCreateField(c) :: f[c]
  }

  /** What the checks ask of one field. */
  predicate Acceptable(f: Fields, c: Column) {
    c in f && match c
              case Type => f[c].Text? && f[c].s in TYPES
              case Source => f[c].Text? && f[c].s in SOURCES
              case Status => f[c].Text? && f[c].s in STATUSES
              case _ => true
  }

  /** Of these columns, in this order, the first that is not acceptable is the error. */
  ghost predicate IsFirstUnacceptable(f: Fields, columns: seq<Column>, err: Option<Error>) {
    match err
    case None => forall c :: c in columns ==> Acceptable(f, c)
    case Some(e) =>
      exists k :: && 0 <= k < |columns| && e == Validation(columns[k]) && !Acceptable(f, columns[k])
                  && forall l :: 0 <= l < k ==> Acceptable(f, columns[l])
  }

  const REQUIRED := [Title, Type, Source, Status, CreatedAt, UpdatedAt]

  /** The check of any mutation, defaulted or not: the first required field that is missing or invalid. */
  lemma CheckIsFirstUnacceptable(f: Fields)
    ensures IsFirstUnacceptable(f, REQUIRED, Check(f))
  {
    if Title !in f {
      assert REQUIRED[0] == Title;
    } else if !Acceptable(f, Type) {
      assert REQUIRED[1] == Type;
    } else if !Acceptable(f, Source) {
      assert REQUIRED[2] == Source;
    } else if !Acceptable(f, Status) {
      assert REQUIRED[3] == Status;
    } else if CreatedAt !in f {
      assert REQUIRED[4] == CreatedAt;
    } else if UpdatedAt !in f {
      assert REQUIRED[5] == UpdatedAt;
    }
  }

  /** The defaults keep every field that is set and give these five, and no other, their values. */
  lemma DefaultsFillIn(f: Fields, now: Clock)
    ensures forall c :: c in Defaults(f, now)
                        <==> c in f || c in {Type, Source, Status, CreatedAt, UpdatedAt}
    ensures forall c :: c in f ==> Defaults(f, now)[c] == f[c]
    ensures Type !in f ==> Defaults(f, now)[Type] == Text("config")
    ensures Source !in f ==> Defaults(f, now)[Source] == Text("manual")
    ensures Status !in f ==> Defaults(f, now)[Status] == Text("draft")
    ensures CreatedAt !in f ==> Defaults(f, now)[CreatedAt] == Time(now.created)
    ensures UpdatedAt !in f ==> Defaults(f, now)[UpdatedAt] == Time(now.updated)
  {
  }

  /** What is copied: every column of the table but the ID, with the value it was set to. */
  lemma SettableKeepsColumns(f: Fields, c: Column)
    ensures c in Settable(f) <==> c in f && c != Id && c in Columns(ChangeOrder)
    ensures c in Settable(f) ==> Settable(f)[c] == f[c]
  {
    KnownColumns(ChangeOrder, c);
  }

  /** What a caller has to get right for the defaulted mutation to pass the check. */
  lemma CheckAfterDefaults(f: Fields, now: Clock)
    ensures Check(Defaults(f, now)) == None <==>
            && Title in f
            && (Type in f ==> IsOneOf(f, Type, TYPES))
            && (Source in f ==> IsOneOf(f, Source, SOURCES))
            && (Status in f ==> IsOneOf(f, Status, STATUSES))
    ensures CreatedAt in Defaults(f, now) && (CreatedAt in f ==> Defaults(f, now)[CreatedAt] == f[CreatedAt])
    ensures forall c :: c in f ==> c in Defaults(f, now) && Defaults(f, now)[c] == f[c]
  {
    var f' := Defaults(f, now);
    assert Type !in f ==> f'[Type] == Text("config") && "config" in TYPES;
    assert Source !in f ==> f'[Source] == Text("manual") && "manual" in SOURCES;
    assert Status !in f ==> f'[Status] == Text("draft") && "draft" in STATUSES;
  }
}
