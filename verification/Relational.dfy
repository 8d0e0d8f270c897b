/**
  The vocabulary shared by the whole model, and the small relational specification that stands
  for the libraries the generated code calls: a table is a sequence of rows with unique IDs, a
  selection filters, orders, removes duplicates, drops and takes.
 */
module Relational {

  datatype Option<+T> = None | Some(value: T)

  datatype Result<+T, +E> = Ok(value: T) | Err(error: E)

  /** The 64 bits of a finite IEEE 754 number: JSON has no other numbers. */
  type Float64 = bits: nat | IsFinite(bits)

  predicate IsFinite(bits: nat) {
    bits < 0x1_0000_0000_0000_0000 && bits / 0x10_0000_0000_0000 % 0x800 != 0x7ff
  }

  /** The decoded form of a JSON column: a list of numbers, a list of names, or a deploy strategy. */
  datatype Document =
    | Numbers(ns: seq<int>)
    | Names(ss: seq<string>)
    | Strategy(mode: string, batchSize: int, observeWindow: int, failureThreshold: Float64,
               autoRollback: bool, approvalRequired: bool)

  datatype Value =
    | Null
    | Int(i: int)
    | Text(s: string)
    | Time(t: int)
    | Bytes(b: seq<bv8>)
    | Doc(d: Document)

  datatype EntityType = ChangeOrder | Certificate | CertDeployment

  /** Column names. `Other` is any name that none of the three entities declares. */
  datatype Column =
    | Id
      // change_orders
    | Title | Type | Source | Status | TargetNodes | ConfigRevisionIds | DeployPlan | SnapshotId
    | CreatedBy | ApprovedBy | Comment | StartedAt | FinishedAt | CreatedAt | UpdatedAt | DeletedAt
      // certificates
    | Domain | San | Issuer | SerialNumber | FingerprintSha | NotBefore | NotAfter | KeyAlg
    | EncPrivateKey | EncFullChain | EncAcmeAccountKey | EncAcmeProviderToken
    | AcmeProviderType | AcmeEmail | AcmeKeyAlg | AcmeCaDirUrl
      // cert_deployments; CertificateFk is its foreign-key column certificate_deployments
    | NodeId | DeployedAt | Error | CertificateFk
    | Other(name: string)

  /** How the generated decoder treats a column. */
  datatype Kind = IdKind | IntKind | TextKind | TimeKind | JsonKind | BlobKind | UnknownKind

  function KindOf(t: EntityType, c: Column): Kind {
    match t
    case ChangeOrder =>
      (match c
       case Id => IdKind
       case SnapshotId => IntKind
       case TargetNodes | ConfigRevisionIds | DeployPlan => JsonKind
       case Title | Type | Source | Status | CreatedBy | ApprovedBy | Comment => TextKind
       case StartedAt | FinishedAt | CreatedAt | UpdatedAt | DeletedAt => TimeKind
       case _ => UnknownKind)
    case Certificate =>
      (match c
       case Id => IdKind
       case San => JsonKind
       case EncPrivateKey | EncFullChain | EncAcmeAccountKey | EncAcmeProviderToken => BlobKind
       case Domain | Issuer | SerialNumber | FingerprintSha | KeyAlg | Source | Status
         | AcmeProviderType | AcmeEmail | AcmeKeyAlg | AcmeCaDirUrl => TextKind
       case NotBefore | NotAfter | CreatedAt | UpdatedAt => TimeKind
       case _ => UnknownKind)
    case CertDeployment =>
      (match c
       case Id => IdKind
       case NodeId | CertificateFk => IntKind
       case Status | Error => TextKind
       case DeployedAt => TimeKind
       case _ => UnknownKind)
  }

  const CHANGE_ORDER_COLUMNS :=
    [Id, Title, Type, Source, Status, TargetNodes, ConfigRevisionIds, DeployPlan, SnapshotId,
     CreatedBy, ApprovedBy, Comment, StartedAt, FinishedAt, CreatedAt, UpdatedAt, DeletedAt]

  const CERTIFICATE_COLUMNS :=
    [Id, Domain, San, Issuer, SerialNumber, FingerprintSha, NotBefore, NotAfter, KeyAlg, Source,
     Status, CreatedAt, UpdatedAt, EncPrivateKey, EncFullChain, EncAcmeAccountKey,
     EncAcmeProviderToken, AcmeProviderType, AcmeEmail, AcmeKeyAlg, AcmeCaDirUrl]

  const CERT_DEPLOYMENT_COLUMNS := [Id, NodeId, Status, DeployedAt, Error]

  /** The default projection of each table. The foreign key is not a declared field. */
  function Columns(t: EntityType): seq<Column> {
    match t
    case ChangeOrder => CHANGE_ORDER_COLUMNS
    case Certificate => CERTIFICATE_COLUMNS
    case CertDeployment => CERT_DEPLOYMENT_COLUMNS
  }

  /** Every projection starts with the ID, which occurs in it once. */
  lemma ColumnsStartWithId(t: EntityType)
    ensures Columns(t) != [] && Columns(t)[0] == Id && ValidColumn(t, Id)
    ensures forall b :: 0 < b < |Columns(t)| ==> Columns(t)[b] != Id
  {
  }

  function ForeignKeys(t: EntityType): seq<Column> {
    if t.CertDeployment? then [CertificateFk] else []
  }

  predicate ValidColumn(t: EntityType, c: Column) {
    c in Columns(t) || c in ForeignKeys(t)
  }

  /** The decoder knows exactly the columns that a query may name. */
  lemma KnownColumns(t: EntityType, c: Column)
    ensures c in Columns(t) || c in ForeignKeys(t) <==> !KindOf(t, c).UnknownKind?
  {
    match t
    case ChangeOrder => KnownChangeOrderColumns(c);
    case Certificate => KnownCertificateColumns(c);
    case CertDeployment => assert CERT_DEPLOYMENT_COLUMNS == [Id, NodeId, Status, DeployedAt, Error];
  }

  lemma KnownChangeOrderColumns(c: Column)
    ensures c in CHANGE_ORDER_COLUMNS <==> !KindOf(ChangeOrder, c).UnknownKind?
  {
    if c in CHANGE_ORDER_COLUMNS {
      var i :| 0 <= i < |CHANGE_ORDER_COLUMNS| && CHANGE_ORDER_COLUMNS[i] == c;
      ChangeOrderColumnIsKnown(i);
    }
    if !KindOf(ChangeOrder, c).UnknownKind? {
      KnownInChangeOrder(c);
    }
  }

  lemma ChangeOrderColumnIsKnown(i: nat)
    requires i < |CHANGE_ORDER_COLUMNS|
    ensures !KindOf(ChangeOrder, CHANGE_ORDER_COLUMNS[i]).UnknownKind?
  {
  }

  lemma KnownInChangeOrder(c: Column)
    requires !KindOf(ChangeOrder, c).UnknownKind?
    ensures c in CHANGE_ORDER_COLUMNS
  {
  }

  lemma KnownCertificateColumns(c: Column)
    ensures c in CERTIFICATE_COLUMNS <==> !KindOf(Certificate, c).UnknownKind?
  {
    if c in CERTIFICATE_COLUMNS {
      var i :| 0 <= i < |CERTIFICATE_COLUMNS| && CERTIFICATE_COLUMNS[i] == c;
      CertificateColumnIsKnown(i);
    }
    if !KindOf(Certificate, c).UnknownKind? {
      KnownInCertificate(c);
    }
  }

  lemma CertificateColumnIsKnown(i: nat)
    requires i < |CERTIFICATE_COLUMNS|
    ensures !KindOf(Certificate, CERTIFICATE_COLUMNS[i]).UnknownKind?
  {
  }

  lemma KnownInCertificate(c: Column)
    requires !KindOf(Certificate, c).UnknownKind?
    ensures c in CERTIFICATE_COLUMNS
  {
  }

  /** No column is listed twice. */
  lemma ColumnsOnce(t: EntityType, a: nat, b: nat)
    requires a < b < |Columns(t)|
    ensures Columns(t)[a] != Columns(t)[b]
  {
    match t
    case ChangeOrder => assert CHANGE_ORDER_COLUMNS[a] != CHANGE_ORDER_COLUMNS[b];
    case Certificate => assert CERTIFICATE_COLUMNS[a] != CERTIFICATE_COLUMNS[b];
    case CertDeployment => assert CERT_DEPLOYMENT_COLUMNS[a] != CERT_DEPLOYMENT_COLUMNS[b];
  }

  type Fields = map<Column, Value>

  /** A stored row. A column without a cell holds NULL. */
  datatype Row = Row(id: int, cells: Fields)

  function Cell(r: Row, c: Column): Value {
    if c == Id then Int(r.id) else if c in r.cells then r.cells[c] else Null
  }

  /** The owner edge of a cert_deployments row. */
  function ForeignKey(r: Row): Option<int> {
    var v := Cell(r, CertificateFk);
    if v.Int? then Some(v.i) else None
  }

  /** Primary keys are unique. */
  predicate UniqueIds(rows: seq<Row>) {
    forall a, b :: 0 <= a < b < |rows| ==> rows[a].id != rows[b].id
  }

  function Filter<T(!new)>(xs: seq<T>, p: T -> bool): (ys: seq<T>)
    ensures forall x :: x in ys <==> x in xs && p(x)
    ensures |ys| <= |xs|
  {
    if xs == [] then []
    else (if p(xs[0]) then [xs[0]] else []) + Filter(xs[1..], p)
  }

  function Map<S, T>(xs: seq<S>, f: S -> T): (ys: seq<T>)
    ensures |ys| == |xs| && forall i :: 0 <= i < |xs| ==> ys[i] == f(xs[i])
  {
    seq(|xs|, i requires 0 <= i < |xs| => f(xs[i]))
  }

  lemma {:induction false} FilterConcat<T(!new)>(xs: seq<T>, ys: seq<T>, p: T -> bool)
    ensures Filter(xs + ys, p) == Filter(xs, p) + Filter(ys, p)
  {
    if xs == [] {
      assert xs + ys == ys;
    } else {
      assert (xs + ys)[1..] == xs[1..] + ys;
      FilterConcat(xs[1..], ys, p);
    }
  }

  lemma FilterNext<T(!new)>(xs: seq<T>, i: nat, p: T -> bool)
    requires i < |xs|
    ensures Filter(xs[..i + 1], p) == Filter(xs[..i], p) + if p(xs[i]) then [xs[i]] else []
  {
    assert xs[..i + 1] == xs[..i] + [xs[i]];
    FilterConcat(xs[..i], [xs[i]], p);
  }

  lemma {:induction false} FilterFilter<T(!new)>(xs: seq<T>, p: T -> bool, q: T -> bool, r: T -> bool)
    requires forall x :: x in xs ==> r(x) == (p(x) && q(x))
    ensures Filter(Filter(xs, p), q) == Filter(xs, r)
  {
    if xs != [] {
      FilterFilter(xs[1..], p, q, r);
      FilterConcat(if p(xs[0]) then [xs[0]] else [], Filter(xs[1..], p), q);
    }
  }

  lemma {:induction false} FilterSame<T(!new)>(xs: seq<T>, p: T -> bool, q: T -> bool)
    requires forall x :: x in xs ==> p(x) == q(x)
    ensures Filter(xs, p) == Filter(xs, q)
  {
    if xs != [] {
      FilterSame(xs[1..], p, q);
    }
  }

  lemma {:induction false} FilterAll<T(!new)>(xs: seq<T>, p: T -> bool)
    requires forall x :: x in xs ==> p(x)
    ensures Filter(xs, p) == xs
  {
    if xs != [] {
      FilterAll(xs[1..], p);
    }
  }

  lemma {:induction false} FilterNone<T(!new)>(xs: seq<T>, p: T -> bool)
    requires forall x :: x in xs ==> !p(x)
    ensures Filter(xs, p) == []
  {
    if xs != [] {
      FilterNone(xs[1..], p);
    }
  }

  function Take<T>(xs: seq<T>, n: nat): seq<T> {
    if n < |xs| then xs[..n] else xs
  }

  function Drop<T>(xs: seq<T>, n: nat): seq<T> {
    if n < |xs| then xs[n..] else []
  }
}
