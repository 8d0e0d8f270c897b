/**
  The assumption on JSON can be met: a codec that writes a document as a list of numbers, and each
  number in unary. It stands for no format of the program; it shows that the theorems which assume
  faithful encodings speak of something.
 */
module JsonWitness {
  import opened Relational
  import opened RowCodec

  // ---------------------------------------------------------------- numbers in unary

  function Ones(n: nat): (bs: seq<bv8>) {
    if n == 0 then [] else [1] + Ones(n - 1)
  }

  function Write(ns: seq<nat>): seq<bv8> {
    if ns == [] then [] else Ones(ns[0]) + [0] + Write(ns[1..])
  }

  /** `n` ones have been read since the last zero. */
  function Read(bs: seq<bv8>, n: nat): seq<nat> {
    if bs == [] then []
    else if bs[0] == 0 then [n] + Read(bs[1..], 0)
    else Read(bs[1..], n + 1)
  }

  lemma {:induction false} ReadOnes(k: nat, n: nat, rest: seq<bv8>)
    ensures Read(Ones(k) + [0] + rest, n) == [n + k] + Read(rest, 0)
  {
    var bs := Ones(k) + [0] + rest;
    if k == 0 {
      assert bs == [0] + rest;
    } else {
      assert bs[0] == 1 && bs[1..] == Ones(k - 1) + [0] + rest;
      ReadOnes(k - 1, n + 1, rest);
    }
  }

  lemma {:induction false} ReadWritten(ns: seq<nat>)
    ensures Read(Write(ns), 0) == ns
  {
    if ns != [] {
      ReadOnes(ns[0], 0, Write(ns[1..]));
      ReadWritten(ns[1..]);
    }
  }

  // ---------------------------------------------------------------- documents as numbers

  function FromInt(i: int): nat {
    if i >= 0 then 2 * i else -2 * i - 1
  }

  function ToInt(n: nat): int {
    if n % 2 == 0 then n / 2 else -(n / 2) - 1
  }

  function FromChars(s: string): seq<nat> {
    seq(|s|, i requires 0 <= i < |s| => s[i] as nat)
  }

  function ToChar(n: nat): char {
    if n < 0xd800 || 0xe000 <= n < 0x11_0000 then n as char else ' '
  }

  function ToChars(ns: seq<nat>): string {
    seq(|ns|, i requires 0 <= i < |ns| => ToChar(ns[i]))
  }

  lemma CharsSurvive(s: string)
    ensures ToChars(FromChars(s)) == s
  {
  }

  /** Each name behind its length. */
  function FromNames(names: seq<string>): seq<nat> {
    if names == [] then [] else [|names[0]|] + FromChars(names[0]) + FromNames(names[1..])
  }

  function ToNames(ns: seq<nat>): seq<string>
    decreases |ns|
  {
    if ns == [] || ns[0] > |ns| - 1 then []
    else [ToChars(ns[1..1 + ns[0]])] + ToNames(ns[1 + ns[0]..])
  }

  lemma {:induction false} NamesSurvive(names: seq<string>)
    ensures ToNames(FromNames(names)) == names
  {
    if names != [] {
      var ns, n := FromNames(names), |names[0]|;
      assert ns[1..1 + n] == FromChars(names[0]) && ns[1 + n..] == FromNames(names[1..]);
      CharsSurvive(names[0]);
      NamesSurvive(names[1..]);
    }
  }

  function FromInts(xs: seq<int>): seq<nat> {
    seq(|xs|, i requires 0 <= i < |xs| => FromInt(xs[i]))
  }

  function ToInts(ns: seq<nat>): seq<int> {
    seq(|ns|, i requires 0 <= i < |ns| => ToInt(ns[i]))
  }

  function FromBool(b: bool): nat {
    if b then 1 else 0
  }

  function ToFloat(n: nat): Float64 {
    if IsFinite(n) then n else 0
  }

  function FromDocument(d: Document): seq<nat> {
    match d
    case Numbers(xs) => [0] + FromInts(xs)
    case Names(names) => [1] + FromNames(names)
    case Strategy(mode, size, window, threshold, rollback, approval) =>
      [2, FromInt(size), FromInt(window), threshold, FromBool(rollback), FromBool(approval)] + FromChars(mode)
  }

  function ToDocument(ns: seq<nat>): Option<Document> {
    if ns == [] then None
    else if ns[0] == 0 then Some(Numbers(ToInts(ns[1..])))
    else if ns[0] == 1 then Some(Names(ToNames(ns[1..])))
    else if |ns| < 6 then None
    else Some(Strategy(ToChars(ns[6..]), ToInt(ns[1]), ToInt(ns[2]), ToFloat(ns[3]), ns[4] == 1, ns[5] == 1))
  }

  lemma DocumentSurvives(d: Document)
    ensures ToDocument(FromDocument(d)) == Some(d)
  {
    var ns := FromDocument(d);
    match d
    case Numbers(xs) =>
      assert ns[1..] == FromInts(xs);
      assert ToInts(FromInts(xs)) == xs;
    case Names(names) =>
      assert ns[1..] == FromNames(names);
      NamesSurvive(names);
    case Strategy(mode, _, _, _, _, _) =>
      assert ns[6..] == FromChars(mode);
      CharsSurvive(mode);
  }

  // ---------------------------------------------------------------- the codec

  function UnaryCodec(): JsonCodec {
    JsonCodec(d => Write(FromDocument(d)), (bs, before) => ToDocument(Read(bs, 0)))
  }

  lemma FaithfulCodecsExist()
    ensures Faithful(UnaryCodec())
  {
    forall d: Document, before: Option<Document>
      ensures DecodesBack(UnaryCodec(), d, before)
    {
      ReadWritten(FromDocument(d));
      DocumentSurvives(d);
    }
  }
}
