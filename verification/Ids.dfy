/** The request ids the bridge makes up for itself. */
module Ids {
  import opened Wrappers

  datatype InternalId =
    | HostInitialize
    | EnvironmentAdd
    | EnvironmentStatus
    | Metadata(n: nat)
    | Read(n: nat, index: nat)

  function Digit(d: nat): (c: char)
    requires d < 10
  {
    '0' + d as char
  }

  function Decimal(n: nat): string {
    if n < 10 then [Digit(n)] else Decimal(n / 10) + [Digit(n % 10)]
  }

  predicate IsDigit(c: char) {
    '0' <= c <= '9'
  }

  function Prefix(environment: string): string {
    "cxs/" + environment
  }

  function MetadataPrefix(environment: string): string {
    Prefix(environment) + "/thread-metadata/"
  }

  function MetadataId(environment: string, n: nat): string {
    MetadataPrefix(environment) + Decimal(n)
  }

  function ReadId(metadataId: string, index: nat): string {
    metadataId + "/instruction/" + Decimal(index)
  }

  function HostInitializeId(environment: string): string {
    Prefix(environment) + "/host-initialize"
  }

  function AddId(environment: string): string {
    Prefix(environment) + "/environment-add"
  }

  function StatusId(environment: string): string {
    Prefix(environment) + "/environment-status"
  }

  function Render(environment: string, id: InternalId): string {
    match id
    case HostInitialize => HostInitializeId(environment)
    case EnvironmentAdd => AddId(environment)
    case EnvironmentStatus => StatusId(environment)
    case Metadata(n) => MetadataId(environment, n)
    case Read(n, i) => ReadId(MetadataId(environment, n), i)
  }

  /** Reads a decimal numeral back. */
  function Value(s: string): int
    requires forall i :: 0 <= i < |s| ==> IsDigit(s[i])
  {
    if s == [] then 0
    else 10 * Value(s[..|s| - 1]) + (s[|s| - 1] as int - '0' as int)
  }

  lemma {:induction false} DecimalReadsBack(n: nat)
    ensures Decimal(n) != []
    ensures forall i :: 0 <= i < |Decimal(n)| ==> IsDigit(Decimal(n)[i])
    ensures Value(Decimal(n)) == n
  {
    if n >= 10 {
      DecimalReadsBack(n / 10);
      assert Decimal(n)[..|Decimal(n)| - 1] == Decimal(n / 10);
    }
  }

  lemma DecimalInjective(m: nat, n: nat)
    requires Decimal(m) == Decimal(n)
    ensures m == n
  {
    DecimalReadsBack(m);
    DecimalReadsBack(n);
  }

  /** Digits followed by a slash split in one way only. */
  lemma SlashSplits(m: nat, n: nat, a: string, b: string)
    requires Decimal(m) + "/" + a == Decimal(n) + "/" + b
    ensures m == n && a == b
  {
    DecimalReadsBack(m);
    DecimalReadsBack(n);
    var left, right := Decimal(m) + "/" + a, Decimal(n) + "/" + b;
    assert left[|Decimal(m)|] == '/' && right[|Decimal(n)|] == '/';
    assert |Decimal(m)| == |Decimal(n)|;
    assert left[..|Decimal(m)|] == Decimal(m) && right[..|Decimal(n)|] == Decimal(n);
    assert left[|Decimal(m)| + 1..] == a && right[|Decimal(n)| + 1..] == b;
    DecimalInjective(m, n);
  }

  lemma Cancel(prefix: string, a: string, b: string)
    requires prefix + a == prefix + b
    ensures a == b
  {
    assert (prefix + a)[|prefix|..] == a;
    assert (prefix + b)[|prefix|..] == b;
  }

  /** What Render appends to the prefix common to all internal ids. */
  function Tail(id: InternalId): string {
    match id
    case HostInitialize => "/host-initialize"
    case EnvironmentAdd => "/environment-add"
    case EnvironmentStatus => "/environment-status"
    case Metadata(n) => "/thread-metadata/" + Decimal(n)
    case Read(n, i) => "/thread-metadata/" + (Decimal(n) + "/instruction/" + Decimal(i))
  }

  lemma RenderTail(environment: string, id: InternalId)
    ensures Render(environment, id) == Prefix(environment) + Tail(id)
  {
    match id
    case HostInitialize =>
    case EnvironmentAdd =>
    case EnvironmentStatus =>
    case Metadata(n) =>
      assert Render(environment, id) == Prefix(environment) + Tail(id);
    case Read(n, i) =>
      assert Render(environment, id) == Prefix(environment) + Tail(id);
  }

  lemma ReadTailsDiffer(m: nat, i: nat, n: nat, j: nat)
    requires Tail(Read(m, i)) == Tail(Read(n, j))
    ensures m == n && i == j
  {
    hide Decimal;
    var ra, rb := "instruction/" + Decimal(i), "instruction/" + Decimal(j);
    Cancel("/thread-metadata/", Decimal(m) + "/instruction/" + Decimal(i), Decimal(n) + "/instruction/" + Decimal(j));
    assert Decimal(m) + "/instruction/" + Decimal(i) == Decimal(m) + "/" + ra;
    assert Decimal(n) + "/instruction/" + Decimal(j) == Decimal(n) + "/" + rb;
    SlashSplits(m, n, ra, rb);
    Cancel("instruction/", Decimal(i), Decimal(j));
    DecimalInjective(i, j);
  }

  lemma NumberedTailsDiffer(a: InternalId, b: InternalId)
    requires a.Metadata? || a.Read?
    requires b.Metadata? || b.Read?
    requires Tail(a) == Tail(b)
    ensures a == b
  {
    hide Decimal;
    if a.Metadata? && b.Metadata? {
      Cancel("/thread-metadata/", Decimal(a.n), Decimal(b.n));
      DecimalInjective(a.n, b.n);
    } else if a.Read? && b.Read? {
      ReadTailsDiffer(a.n, a.index, b.n, b.index);
    } else if a.Metadata? {
      NumberIsNotRead(a.n, b.n, b.index);
    } else {
      NumberIsNotRead(b.n, a.n, a.index);
    }
  }

  lemma NumberIsNotRead(m: nat, n: nat, i: nat)
    ensures Tail(Metadata(m)) != Tail(Read(n, i))
  {
    DecimalReadsBack(m);
    var rest := Decimal(n) + "/instruction/" + Decimal(i);
    assert rest[|Decimal(n)|] == '/';
    if Tail(Metadata(m)) == Tail(Read(n, i)) {
      Cancel("/thread-metadata/", Decimal(m), rest);
    }
  }

  /** No two internal requests of one connection share an id. */
  lemma InternalIdsDistinct(environment: string, a: InternalId, b: InternalId)
    requires Render(environment, a) == Render(environment, b)
    ensures a == b
  {
    RenderTail(environment, a);
    RenderTail(environment, b);
    Cancel(Prefix(environment), Tail(a), Tail(b));
    assert Tail(a)[1] == Tail(b)[1];
    if a.EnvironmentAdd? || a.EnvironmentStatus? {
      assert |Tail(EnvironmentAdd)| != |Tail(EnvironmentStatus)|;
    } else if !a.HostInitialize? {
      NumberedTailsDiffer(a, b);
    }
  }

  lemma InternalIdsDiffer(environment: string, a: InternalId, b: InternalId)
    requires a != b
    ensures Render(environment, a) != Render(environment, b)
  {
    hide Render;
    if Render(environment, a) == Render(environment, b) {
      InternalIdsDistinct(environment, a, b);
    }
  }
}
