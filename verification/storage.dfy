/**
  Storage sizes of the single-node Kafka deployment: the `<n>Gi` parser and
  the claim that sums the Zookeeper and Kafka sizes.
 */
module Storage {
  import opened Wrappers
  import opened GoStrings

  const GiB: int := 0x4000_0000

  /**
    `FormatStorageint`: for a string ending in `Gi`, the integer before the
    first `G`; 0 for anything else, including a prefix that is not an integer.
   */
  function FormatStorageint(storage: string): (r: int)
    ensures IsInt64(r)
    ensures !HasSuffix(storage, "Gi") ==> r == 0
  {
    if HasSuffix(storage, "Gi") then
      match Atoi(Split(storage, 'G')[0])
      case Some(n) => n
      case None => 0
    else 0
  }

  /** A size written as `<n>Gi` reads back as `n`, for every 64-bit `n` (negative ones too). */
  lemma FormatStorageRoundTrip(n: int)
    requires IsInt64(n)
    ensures FormatStorageint(Itoa(n) + "Gi") == n
  {
    ReadsBeforeFirstG(Itoa(n), "i");
    assert Itoa(n) + ['G'] + "i" == Itoa(n) + "Gi";
    ItoaNoLetters(n, 'G');
    AtoiItoa(n);
  }

  /** Only the text before the first `G` is read; what follows it only has to end in `Gi`. */
  lemma ReadsBeforeFirstG(head: string, tail: string)
    requires 'G' !in head
    requires HasSuffix(head + ['G'] + tail, "Gi")
    ensures FormatStorageint(head + ['G'] + tail) == match Atoi(head) case Some(n) => n case None => 0
  {
    SplitPrefixThenSeparator(head, 'G', tail);
  }

  lemma FormatStorageFirstG()
    ensures FormatStorageint("1G5Gi") == 1
  {
    assert "1G5Gi" == "1" + ['G'] + "5Gi";
    ReadsBeforeFirstG("1", "5Gi");
    AtoiItoa(1);
    assert Itoa(1) == "1";
  }

  /** An empty or non-numeric prefix reads as 0. */
  lemma FormatStorageNonInteger()
    ensures FormatStorageint("Gi") == 0
    ensures FormatStorageint("xGi") == 0
  {
    assert "Gi" == "" + ['G'] + "i";
    ReadsBeforeFirstG("", "i");
    assert "xGi" == "x" + ['G'] + "i";
    ReadsBeforeFirstG("x", "i");
  }

  lemma FormatStorageTenGi()
    ensures FormatStorageint("10Gi") == 10
  {
    FormatStorageRoundTrip(10);
    assert Itoa(10) + "Gi" == "10Gi";
  }

  // ---------------------------------------------------------------------
  // The claim of the single-node Kafka StatefulSet

  /** Go's 64-bit `int` addition, wrapping on overflow. */
  function AddInt64(a: int, b: int): (r: int)
    requires IsInt64(a) && IsInt64(b)
    ensures IsInt64(r)
    ensures IsInt64(a + b) ==> r == a + b
  {
    var s := a + b;
    if s > MaxInt64 then s - 0x1_0000_0000_0000_0000
    else if s < MinInt64 then s + 0x1_0000_0000_0000_0000
    else s
  }

  /** The summed size, in the unit both inputs were written in. */
  function KafkaClaimSize(zookeeper: string, kafka: string): int
  {
    AddInt64(FormatStorageint(zookeeper), FormatStorageint(kafka))
  }

  /**
    The two forms of a Kubernetes quantity the claim can take, in bytes: a
    bare integer, or an integer with the binary suffix `Gi`.
   */
  function QuantityBytes(q: string): Option<int>
  {
    if HasSuffix(q, "Gi") then
      match Atoi(q[..|q| - 2])
      case Some(n) => Some(n * GiB)
      case None => None
    else Atoi(q)
  }

  /** The claim as the StatefulSet requests it: the sum rendered with no unit. */
  function KafkaClaimAsWritten(zookeeper: string, kafka: string): string
  {
    Itoa(KafkaClaimSize(zookeeper, kafka))
  }

  /** With the default 10Gi for each, the claim asks for 20 bytes rather than 20 GiB. */
  lemma KafkaClaimLosesUnit()
    ensures KafkaClaimAsWritten("10Gi", "10Gi") == "20"
    ensures QuantityBytes(KafkaClaimAsWritten("10Gi", "10Gi")) == Some(20)
    ensures QuantityBytes("10Gi") == Some(10 * GiB)
  {
    FormatStorageTenGi();
    assert Itoa(20) == "20";
    AtoiItoa(20);
    assert "10Gi"[..2] == "10" == Itoa(10);
    AtoiItoa(10);
  }

  /** The claim with the unit the inputs were given in. */
  function KafkaClaim(zookeeper: string, kafka: string): string
  {
    Itoa(KafkaClaimSize(zookeeper, kafka)) + "Gi"
  }

  /**
    The claim reads back as the sum of the two sizes, and in bytes is the sum
    of what each size alone denotes, as long as the addition does not overflow.
   */
  lemma KafkaClaimIsSum(zookeeper: string, kafka: string)
    ensures FormatStorageint(KafkaClaim(zookeeper, kafka)) == KafkaClaimSize(zookeeper, kafka)
    ensures IsInt64(FormatStorageint(zookeeper) + FormatStorageint(kafka)) ==>
      QuantityBytes(KafkaClaim(zookeeper, kafka)) == Some((FormatStorageint(zookeeper) + FormatStorageint(kafka)) * GiB)
  {
    var n := KafkaClaimSize(zookeeper, kafka);
    FormatStorageRoundTrip(n);
    var q := KafkaClaim(zookeeper, kafka);
    assert q[..|q| - 2] == Itoa(n);
    AtoiItoa(n);
  }
}
