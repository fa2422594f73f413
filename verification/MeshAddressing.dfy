/** Node pod ranges: IPv4 prefixes, the carve of the cluster pod CIDR into /24
    node ranges, its inverse, and the scan for the lowest unused index. */
module MeshAddressing {
  import opened Wrappers

  /** The prefix length of a node pod range. */
  const NODE_BITS := 24

  /** The index the first server conventionally takes; the worker allocator never hands it out. */
  const FIRST_SERVER_INDEX := 0

  const TWO_TO_THE_32 := 0x1_0000_0000

  function Pow2(n: nat): (p: nat)
    ensures p > 0
  {
    if n == 0 then 1 else 2 * Pow2(n - 1)
  }

  /** An IPv4 prefix: a 32-bit address and a prefix length. */
  datatype PrefixRaw = Prefix(addr: nat, bits: nat) {
    function HostSpan(): nat
      requires bits <= 32
    {
      Pow2(32 - bits)
    }
  }

  type Prefix = p: PrefixRaw | p.bits <= 32 && p.addr < TWO_TO_THE_32 witness PrefixRaw.Prefix(0, 0)

  /** A podCIDR field: text that parses as an IPv4 prefix, or text that does not. */
  datatype Cidr = Ipv4(prefix: Prefix) | Other(text: string)

  /** The prefix with its host bits cleared. */
  function Masked(p: Prefix): (m: Prefix)
    ensures m.bits == p.bits && m.addr <= p.addr
  {
    MaskBelow(p.addr, p.HostSpan());
    PrefixRaw.Prefix(p.addr / p.HostSpan() * p.HostSpan(), p.bits)
  }

  lemma MaskBelow(a: nat, span: nat)
    requires span > 0
    ensures 0 <= a / span * span <= a
  {
  }

  predicate Contains(p: Prefix, addr: nat) {
    addr / p.HostSpan() == p.addr / p.HostSpan()
  }

  /** Two podCIDR fields naming one range. */
  predicate SameRange(a: Cidr, b: Cidr) {
    a.Ipv4? && b.Ipv4? && Masked(a.prefix) == Masked(b.prefix)
  }

  /** How many node ranges the cluster CIDR holds. */
  function Slots(cluster: Prefix): nat {
    if cluster.bits <= NODE_BITS then Pow2(NODE_BITS - cluster.bits) else 0
  }

  /** A cluster CIDR wide enough to carve. */
  predicate Carvable(cluster: Prefix) {
    cluster.bits <= NODE_BITS
  }

  /** The index-th node range, or None past the last one (podnet.NodeCIDR's contract). */
  function NodeCidr(cluster: Prefix, index: nat): (r: Option<Prefix>)
    ensures r.Some? <==> index < Slots(cluster)
  {
    if index < Slots(cluster) then
      CarveFits(cluster, index);
      Some(PrefixRaw.Prefix(Masked(cluster).addr + index * 256, NODE_BITS))
    else
      None
  }

  /** Subtraction on 32-bit unsigned words, wrap-around included. */
  function Sub32(a: nat, b: nat): (d: nat)
    requires a < TWO_TO_THE_32 && b < TWO_TO_THE_32
    ensures d < TWO_TO_THE_32
    ensures a >= b ==> d == a - b
  {
    (a - b + TWO_TO_THE_32) % TWO_TO_THE_32
  }

  /** Which node index of the cluster CIDR a podCIDR field is, if any: the 32-bit difference of the two
      addresses, shifted right by the host bits of a /24. */
  function NodeIndexOf(cluster: Prefix, cidr: Cidr): Option<nat> {
    if cidr.Other? then None
    else
      var p, base := Masked(cidr.prefix), Masked(cluster);
      if p.bits != NODE_BITS || !Contains(base, p.addr) then None
      else Some(Sub32(p.addr, base.addr) / 256)
  }

  // ----- the carve and its inverse -----

  lemma Pow2Split(a: nat, b: nat)
    ensures Pow2(a + b) == Pow2(a) * Pow2(b)
  {
    if a != 0 {
      Pow2Split(a - 1, b);
      assert a - 1 + b == a + b - 1;
    }
  }

  lemma SpanIsSlots(cluster: Prefix)
    requires Carvable(cluster)
    ensures cluster.HostSpan() == Slots(cluster) * 256
  {
    assert 32 - cluster.bits == (NODE_BITS - cluster.bits) + 8;
    Pow2Split(NODE_BITS - cluster.bits, 8);
  }

  lemma Pow2Of32()
    ensures Pow2(32) == TWO_TO_THE_32
  {
    assert Pow2(8) == 256;
    Pow2Split(8, 8);
    assert Pow2(16) == 0x1_0000;
    Pow2Split(16, 16);
  }

  lemma CarveFits(cluster: Prefix, index: nat)
    requires index < Slots(cluster)
    ensures Masked(cluster).addr + index * 256 < TWO_TO_THE_32
  {
    ClusterBlock(cluster);
    Block(index, Slots(cluster), 256);
  }

  /** The cluster's addresses are one whole block of Slots * 256 addresses. */
  lemma ClusterBlock(cluster: Prefix)
    requires Carvable(cluster)
    ensures cluster.HostSpan() == Slots(cluster) * 256
    ensures Masked(cluster).addr + cluster.HostSpan() <= TWO_TO_THE_32
  {
    SpanIsSlots(cluster);
    Pow2Split(cluster.bits, 32 - cluster.bits);
    Pow2Of32();
    BlocksFit(cluster.addr, Pow2(cluster.bits), cluster.HostSpan());
  }

  lemma BlocksFit(a: nat, n: nat, m: nat)
    requires m > 0 && a < n * m
    ensures a / m * m + m <= n * m
  {
    QuotientBelow(a, n, m);
    Block(a / m, n, m);
  }

  lemma QuotientBelow(a: nat, n: nat, m: nat)
    requires m > 0 && a < n * m
    ensures a / m < n
  {
    BlockQuotient(a, a / m, m);
  }

  lemma Block(k: nat, n: nat, m: nat)
    requires k < n
    ensures k * m + m <= n * m
  {
    assert (k + 1) * m <= n * m;
  }

  /** A quotient inside a block: k*m <= x < k*m + m says x/m is k, and the converse. */
  lemma BlockQuotient(x: nat, k: nat, m: nat)
    requires m > 0
    ensures x / m == k <==> k * m <= x < k * m + m
  {
    var q := x / m;
    assert q * m <= x < q * m + m;
    if k * m <= x < k * m + m {
      if q < k { Block(q, k, m); } else if k < q { Block(k, q, m); }
    }
  }

  lemma MaskedIsAligned(p: Prefix)
    ensures Masked(p).addr / p.HostSpan() == p.addr / p.HostSpan()
    ensures Masked(Masked(p)) == Masked(p)
  {
    BlockQuotient(Masked(p).addr, p.addr / p.HostSpan(), p.HostSpan());
  }

  lemma HostSpanOfNode(p: Prefix)
    requires p.bits == NODE_BITS
    ensures p.HostSpan() == 256
  {
    assert Pow2(8) == 256;
  }

  /** The 32-bit arithmetic of the inverse, once the range is inside the cluster. */
  lemma IndexValue(cluster: Prefix, cidr: Cidr)
    requires cidr.Ipv4? && cidr.prefix.bits == NODE_BITS
    requires Contains(Masked(cluster), Masked(cidr.prefix).addr) && Masked(cluster).addr <= Masked(cidr.prefix).addr
    ensures NodeIndexOf(cluster, cidr) == Some((Masked(cidr.prefix).addr - Masked(cluster).addr) / 256)
  {
  }

  /** Offsets inside one block of s * 256 addresses, at multiples of 256. */
  lemma OffsetInBlock(base: nat, k: nat, s: nat, x: nat, q: nat)
    requires s > 0 && base == k * (s * 256) && x == q * 256
    ensures x / (s * 256) == k <==> k * s <= q < k * s + s
    ensures k * s <= q ==> x - base == (q - k * s) * 256 && (x - base) / 256 == q - k * s
  {
    assert base == k * s * 256;
    BlockQuotient(x, k, s * 256);
  }

  /** The source's inverse undoes the carve: index i of the cluster is read back as i. */
  lemma NodeIndexOfCarve(cluster: Prefix, index: nat)
    requires index < Slots(cluster)
    ensures NodeIndexOf(cluster, Ipv4(NodeCidr(cluster, index).value)) == Some(index)
    ensures Masked(NodeCidr(cluster, index).value) == NodeCidr(cluster, index).value
  {
    hide Contains, Masked, NodeIndexOf, Slots;
    var p := NodeCidr(cluster, index).value;
    CarvedInside(cluster, index, p);
    IndexValue(cluster, Ipv4(p));
  }

  lemma CarvedInside(cluster: Prefix, index: nat, p: Prefix)
    requires index < Slots(cluster) && NodeCidr(cluster, index) == Some(p)
    ensures Masked(p) == p && Contains(Masked(cluster), p.addr)
  {
    ClusterBlock(cluster);
    MaskedIsAligned(cluster);
    var span, s := cluster.HostSpan(), Slots(cluster);
    var k := cluster.addr / span;
    assert Masked(cluster).addr == k * (s * 256) by {
      assert span == s * 256;
    }
    CarveArithmetic(Masked(cluster).addr, k, s, index);
    MaskOfMultiple(p, k * s + index);
    assert p.addr / span == k;
  }

  lemma CarveArithmetic(base: nat, k: nat, s: nat, index: nat)
    requires s > 0 && base == k * (s * 256) && index < s
    ensures base + index * 256 == (k * s + index) * 256
    ensures (base + index * 256) / (s * 256) == k
  {
    OffsetInBlock(base, k, s, base + index * 256, k * s + index);
  }

  lemma MaskOfMultiple(p: Prefix, q: nat)
    requires p.bits == NODE_BITS && p.addr == q * 256
    ensures Masked(p) == p
  {
    HostSpanOfNode(p);
    BlockQuotient(p.addr, q, 256);
  }

  /** And every range it reads as an index is that carve: nothing else gets an index. */
  lemma NodeIndexOfExact(cluster: Prefix, cidr: Cidr)
    requires Carvable(cluster) && NodeIndexOf(cluster, cidr).Some?
    ensures cidr.Ipv4?
    ensures NodeIndexOf(cluster, cidr).value < Slots(cluster)
    ensures NodeCidr(cluster, NodeIndexOf(cluster, cidr).value) == Some(Masked(cidr.prefix))
  {
    InsideIsCarved(cluster, cidr.prefix);
    IndexValue(cluster, cidr);
  }

  lemma InsideIsCarved(cluster: Prefix, x: Prefix)
    requires Carvable(cluster) && x.bits == NODE_BITS && Contains(Masked(cluster), Masked(x).addr)
    ensures Masked(cluster).addr <= Masked(x).addr
    ensures var i := (Masked(x).addr - Masked(cluster).addr) / 256;
      i < Slots(cluster) && Masked(x).addr == Masked(cluster).addr + i * 256
  {
    ClusterBlock(cluster);
    MaskedIsAligned(cluster);
    HostSpanOfNode(x);
    var span, s := cluster.HostSpan(), Slots(cluster);
    var k := cluster.addr / span;
    assert Masked(cluster).addr == k * (s * 256) by {
      assert span == s * 256;
    }
    OffsetInBlock(Masked(cluster).addr, k, s, Masked(x).addr, x.addr / 256);
  }

  /** Two fields with one index name one range, and a range shared with an indexed field has its index. */
  lemma IndexIdentifiesRange(cluster: Prefix, a: Cidr, b: Cidr)
    requires Carvable(cluster) && NodeIndexOf(cluster, a).Some?
    ensures SameRange(a, b) <==> NodeIndexOf(cluster, b) == NodeIndexOf(cluster, a)
  {
    NodeIndexOfExact(cluster, a);
    if NodeIndexOf(cluster, b).Some? {
      NodeIndexOfExact(cluster, b);
    }
  }

  // ----- the lowest free index -----

  /** The indices a list of podCIDR fields occupies. */
  ghost function UsedIndices(cluster: Prefix, cidrs: seq<Cidr>): set<nat> {
    set i | 0 <= i < |cidrs| && NodeIndexOf(cluster, cidrs[i]).Some? :: NodeIndexOf(cluster, cidrs[i]).value
  }

  /** index is the least index from `from` on that used does not hold. */
  ghost predicate LeastUnused(used: set<nat>, from: nat, index: nat) {
    from <= index && index !in used && forall k :: from <= k < index ==> k in used
  }

  /** lowestFreeNodeIndex: the least index >= 1 no listed peer holds, or None exactly when every
      index of the cluster from 1 up is held. */
  method LowestFreeNodeIndex(cluster: Prefix, existing: seq<Cidr>) returns (r: Option<nat>)
    requires Carvable(cluster)
    ensures r.Some? ==> r.value < Slots(cluster) && LeastUnused(UsedIndices(cluster, existing), FIRST_SERVER_INDEX + 1, r.value)
    ensures r.None? <==> forall k :: FIRST_SERVER_INDEX + 1 <= k < Slots(cluster) ==> k in UsedIndices(cluster, existing)
  {
    var used: set<nat> := {};
    for i := 0 to |existing|
      invariant used == UsedIndices(cluster, existing[..i])
    {
      assert existing[..i + 1] == existing[..i] + [existing[i]];
      var idx := NodeIndexOf(cluster, existing[i]);
      if idx.Some? {
        used := used + {idx.value};
      }
    }
    assert existing[..|existing|] == existing;
    UsedIndicesBelowSlots(cluster, existing);
    var index := FIRST_SERVER_INDEX + 1;
    while true
      invariant FIRST_SERVER_INDEX + 1 <= index
      invariant forall k :: FIRST_SERVER_INDEX + 1 <= k < index ==> k in used
      decreases Slots(cluster) - index
    {
      if index in used {
        index := index + 1;
        continue;
      }
      if NodeCidr(cluster, index).None? {
        return None;
      }
      return Some(index);
    }
  }

  lemma UsedIndicesBelowSlots(cluster: Prefix, cidrs: seq<Cidr>)
    requires Carvable(cluster)
    ensures forall k :: k in UsedIndices(cluster, cidrs) ==> k < Slots(cluster)
  {
    forall i | 0 <= i < |cidrs| && NodeIndexOf(cluster, cidrs[i]).Some?
      ensures NodeIndexOf(cluster, cidrs[i]).value < Slots(cluster)
    {
      NodeIndexOfExact(cluster, cidrs[i]);
    }
  }
}
