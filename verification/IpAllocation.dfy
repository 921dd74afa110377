/** The address allocator of management/server/network.go: generateIPs walks a CIDR block address by
    address and AllocatePeerIP picks any address of the list that is left. The lemmas give the list
    in closed form and the exact number of peers a network can hold. */
module IpAllocation {
  import opened IpArithmetic

  const ADDRESSES: nat := 0x1_0000_0000
  type Addr = v: int | 0 <= v < 0x1_0000_0000

  /** `net.IPNet` with a CIDR mask of `prefix` ones. `ip` need not be the first address of the block. */
  datatype IPNet = IPNet(ip: Addr, prefix: nat) {
    function Size(): (r: nat)
      requires prefix <= 32
      ensures r >= 1
    {
      Pow2(32 - prefix)
    }

    /** First address of the block. */
    function Base(): (r: nat)
      requires prefix <= 32
    {
      ModBelow(ip, Size());
      ip - ip % Size()
    }

    predicate Aligned()
      requires prefix <= 32
    {
      ip == Base()
    }

    /** What the allocation loop needs in order to end: it never leaves a block of prefix 0. */
    predicate Valid() {
      1 <= prefix <= 32
    }
  }

  lemma Pow256Of4()
    ensures Pow256(4) == ADDRESSES
  {
    assert Pow256(1) == 256 && Pow256(2) == 65536 && Pow256(3) == 16777216;
  }

  lemma {:induction false} Pow2Monotone(j: nat, k: nat)
    requires j <= k
    ensures Pow2(j) <= Pow2(k)
  {
    if j < k { Pow2Monotone(j, k - 1); }
  }

  lemma Pow2Of31And32()
    ensures Pow2(32) == ADDRESSES && Pow2(31) == 0x8000_0000
  {
    Pow2Byte(24); Pow2Byte(16); Pow2Byte(8); Pow2Byte(0);
    assert Pow2(0) == 1;
    assert Pow2(32) == 2 * Pow2(31);
  }

  function AddrOctets(a: Addr): (s: seq<byte>)
    ensures |s| == 4 && Value(s) == a
  {
    Pow256Of4();
    Octets(a, 4)
  }

  /** `IPNet.Contains`: the masked octets agree. */
  predicate Contains(n: IPNet, ip: seq<byte>)
    requires |ip| == 4
  {
    Mask(AddrOctets(n.ip), n.prefix) == Mask(ip, n.prefix)
  }

  lemma SameBlock(u: nat, v: nat, m: nat)
    requires m >= 1
    ensures u - u % m == v - v % m <==> u - u % m <= v < u - u % m + m
  {
    ModBelow(u, m);
    ModBelow(v, m);
    if u - u % m <= v < u - u % m + m {
      assert u == m * (u / m) + u % m;
      ModUnique(v, m, u / m, v - (u - u % m));
    }
  }

  /** The octet-wise test is membership of the number in the block. */
  lemma ContainsIsBlockMembership(n: IPNet, ip: seq<byte>)
    requires n.prefix <= 32 && |ip| == 4
    ensures Contains(n, ip) <==> n.Base() <= Value(ip) < n.Base() + n.Size()
  {
    var own := AddrOctets(n.ip);
    MaskRoundsDown(own, n.prefix);
    MaskRoundsDown(ip, n.prefix);
    SameBlock(n.ip, Value(ip), n.Size());
    if Value(Mask(own, n.prefix)) == Value(Mask(ip, n.prefix)) {
      ValueInjective(Mask(own, n.prefix), Mask(ip, n.prefix));
    }
  }

  /** No address is outside a network of prefix 0, so the loop of generateIPs would never end on one. */
  lemma PrefixZeroContainsEverything(ip: Addr, octets: seq<byte>)
    requires |octets| == 4
    ensures Contains(IPNet(ip, 0), octets)
  {
    var n := IPNet(ip, 0);
    Pow2Of31And32();
    ModUnique(ip, ADDRESSES, 0, ip);
    Pow256Of4();
    ContainsIsBlockMembership(n, octets);
  }

  lemma BlockFits(n: IPNet)
    requires n.Valid()
    ensures n.Base() + n.Size() <= ADDRESSES
    ensures n.Size() < ADDRESSES
  {
    var m := n.Size();
    Pow2Of31And32();
    Pow2Monotone(32 - n.prefix, 31);
    Pow2Factor(32 - n.prefix, n.prefix);
    RoundedDownFits(n.ip, m, Pow2(n.prefix));
  }

  lemma RoundedDownFits(v: nat, m: nat, k: nat)
    requires m >= 1 && v < m * k
    ensures v - v % m + m <= m * k
  {
    var q := v / m;
    assert v == m * q + v % m;
    if q >= k {
      MulMonotone(m, k, q);
      assert false;
    }
    MulMonotone(m, q + 1, k);
    AddOne(m, q);
  }

  lemma AddOne(m: nat, q: nat)
    ensures m * (q + 1) == m * q + m
  {
  }

  lemma MulMonotone(m: nat, a: nat, b: nat)
    requires a <= b
    ensures m * a <= m * b
  {
  }

  // ----- what generateIPs lists -----

  /** An address the loop keeps: not excluded, last octet not 0. */
  predicate Keeps(v: nat, exclusions: set<Addr>) {
    v < ADDRESSES && v !in exclusions && v % 256 != 0
  }

  /** The addresses of [lo, hi) that the loop keeps, in the order the loop meets them. */
  function Candidates(lo: nat, hi: nat, exclusions: set<Addr>): (s: seq<Addr>)
    requires hi <= ADDRESSES
    decreases hi
  {
    if lo >= hi then []
    else if Keeps(hi - 1, exclusions) then Candidates(lo, hi - 1, exclusions) + [hi - 1]
    else Candidates(lo, hi - 1, exclusions)
  }

  /** The trimming switch: both ends go when there are at least two. */
  function Trim<T>(s: seq<T>): seq<T> {
    if |s| < 2 then s else s[1..|s| - 1]
  }

  function Pool(n: IPNet, exclusions: set<Addr>): seq<Addr>
    requires n.Valid()
  {
    BlockFits(n);
    Candidates(n.Base(), n.Base() + n.Size(), exclusions)
  }

  /** What AllocatePeerIP chooses from: the network's own address and the taken ones are excluded. */
  function FreeIps(n: IPNet, taken: set<Addr>): seq<Addr>
    requires n.Valid()
  {
    Trim(Pool(n, taken + {n.ip}))
  }

  function Values(ips: seq<seq<byte>>): (vs: seq<nat>)
    ensures |vs| == |ips|
  {
    seq(|ips|, i requires 0 <= i < |ips| => Value(ips[i]))
  }

  /** `generateIPs`: the list of the walk, with both ends trimmed when there are at least two. */
  method GenerateIPs(n: IPNet, exclusions: set<Addr>) returns (ips: seq<seq<byte>>, count: nat)
    requires n.Valid()
    ensures forall i :: 0 <= i < |ips| ==> |ips[i]| == 4
    ensures Values(ips) == Trim(Pool(n, exclusions))
    ensures count == |ips|
  {
    ghost var lo, size := n.Base(), n.Size();
    BlockOfNetwork(n);
    ips := WalkBlock(n, Mask(AddrOctets(n.ip), n.prefix), exclusions, lo, size);
    count := |ips|;
    if |ips| >= 2 {
      ValuesTrim(ips);
      ips, count := ips[1..|ips| - 1], |ips| - 2;
    }
  }

  lemma BlockOfNetwork(n: IPNet)
    requires n.Valid()
    ensures n.Base() + n.Size() <= ADDRESSES && n.Size() < ADDRESSES
    ensures Value(Mask(AddrOctets(n.ip), n.prefix)) == n.Base()
    ensures BlockIs(n, n.Base(), n.Size())
  {
    MaskRoundsDown(AddrOctets(n.ip), n.prefix);
    BlockFits(n);
    forall s: seq<byte> | |s| == 4 ensures InBlock(n, n.Base(), n.Size(), s) {
      ContainsIsBlockMembership(n, s);
    }
  }

  ghost predicate InBlock(n: IPNet, lo: nat, size: nat, s: seq<byte>)
    requires |s| == 4
  {
    Contains(n, s) <==> lo <= Value(s) < lo + size
  }

  ghost predicate BlockIs(n: IPNet, lo: nat, size: nat) {
    forall s: seq<byte> {:trigger InBlock(n, lo, size, s)} :: |s| == 4 ==> InBlock(n, lo, size, s)
  }

  /** The loop of generateIPs: it increments one mutable address, and keeps a copy of its bytes.
      It ends although the address after the last block of the space is 0.0.0.0. */
  method WalkBlock(n: IPNet, start: seq<byte>, exclusions: set<Addr>, ghost lo: nat, ghost size: nat)
    returns (ips: seq<seq<byte>>)
    requires |start| == 4 && Value(start) == lo && 1 <= size < ADDRESSES && lo + size <= ADDRESSES
    requires BlockIs(n, lo, size)
    ensures forall i :: 0 <= i < |ips| ==> |ips[i]| == 4
    ensures Values(ips) == Candidates(lo, lo + size, exclusions)
  {
    var ip := new byte[4](i requires 0 <= i < 4 => start[i]);
    assert ip[..] == start;
    assert InBlock(n, lo, size, ip[..]);
    ips := [];
    ghost var steps: nat := 0;
    while Contains(n, ip[..])
      invariant steps <= size
      invariant Contains(n, ip[..]) <==> steps < size
      invariant steps < size ==> Value(ip[..]) == lo + steps
      invariant forall i :: 0 <= i < |ips| ==> |ips[i]| == 4
      invariant Values(ips) == Candidates(lo, lo + steps, exclusions)
      decreases size - steps
    {
      ghost var before := ip[..];
      ips := KeepUsable(ips, ip[..], exclusions, lo, lo + steps);
      IncIP(ip);
      NextAddress(before, ip[..], lo, size, steps);
      assert InBlock(n, lo, size, ip[..]);
      steps := steps + 1;
    }
  }

  /** The body of the walk: keep a copy of the address unless it is excluded or ends in octet 0. */
  method KeepUsable(ips: seq<seq<byte>>, ip: seq<byte>, exclusions: set<Addr>, ghost lo: nat, ghost v: nat)
    returns (kept: seq<seq<byte>>)
    requires |ip| == 4 && Value(ip) == v && lo <= v < ADDRESSES
    requires forall i :: 0 <= i < |ips| ==> |ips[i]| == 4
    requires Values(ips) == Candidates(lo, v, exclusions)
    ensures forall i :: 0 <= i < |kept| ==> |kept[i]| == 4
    ensures Values(kept) == Candidates(lo, v + 1, exclusions)
  {
    LastOctetIsRemainder(ip);
    CandidatesNext(lo, v, exclusions);
    kept := ips;
    if Value(ip) !in exclusions && ip[3] != 0 {
      kept := ips + [ip];
      ValuesAppend(ips, ip);
    }
  }

  lemma CandidatesNext(lo: nat, v: nat, exclusions: set<Addr>)
    requires lo <= v < ADDRESSES
    ensures Candidates(lo, v + 1, exclusions) ==
      Candidates(lo, v, exclusions) + if v !in exclusions && v % 256 != 0 then [v] else []
  {
  }

  /** One turn of the walk: either the next address of the block, or past its end (possibly to 0). */
  lemma NextAddress(before: seq<byte>, after: seq<byte>, lo: nat, size: nat, steps: nat)
    requires |before| == |after| == 4 && steps < size < ADDRESSES && lo + size <= ADDRESSES
    requires Value(before) == lo + steps
    requires Value(after) == (Value(before) + 1) % Pow256(4)
    ensures lo <= Value(after) < lo + size <==> steps + 1 < size
    ensures steps + 1 < size ==> Value(after) == lo + steps + 1
  {
    Pow256Of4();
    var v := lo + steps + 1;
    if v < ADDRESSES {
      ModUnique(v, ADDRESSES, 0, v);
    } else {
      ModUnique(v, ADDRESSES, 1, 0);
    }
  }

  lemma ValuesAppend(ips: seq<seq<byte>>, ip: seq<byte>)
    ensures Values(ips + [ip]) == Values(ips) + [Value(ip)]
  {
  }

  lemma ValuesTrim(ips: seq<seq<byte>>)
    requires |ips| >= 2
    ensures Values(ips[1..|ips| - 1]) == Values(ips)[1..|ips| - 1]
  {
  }

  lemma LastOctetIsRemainder(s: seq<byte>)
    requires |s| == 4
    ensures s[3] == Value(s) % 256
  {
    assert Value(s) == Value(s[..3]) * 256 + s[3];
  }

  /** `AllocatePeerIP`: any address of the list, or the error when the list is empty. */
  method AllocatePeerIP(n: IPNet, takenIps: seq<Addr>) returns (ip: seq<byte>, outOfRange: bool)
    requires n.Valid()
    ensures outOfRange <==> FreeIps(n, Elements(takenIps)) == []
    ensures !outOfRange ==> |ip| == 4 && Value(ip) in FreeIps(n, Elements(takenIps))
  {
    var takenIPMap: set<Addr> := {n.ip};
    for i := 0 to |takenIps|
      invariant takenIPMap == {n.ip} + Elements(takenIps[..i])
    {
      assert takenIps[..i + 1] == takenIps[..i] + [takenIps[i]];
      takenIPMap := takenIPMap + {takenIps[i]};
    }
    assert takenIps[..|takenIps|] == takenIps;
    assert takenIPMap == Elements(takenIps) + {n.ip};
    var ips, _ := GenerateIPs(n, takenIPMap);
    if |ips| == 0 {
      return [], true;
    }
    var pick :| 0 <= pick < |ips|;
    assert Values(ips)[pick] == Value(ips[pick]);
    return ips[pick], false;
  }

  // ----- the list in closed form -----

  ghost predicate Ascending(s: seq<Addr>) {
    forall i, j :: 0 <= i < j < |s| ==> s[i] < s[j]
  }

  lemma {:induction false} CandidatesExactly(lo: nat, hi: nat, exclusions: set<Addr>)
    requires hi <= ADDRESSES
    ensures Ascending(Candidates(lo, hi, exclusions))
    ensures forall v: Addr :: v in Candidates(lo, hi, exclusions) <==> lo <= v < hi && Keeps(v, exclusions)
    decreases hi
  {
    if lo < hi {
      CandidatesExactly(lo, hi - 1, exclusions);
      var init, all := Candidates(lo, hi - 1, exclusions), Candidates(lo, hi, exclusions);
      forall i, j | 0 <= i < j < |all| ensures all[i] < all[j] {
        assert all[i] in init;
      }
    }
  }

  ghost function Elements(s: seq<Addr>): set<Addr> {
    set v | v in s
  }

  lemma {:induction false} AscendingLength(s: seq<Addr>)
    requires Ascending(s)
    ensures |Elements(s)| == |s|
  {
    if s != [] {
      var init, last := s[..|s| - 1], s[|s| - 1];
      AscendingLength(init);
      assert Elements(s) == Elements(init) + {last};
    }
  }

  /** In the network, not excluded, last octet not 0. */
  predicate Usable(n: IPNet, v: Addr, exclusions: set<Addr>)
    requires n.Valid()
  {
    n.Base() <= v < n.Base() + n.Size() && Keeps(v, exclusions)
  }

  /** generateIPs in the words of its documentation: ascending, exactly the usable addresses of the
      block, without the first and the last of them when there are at least two. */
  lemma GeneratedExactly(n: IPNet, exclusions: set<Addr>)
    requires n.Valid()
    ensures Ascending(Trim(Pool(n, exclusions)))
    ensures |Pool(n, exclusions)| < 2 ==>
      forall v: Addr :: v in Trim(Pool(n, exclusions)) <==> Usable(n, v, exclusions)
    ensures |Pool(n, exclusions)| >= 2 ==>
      forall v: Addr :: v in Trim(Pool(n, exclusions)) <==>
        && Usable(n, v, exclusions)
        && (exists u: Addr :: u < v && Usable(n, u, exclusions))
        && (exists w: Addr :: v < w && Usable(n, w, exclusions))
  {
    BlockFits(n);
    var pool := Pool(n, exclusions);
    CandidatesExactly(n.Base(), n.Base() + n.Size(), exclusions);
    assert forall v: Addr :: v in pool <==> Usable(n, v, exclusions);
    TrimElements(pool);
    if |pool| >= 2 {
      var first, last := pool[0], pool[|pool| - 1];
      assert first in pool && last in pool;
      forall v: Addr | v in pool ensures v != first ==> first < v
                                 ensures v != last ==> v < last {}
      assert forall v: Addr :: v in Trim(pool) <==> v in Elements(Trim(pool));
    }
  }

  // ----- capacity -----

  /** The number of peers the network can hold: the pool with nothing taken, less the two ends. */
  function Capacity(n: IPNet): nat
    requires n.Valid()
  {
    |Trim(Pool(n, {n.ip}))|
  }

  /** What every set of allocated addresses keeps: usable addresses strictly between the two ends. */
  ghost predicate TakenOk(n: IPNet, taken: set<Addr>)
    requires n.Valid()
  {
    forall v :: v in taken ==> v in FreeIps(n, {})
  }

  lemma PoolMinusTaken(n: IPNet, taken: set<Addr>)
    requires n.Valid()
    ensures Elements(Pool(n, taken + {n.ip})) == Elements(Pool(n, {n.ip})) - taken
  {
    BlockFits(n);
    CandidatesExactly(n.Base(), n.Base() + n.Size(), {n.ip});
    CandidatesExactly(n.Base(), n.Base() + n.Size(), taken + {n.ip});
  }

  lemma TrimElements(s: seq<Addr>)
    requires Ascending(s)
    ensures Ascending(Trim(s))
    ensures |s| >= 2 ==> Elements(Trim(s)) == Elements(s) - {s[0], s[|s| - 1]}
  {
    if |s| >= 2 {
      var t := Trim(s);
      forall v | v in Elements(s) - {s[0], s[|s| - 1]} ensures v in t {
        var i :| 0 <= i < |s| && s[i] == v;
        assert t[i - 1] == v;
      }
      forall v | v in t ensures v in s && v != s[0] && v != s[|s| - 1] {
        var i :| 0 <= i < |t| && t[i] == v;
        assert s[i + 1] == v;
      }
    }
  }

  /** With addresses taken only from the list, the free list is the original list less the taken ones:
      the same two ends are trimmed whatever has been handed out. */
  lemma FreeIsOriginalMinusTaken(n: IPNet, taken: set<Addr>)
    requires n.Valid() && TakenOk(n, taken)
    ensures Ascending(FreeIps(n, taken))
    ensures Elements(FreeIps(n, taken)) == Elements(FreeIps(n, {})) - taken
  {
    BlockFits(n);
    var pool, rest := Pool(n, {n.ip}), Pool(n, taken + {n.ip});
    assert {} + {n.ip} == {n.ip};
    CandidatesExactly(n.Base(), n.Base() + n.Size(), {n.ip});
    CandidatesExactly(n.Base(), n.Base() + n.Size(), taken + {n.ip});
    PoolMinusTaken(n, taken);
    TrimElements(pool);
    TrimElements(rest);
    if |pool| >= 2 {
      var first, last := pool[0], pool[|pool| - 1];
      assert first in Elements(pool) && last in Elements(pool);
      assert first !in Elements(Trim(pool)) && last !in Elements(Trim(pool));
      assert first in Elements(rest) && last in Elements(rest);
      EndsStay(pool, rest);
    } else {
      AscendingLength(pool);
      AscendingLength(rest);
      SubsetSize(Elements(rest), Elements(pool));
    }
  }

  lemma EndsStay(pool: seq<Addr>, rest: seq<Addr>)
    requires Ascending(pool) && Ascending(rest) && |pool| >= 2
    requires Elements(rest) <= Elements(pool)
    requires pool[0] in rest && pool[|pool| - 1] in rest
    ensures |rest| >= 2 && rest[0] == pool[0] && rest[|rest| - 1] == pool[|pool| - 1]
  {
    var first, last := pool[0], pool[|pool| - 1];
    var i :| 0 <= i < |rest| && rest[i] == first;
    var j :| 0 <= j < |rest| && rest[j] == last;
    assert rest[0] in Elements(pool) && rest[|rest| - 1] in Elements(pool);
  }

  lemma SubsetSize<T>(a: set<T>, b: set<T>)
    requires a <= b
    ensures |a| <= |b|
  {
    assert b == a + (b - a);
  }

  /** Allocation fails exactly when Capacity peers are registered. */
  lemma AllocationFailsExactlyWhenFull(n: IPNet, taken: set<Addr>)
    requires n.Valid() && TakenOk(n, taken)
    ensures FreeIps(n, taken) == [] <==> |taken| == Capacity(n)
    ensures |taken| <= Capacity(n)
  {
    hide Trim, Pool;
    assert {} + {n.ip} == {n.ip};
    FreeIsOriginalMinusTaken(n, {});
    FreeIsOriginalMinusTaken(n, taken);
    var all, free := Elements(FreeIps(n, {})), Elements(FreeIps(n, taken));
    AscendingLength(FreeIps(n, {}));
    AscendingLength(FreeIps(n, taken));
    SizeOfRest(all, taken, free);
  }

  lemma SizeOfRest<T>(all: set<T>, taken: set<T>, free: set<T>)
    requires taken <= all && free == all - taken
    ensures |all| == |free| + |taken|
  {
    assert all == free + taken;
  }

  /** Handing out a free address keeps the discipline, and the address was not taken. */
  lemma AllocatingKeeps(n: IPNet, taken: set<Addr>, v: Addr)
    requires n.Valid() && TakenOk(n, taken) && v in FreeIps(n, taken)
    ensures TakenOk(n, taken + {v}) && v !in taken
  {
    FreeIsOriginalMinusTaken(n, taken);
    assert v in Elements(FreeIps(n, taken));
  }

  /** Taken addresses lie in the block, never end in octet 0, and up to prefix 24 are neither the lowest
      host nor the broadcast address: such an end is the network's own address, or it is trimmed. */
  lemma TakenAddresses(n: IPNet, taken: set<Addr>, v: Addr)
    requires n.Valid() && TakenOk(n, taken) && v in taken
    ensures Usable(n, v, {n.ip})
    ensures n.prefix <= 24 ==> v != n.Base() + 1 && v != n.Base() + n.Size() - 1
  {
    assert {} + {n.ip} == {n.ip};
    GeneratedExactly(n, {n.ip});
    if n.prefix <= 24 {
      AlignedTo256(n);
      WidePool(n);
      var u: Addr :| u < v && Usable(n, u, {n.ip});
      assert u != n.Base();
    }
  }

  lemma RoundDownIsMultiple(v: nat, m: nat)
    requires m >= 1
    ensures v - v % m == m * (v / m)
  {
  }

  /** A block of prefix at most 24 is a whole number of /24 blocks and starts on one. */
  lemma AlignedTo256(n: IPNet)
    requires 1 <= n.prefix <= 24
    ensures n.Base() % 256 == 0 && n.Size() == 256 * Pow2(24 - n.prefix)
  {
    Pow2Byte(24 - n.prefix);
    var c, q := Pow2(24 - n.prefix), n.ip / n.Size();
    RoundDownIsMultiple(n.ip, n.Size());
    MulAssoc(256, c, q);
    ModUnique(n.Base(), 256, c * q, 0);
  }

  lemma {:induction false} CountInOneBlock(b: nat, j: nat, exclusions: set<Addr>)
    requires b % 256 == 0 && 1 <= j <= 256 && b + j <= ADDRESSES
    requires forall v :: v in exclusions ==> v <= b
    ensures |Candidates(b, b + j, exclusions)| == j - 1
    decreases j
  {
    if j == 1 {
      assert Candidates(b, b, exclusions) == [];
    } else {
      CountInOneBlock(b, j - 1, exclusions);
      ModUnique(b + j - 1, 256, b / 256, j - 1);
      assert Keeps(b + j - 1, exclusions);
    }
  }

  lemma {:induction false} CandidatesSplit(lo: nat, mid: nat, hi: nat, exclusions: set<Addr>)
    requires lo <= mid <= hi <= ADDRESSES
    ensures Candidates(lo, hi, exclusions) == Candidates(lo, mid, exclusions) + Candidates(mid, hi, exclusions)
    decreases hi
  {
    if mid < hi {
      CandidatesSplit(lo, mid, hi - 1, exclusions);
    } else {
      assert Candidates(mid, hi, exclusions) == [];
    }
  }

  lemma {:induction false} CountInBlocks(b: nat, k: nat, exclusions: set<Addr>)
    requires b % 256 == 0 && b + 256 * k <= ADDRESSES
    requires forall v :: v in exclusions ==> v <= b
    ensures |Candidates(b, b + 256 * k, exclusions)| == 255 * k
  {
    if k > 0 {
      var mid := b + 256 * (k - 1);
      CountInBlocks(b, k - 1, exclusions);
      CandidatesSplit(b, mid, mid + 256, exclusions);
      ModUnique(mid, 256, b / 256 + (k - 1), 0);
      CountInOneBlock(mid, 256, exclusions);
    }
  }

  lemma WithoutOneAddress(lo: nat, hi: nat, x: Addr)
    requires lo <= x < hi <= ADDRESSES
    ensures |Candidates(lo, hi, {x})| == |Candidates(lo, hi, {})| - if x % 256 == 0 then 0 else 1
  {
    CandidatesExactly(lo, hi, {});
    CandidatesExactly(lo, hi, {x});
    var all, rest := Candidates(lo, hi, {}), Candidates(lo, hi, {x});
    AscendingLength(all);
    AscendingLength(rest);
    assert Elements(rest) == Elements(all) - {x};
  }

  lemma CountWithoutOne(b: nat, k: nat, x: Addr)
    requires b % 256 == 0 && b <= x < b + 256 * k <= ADDRESSES
    ensures |Candidates(b, b + 256 * k, {x})| == 255 * k - if x % 256 == 0 then 0 else 1
  {
    CountInBlocks(b, k, {});
    WithoutOneAddress(b, b + 256 * k, x);
  }

  lemma OwnAddressInBlock(n: IPNet)
    requires n.Valid()
    ensures n.Base() <= n.ip < n.Base() + n.Size() <= ADDRESSES
  {
    BlockFits(n);
    ModBelow(n.ip, n.Size());
  }

  /** The pool of a network of prefix at most 24: its own address counts when it does not end in 0. */
  lemma WidePool(n: IPNet)
    requires 1 <= n.prefix <= 24
    ensures |Pool(n, {n.ip})| == 255 * Pow2(24 - n.prefix) - if n.ip % 256 == 0 then 0 else 1
    ensures |Pool(n, {n.ip})| >= 254
  {
    hide Pow2, IPNet.Base, IPNet.Size, Candidates;
    AlignedTo256(n);
    OwnAddressInBlock(n);
    CountWithoutOne(n.Base(), Pow2(24 - n.prefix), n.ip);
  }

  lemma {:induction false} CountSmall(b: nat, j: nat, x: Addr)
    requires 1 <= j <= 256 && b % 256 + j <= 256 && b + j <= ADDRESSES && x == b
    ensures |Candidates(b, b + j, {x})| == j - 1
    decreases j
  {
    if j == 1 {
      assert Candidates(b, b, {x}) == [];
    } else {
      CountSmall(b, j - 1, x);
      ModUnique(b + j - 1, 256, b / 256, b % 256 + j - 1);
      assert Keeps(b + j - 1, {x});
    }
  }

  lemma SmallBlockInOneOctet(n: IPNet)
    requires 25 <= n.prefix <= 32
    ensures n.Size() <= 128 && n.Base() % 256 + n.Size() <= 256
  {
    var k := 32 - n.prefix;
    Pow2Monotone(k, 7);
    assert Pow2(0) == 1 && Pow2(1) == 2 && Pow2(2) == 4 && Pow2(3) == 8;
    assert Pow2(4) == 16 && Pow2(5) == 32 && Pow2(6) == 64 && Pow2(7) == 128;
    Pow2Complement(k);
    RoundedDownModByte(n.ip, Pow2(k), Pow2(8 - k));
  }

  lemma RoundedDownModByte(v: nat, m: nat, c: nat)
    requires m >= 1 && c >= 1 && m * c == 256
    ensures (v - v % m) % 256 + m <= 256
  {
    var q := v / m;
    RoundDownIsMultiple(v, m);
    var h, l := q / c, q % c;
    MulDist(m, c * h, l);
    MulAssoc(m, c, h);
    MulMonotone(m, l + 1, c);
    AddOne(m, l);
    ModUnique(m * q, 256, h, m * l);
  }

  /** Exact capacity: for every prefix up to 24, and for smaller blocks named by their first address.
      253 peers for a /24 and 65278 for a /16 named by an address ending in 0. */
  lemma CapacityOfNetwork(n: IPNet)
    requires n.Valid()
    ensures n.prefix <= 24 ==> Capacity(n) == 255 * Pow2(24 - n.prefix) - if n.ip % 256 == 0 then 2 else 3
    ensures n.prefix > 24 && n.Aligned() ==>
      Capacity(n) == if n.prefix <= 30 then Pow2(32 - n.prefix) - 3 else if n.prefix == 31 then 1 else 0
    ensures n.Aligned() && n.prefix == 24 ==> Capacity(n) == 253
    ensures n.Aligned() && n.prefix == 16 ==> Capacity(n) == 65278
  {
    if n.prefix <= 24 {
      WidePool(n);
      AlignedTo256(n);
      assert Pow2(0) == 1;
      Pow2Byte(0);
    } else if n.Aligned() {
      SmallBlockInOneOctet(n);
      BlockFits(n);
      CountSmall(n.Base(), n.Size(), n.ip);
      assert Pow2(0) == 1 && Pow2(1) == 2;
      Pow2Monotone(2, 32 - if n.prefix <= 30 then n.prefix else 30);
      assert Pow2(2) == 4;
    }
  }

  /** `NewNetwork`: the `i`-th of the 64 /16 subnets of the shared address space 100.64.0.0/10
      (section 7 of RFC 6598). */
  function NewNetwork(i: nat): (n: IPNet)
    requires i < 64
  {
    IPNet(0x6440_0000 + 0x1_0000 * i, 16)
  }

  lemma NewNetworkBlock(i: nat, v: Addr)
    requires i < 64
    ensures NewNetwork(i).Valid() && NewNetwork(i).Aligned() && Capacity(NewNetwork(i)) == 65278
    ensures Contains(NewNetwork(i), AddrOctets(v)) <==>
      0x6440_0000 + 0x1_0000 * i <= v < 0x6440_0000 + 0x1_0000 * (i + 1)
  {
    var n := NewNetwork(i);
    Pow2Byte(8); Pow2Byte(0);
    assert Pow2(0) == 1;
    ModUnique(n.ip, 0x1_0000, 0x6440 + i, 0);
    assert n.Size() == 0x1_0000 && n.Base() == n.ip;
    CapacityOfNetwork(n);
    ContainsIsBlockMembership(n, AddrOctets(v));
  }

  lemma SharedBlock(v: Addr)
    ensures Contains(IPNet(0x6440_0000, 10), AddrOctets(v)) <==> 0x6440_0000 <= v < 0x6480_0000
  {
    var shared := IPNet(0x6440_0000, 10);
    Pow2Byte(14); Pow2Byte(6);
    assert Pow2(0) == 1 && Pow2(2) == 4 && Pow2(4) == 16 && Pow2(6) == 64;
    assert shared.Size() == 0x40_0000;
    ModUnique(0x6440_0000, 0x40_0000, 401, 0);
    ContainsIsBlockMembership(shared, AddrOctets(v));
  }

  /** Every generated network lies in the shared space, holds 65278 peers, and overlaps no other one. */
  lemma NewNetworkIsShared(i: nat, j: nat, v: Addr)
    requires i < 64 && j < 64
    ensures NewNetwork(i).Valid() && NewNetwork(i).Aligned() && Capacity(NewNetwork(i)) == 65278
    ensures Contains(NewNetwork(i), AddrOctets(v)) ==> Contains(IPNet(0x6440_0000, 10), AddrOctets(v))
    ensures Contains(NewNetwork(i), AddrOctets(v)) && Contains(NewNetwork(j), AddrOctets(v)) ==> i == j
  {
    NewNetworkBlock(i, v);
    NewNetworkBlock(j, v);
    SharedBlock(v);
  }

  // ----- an address that is free in a new network -----

  lemma UsableInNewNetwork(v: Addr, exclusions: set<Addr>)
    requires 0x6440_0000 < v < 0x6441_0000 && v % 256 != 0 && v !in exclusions
    ensures NewNetwork(0).Valid() && Usable(NewNetwork(0), v, exclusions)
  {
    hide Contains, IPNet.Base, IPNet.Size;
    NewNetworkBlock(0, v);
    ContainsIsBlockMembership(NewNetwork(0), AddrOctets(v));
  }

  lemma FreeInNewNetwork(taken: set<Addr>)
    requires 0x6440_0010 !in taken && 0x6440_0011 !in taken && 0x6440_0012 !in taken
    ensures NewNetwork(0).Valid() && 0x6440_0011 in FreeIps(NewNetwork(0), taken)
  {
    hide FreeIps, Usable;
    var all := taken + {NewNetwork(0).ip};
    UsableInNewNetwork(0x6440_0010, all);
    UsableInNewNetwork(0x6440_0011, all);
    UsableInNewNetwork(0x6440_0012, all);
    FreeBetween(NewNetwork(0), taken, 0x6440_0010, 0x6440_0011, 0x6440_0012);
  }

  lemma FreeBetween(n: IPNet, taken: set<Addr>, u: Addr, v: Addr, w: Addr)
    requires n.Valid() && u < v < w
    requires var all := taken + {n.ip}; Usable(n, u, all) && Usable(n, v, all) && Usable(n, w, all)
    ensures v in FreeIps(n, taken)
  {
    hide Usable, Pool;
    GeneratedExactly(n, taken + {n.ip});
  }
}
