/** IPv4 addresses as the byte arrays that `net.IP` holds, and as the numbers those bytes denote.
    The allocator of management/server/network.go steps an address in place, byte by byte with a
    carry, and tests it against a network octet by octet. Everything proved about the allocator is
    stated on numbers; the lemmas here are the bridge. */
module IpArithmetic {

  type byte = x: int | 0 <= x < 256

  function Pow2(n: nat): (r: nat)
    ensures r >= 1
  {
    if n == 0 then 1 else 2 * Pow2(n - 1)
  }

  function Pow256(n: nat): (r: nat)
    ensures r >= 1
  {
    if n == 0 then 1 else 256 * Pow256(n - 1)
  }

  /** The number a big-endian byte string denotes. */
  function Value(s: seq<byte>): (v: nat)
    ensures v < Pow256(|s|)
  {
    if s == [] then 0 else Value(s[..|s| - 1]) * 256 + s[|s| - 1]
  }

  /** The `n`-byte big-endian form of a number; the inverse of Value. */
  function Octets(v: nat, n: nat): (s: seq<byte>)
    requires v < Pow256(n)
    ensures |s| == n
    ensures Value(s) == v
  {
    if n == 0 then []
    else
      var init := Octets(v / 256, n - 1);
      assert (init + [v % 256])[..n - 1] == init;
      init + [v % 256]
  }

  lemma {:induction false} ValueInjective(s: seq<byte>, t: seq<byte>)
    requires |s| == |t| && Value(s) == Value(t)
    ensures s == t
  {
    if s != [] {
      var n := |s|;
      assert Value(s) == Value(s[..n - 1]) * 256 + s[n - 1];
      assert Value(t) == Value(t[..n - 1]) * 256 + t[n - 1];
      ValueInjective(s[..n - 1], t[..n - 1]);
      assert s == s[..n - 1] + [s[n - 1]];
      assert t == t[..n - 1] + [t[n - 1]];
    }
  }

  lemma {:induction false} AllMaxValue(s: seq<byte>)
    requires forall i :: 0 <= i < |s| ==> s[i] == 255
    ensures Value(s) == Pow256(|s|) - 1
  {
    if s != [] { AllMaxValue(s[..|s| - 1]); }
  }

  lemma {:induction false} AllZeroValue(s: seq<byte>)
    requires forall i :: 0 <= i < |s| ==> s[i] == 0
    ensures Value(s) == 0
  {
    if s != [] { AllZeroValue(s[..|s| - 1]); }
  }

  lemma {:induction false} ValueConcat(s: seq<byte>, t: seq<byte>)
    ensures Value(s + t) == Value(s) * Pow256(|t|) + Value(t)
  {
    if t == [] {
      assert s + t == s;
    } else {
      var n := |t|;
      assert (s + t)[..|s + t| - 1] == s + t[..n - 1];
      ValueConcat(s, t[..n - 1]);
      Regroup(Value(s), Pow256(n - 1), Value(t[..n - 1]), t[n - 1]);
    }
  }

  lemma Regroup(a: nat, p: nat, b: nat, d: nat)
    ensures (a * p + b) * 256 + d == a * (256 * p) + (b * 256 + d)
  {
  }

  /** `incIP`: the carry loop adds one modulo 256^n, in place. */
  method IncIP(ip: array<byte>)
    modifies ip
    ensures Value(ip[..]) == (Value(old(ip[..])) + 1) % Pow256(ip.Length)
  {
    ghost var n := ip.Length;
    ghost var was := ip[..];
    var j := ip.Length - 1;
    while j >= 0
      invariant -1 <= j < n
      invariant forall i :: 0 <= i <= j ==> ip[i] == was[i]
      invariant forall i :: j < i < n ==> was[i] == 255 && ip[i] == 0
    {
      var octet: int := ip[j];
      ip[j] := (octet + 1) % 256;
      if ip[j] > 0 {
        CarryStops(was, ip[..], j);
        return;
      }
      j := j - 1;
    }
    AllMaxValue(was);
    AllZeroValue(ip[..]);
  }

  lemma SplitAt(s: seq<byte>, j: nat)
    requires j <= |s|
    ensures Value(s) == Value(s[..j]) * Pow256(|s| - j) + Value(s[j..])
  {
    assert s == s[..j] + s[j..];
    ValueConcat(s[..j], s[j..]);
  }

  lemma LastOctet(s: seq<byte>, j: nat)
    requires j < |s|
    ensures Value(s[..j + 1]) == Value(s[..j]) * 256 + s[j]
  {
    assert s[..j + 1][..j] == s[..j];
  }

  /** The byte at `j` was below 255, everything after it was 255 and is now 0: one was added. */
  lemma CarryStops(was: seq<byte>, now: seq<byte>, j: nat)
    requires |was| == |now| && j < |was|
    requires was[..j] == now[..j] && was[j] < 255 && now[j] == was[j] + 1
    requires forall i :: j < i < |was| ==> was[i] == 255 && now[i] == 0
    ensures Value(now) == (Value(was) + 1) % Pow256(|was|)
  {
    hide Value, Pow256;
    var w, n := was[..j + 1], now[..j + 1];
    CarryTail(was, now, j);
    LastOctet(was, j);
    LastOctet(now, j);
    CarryArithmetic(Value(w), Pow256(|was| - (j + 1)), Value(was), Value(now), Pow256(|was|));
  }

  lemma CarryTail(was: seq<byte>, now: seq<byte>, j: nat)
    requires |was| == |now| && j < |was|
    requires forall i :: j < i < |was| ==> was[i] == 255 && now[i] == 0
    ensures Value(was) == Value(was[..j + 1]) * Pow256(|was| - (j + 1)) + (Pow256(|was| - (j + 1)) - 1)
    ensures Value(now) == Value(now[..j + 1]) * Pow256(|was| - (j + 1))
  {
    hide Value, Pow256;
    AllMaxValue(was[j + 1..]);
    AllZeroValue(now[j + 1..]);
    SplitAt(was, j + 1);
    SplitAt(now, j + 1);
  }

  lemma CarryArithmetic(head: nat, p: nat, x: nat, y: nat, total: nat)
    requires p >= 1 && x == head * p + (p - 1) && y == (head + 1) * p && y < total
    ensures y == (x + 1) % total
  {
    MulDist(p, head, 1);
    ModUnique(y, total, 0, y);
  }

  lemma MulDist(m: int, a: int, b: int)
    ensures m * (a + b) == m * a + m * b
  {
  }

  lemma MulAssoc(a: int, b: int, c: int)
    ensures a * (b * c) == (a * b) * c
  {
  }

  // ----- masks -----

  /** `net.IP.Mask` for the CIDR mask with `prefix` leading ones: octets under the ones are kept,
      the boundary octet keeps its high bits, the rest are cleared. */
  function Mask(s: seq<byte>, prefix: nat): (r: seq<byte>)
    ensures |r| == |s|
  {
    var n := |s|;
    if n == 0 || prefix >= 8 * n then s
    else if prefix <= 8 * (n - 1) then Mask(s[..n - 1], prefix) + [0]
    else s[..n - 1] + [ClearLow(s[n - 1], 8 * n - prefix)]
  }

  /** An octet with its `k` low bits cleared. */
  function ClearLow(b: byte, k: nat): (r: byte)
  {
    var low := b as int % Pow2(k);
    ModBelow(b, Pow2(k));
    b - low
  }

  lemma ModBelow(x: nat, m: nat)
    requires m >= 1
    ensures 0 <= x % m <= x && x % m < m
  {
    if x < m { ModUnique(x, m, 0, x); }
  }

  lemma ScaledMod(a: nat, d: nat, m: nat)
    requires d < 256 && m >= 1
    ensures (256 * a + d) % (256 * m) == 256 * (a % m) + d
  {
    var q, r := a / m, a % m;
    MulAssoc(256, m, q);
    ModUnique(256 * a + d, 256 * m, q, 256 * r + d);
  }

  lemma ModUnique(x: nat, m: nat, q: nat, r: nat)
    requires m >= 1 && r < m && x == m * q + r
    ensures x % m == r && x / m == q
  {
    QuotientUnique(m, q, r, x / m, x % m);
  }

  lemma QuotientUnique(m: nat, q: nat, r: nat, q': int, r': int)
    requires r < m && 0 <= r' < m && m * q + r == m * q' + r'
    ensures q == q' && r == r'
  {
    assert m * (q - q') == r' - r;
    if q != q' {
      MulAtLeast(m, if q > q' then q - q' else q' - q);
    }
  }

  lemma MulAtLeast(m: nat, k: nat)
    requires k >= 1
    ensures m * k >= m
  {
  }

  lemma {:induction false} Pow2Pow256(k: nat)
    ensures Pow2(8 * k) == Pow256(k)
  {
    if k > 0 {
      Pow2Pow256(k - 1);
      Pow2Byte(8 * k - 8);
      assert 8 * (k - 1) == 8 * k - 8;
    }
  }

  lemma Pow2Byte(k: nat)
    ensures Pow2(k + 8) == 256 * Pow2(k)
  {
    assert Pow2(k + 8) == 2 * Pow2(k + 7);
    assert Pow2(k + 7) == 2 * Pow2(k + 6);
    assert Pow2(k + 6) == 2 * Pow2(k + 5);
    assert Pow2(k + 5) == 2 * Pow2(k + 4);
    assert Pow2(k + 4) == 2 * Pow2(k + 3);
    assert Pow2(k + 3) == 2 * Pow2(k + 2);
    assert Pow2(k + 2) == 2 * Pow2(k + 1);
  }

  lemma {:induction false} Pow2Factor(j: nat, k: nat)
    ensures Pow2(j + k) == Pow2(j) * Pow2(k)
  {
    if k > 0 {
      Pow2Factor(j, k - 1);
      assert Pow2(j + k) == 2 * Pow2(j + (k - 1));
    }
  }

  lemma Pow2Complement(k: nat)
    requires k <= 8
    ensures Pow2(k) * Pow2(8 - k) == 256
  {
    Pow2Factor(k, 8 - k);
    Pow2Byte(0);
    assert Pow2(0) == 1;
  }

  lemma WholeOctetCleared(rest: seq<byte>, d: byte, masked: seq<byte>, k: nat)
    requires Value(masked) == Value(rest) - Value(rest) % Pow2(k)
    ensures Value(masked + [0]) == Value(rest + [d]) - Value(rest + [d]) % Pow2(k + 8)
  {
    assert (masked + [0])[..|masked|] == masked && (rest + [d])[..|rest|] == rest;
    Pow2Byte(k);
    ScaledMod(Value(rest), d, Pow2(k));
  }

  lemma BoundaryOctet(rest: seq<byte>, d: byte, k: nat)
    requires 1 <= k <= 8
    ensures Value(rest + [ClearLow(d, k)]) == Value(rest + [d]) - Value(rest + [d]) % Pow2(k)
  {
    assert (rest + [ClearLow(d, k)])[..|rest|] == rest && (rest + [d])[..|rest|] == rest;
    Pow2Complement(k);
    DividesByte(Value(rest), d, Pow2(k), Pow2(8 - k));
  }

  /** Masking rounds the number down to a multiple of the block size. */
  lemma {:induction false} MaskRoundsDown(s: seq<byte>, prefix: nat)
    requires prefix <= 8 * |s|
    ensures Value(Mask(s, prefix)) == Value(s) - Value(s) % Pow2(8 * |s| - prefix)
  {
    var n := |s|;
    if prefix == 8 * n {
      assert Pow2(0) == 1;
    } else {
      var d, rest := s[n - 1], s[..n - 1];
      assert s == rest + [d];
      if prefix <= 8 * (n - 1) {
        MaskRoundsDown(rest, prefix);
        WholeOctetCleared(rest, d, Mask(rest, prefix), 8 * (n - 1) - prefix);
      } else {
        BoundaryOctet(rest, d, 8 * n - prefix);
      }
    }
  }

  lemma DividesByte(a: nat, d: nat, m: nat, c: nat)
    requires m >= 1 && m * c == 256
    ensures (256 * a + d) % m == d % m
  {
    ModBelow(d, m);
    var q, r := d / m, d % m;
    DivMod(d, m);
    MulDist(m, c * a, q);
    MulAssoc(m, c, a);
    TimesByte(m, c, a);
    ModUnique(256 * a + d, m, c * a + q, r);
  }

  lemma DivMod(d: nat, m: nat)
    requires m >= 1
    ensures d == m * (d / m) + d % m
  {
  }

  lemma TimesByte(m: nat, c: nat, a: nat)
    requires m * c == 256
    ensures (m * c) * a == 256 * a
  {
  }
}
