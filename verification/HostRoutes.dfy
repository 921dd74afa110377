/** Addresses in text: the host routes and interface addresses that management/server/grpcserver.go sends, and
    how the other side reads them (`net.ParseCIDR`, on IPv4). */
module HostRoutes {
  import opened IpAllocation
  import opened Model
  import opened Strings

  // ----- writing -----

  /** The decimal digits of a number. */
  function Decimal(n: nat): string {
    if n < 10 then [(n + '0' as int) as char] else Decimal(n / 10) + [(n % 10 + '0' as int) as char]
  }

  /** The dotted form of an address. */
  function Dotted(a: Addr): string {
    Decimal(a / 0x100_0000) + "." + Decimal(a / 0x1_0000 % 256) + "." + Decimal(a / 0x100 % 256) + "." +
      Decimal(a % 256)
  }

  /** AllowedIPsFormat: the address alone. */
  function HostRoute(a: Addr): string {
    Dotted(a) + "/32"
  }

  /** `toPeerConfig`: a peer's own address, with the prefix of the networks that are generated. */
  function InterfaceAddress(a: Addr): string {
    Dotted(a) + "/16"
  }

  // ----- reading -----

  predicate IsDigit(c: char) {
    '0' <= c <= '9'
  }

  /** The number that decimal digits spell. */
  function Spelled(s: string): nat
    requires forall c :: c in s ==> IsDigit(c)
  {
    if s == "" then 0
    else
      assert IsDigit(s[|s| - 1]);
      Spelled(s[..|s| - 1]) * 10 + (s[|s| - 1] as int - '0' as int)
  }

  predicate IsNumber(s: string) {
    s != "" && forall c :: c in s ==> IsDigit(c)
  }

  /** An octet: a number of at most 255. */
  predicate IsOctet(s: string) {
    IsNumber(s) && Spelled(s) < 256
  }

  function ParseAddr(s: string): Result<Addr> {
    var parts := Split(s, '.');
    if |parts| == 4 && IsOctet(parts[0]) && IsOctet(parts[1]) && IsOctet(parts[2]) && IsOctet(parts[3])
    then Ok(((Spelled(parts[0]) * 256 + Spelled(parts[1])) * 256 + Spelled(parts[2])) * 256 + Spelled(parts[3]))
    else Err(Plain)
  }

  /** The address as written and the length of its prefix. */
  function ParseCidr(s: string): Result<IPNet> {
    var parts := Split(s, '/');
    if |parts| == 2 && ParseAddr(parts[0]).Ok? && IsNumber(parts[1]) && Spelled(parts[1]) <= 32
    then Ok(IPNet(ParseAddr(parts[0]).value, Spelled(parts[1])))
    else Err(Plain)
  }

  // ----- reading what was written -----

  lemma {:induction false} DecimalIsSpelled(n: nat)
    ensures IsNumber(Decimal(n)) && Spelled(Decimal(n)) == n
  {
    if n >= 10 {
      DecimalIsSpelled(n / 10);
      var d := Decimal(n / 10) + [(n % 10 + '0' as int) as char];
      assert d[..|d| - 1] == Decimal(n / 10);
    } else {
      var d := Decimal(n);
      assert d[..0] == "" && Spelled(d[..0]) == 0;
    }
  }

  lemma NumberHasNone(s: string, sep: char)
    requires IsNumber(s) && !IsDigit(sep)
    ensures sep !in s
  {
  }

  /** The four octets, and no slash among them. */
  lemma DottedParts(a: string, b: string, c: string, d: string)
    requires IsNumber(a) && IsNumber(b) && IsNumber(c) && IsNumber(d)
    ensures Split(a + "." + b + "." + c + "." + d, '.') == [a, b, c, d]
    ensures '/' !in a + "." + b + "." + c + "." + d
  {
    hide Split, IsNumber;
    NumberHasNone(a, '.'); NumberHasNone(b, '.'); NumberHasNone(c, '.'); NumberHasNone(d, '.');
    NumberHasNone(a, '/'); NumberHasNone(b, '/'); NumberHasNone(c, '/'); NumberHasNone(d, '/');
    assert a + "." + b + "." + c + "." + d == a + ['.'] + (b + ['.'] + (c + ['.'] + d));
    SplitAtFirst(a, b + ['.'] + (c + ['.'] + d), '.');
    SplitAtFirst(b, c + ['.'] + d, '.');
    SplitAtFirst(c, d, '.');
    SplitWhole(d, '.');
  }

  lemma OctetsOf(a: Addr)
    ensures var b0, b1, b2, b3 := a / 0x100_0000, a / 0x1_0000 % 256, a / 0x100 % 256, a % 256;
      b0 < 256 && ((b0 * 256 + b1) * 256 + b2) * 256 + b3 == a
  {
    assert a / 0x100_0000 == a / 0x1_0000 / 256 && a / 0x1_0000 == a / 0x100 / 256;
  }

  /** The dotted form of an address reads back as the address. */
  lemma DottedReadsBack(a: Addr)
    ensures ParseAddr(Dotted(a)) == Ok(a) && '/' !in Dotted(a)
  {
    hide Decimal, Split, IsNumber, Spelled;
    var b0, b1, b2, b3 := a / 0x100_0000, a / 0x1_0000 % 256, a / 0x100 % 256, a % 256;
    OctetsOf(a);
    DecimalIsSpelled(b0);
    DecimalIsSpelled(b1);
    DecimalIsSpelled(b2);
    DecimalIsSpelled(b3);
    DottedParts(Decimal(b0), Decimal(b1), Decimal(b2), Decimal(b3));
  }

  lemma CidrReadsBack(text: string, a: Addr, length: string)
    requires ParseAddr(text) == Ok(a) && '/' !in text && IsNumber(length) && Spelled(length) <= 32
    ensures ParseCidr(text + "/" + length) == Ok(IPNet(a, Spelled(length)))
  {
    hide Split, IsNumber, Spelled, ParseAddr;
    NumberHasNone(length, '/');
    assert text + "/" + length == text + ['/'] + length;
    SplitAtFirst(text, length, '/');
    SplitWhole(length, '/');
  }

  lemma Lengths()
    ensures IsNumber("32") && Spelled("32") == 32 && IsNumber("16") && Spelled("16") == 16
  {
    assert "32"[..1] == "3" && "3"[..0] == "" && "16"[..1] == "1" && "1"[..0] == "";
    assert Spelled("") == 0 && Spelled("3") == 3 && Spelled("1") == 1;
  }

  /** Every host route reads back as the address it was written for, and that address alone. */
  lemma HostRouteReadsBack(a: Addr)
    ensures ParseCidr(HostRoute(a)) == Ok(IPNet(a, 32))
  {
    hide Dotted, ParseCidr, ParseAddr, IsNumber, Spelled;
    DottedReadsBack(a);
    Lengths();
    CidrReadsBack(Dotted(a), a, "32");
    assert Dotted(a) + "/" + "32" == Dotted(a) + "/32";
  }

  /** And so does the address that a peer is given for itself. */
  lemma InterfaceAddressReadsBack(a: Addr)
    ensures ParseCidr(InterfaceAddress(a)) == Ok(IPNet(a, 16))
  {
    hide Dotted, ParseCidr, ParseAddr, IsNumber, Spelled;
    DottedReadsBack(a);
    Lengths();
    CidrReadsBack(Dotted(a), a, "16");
    assert Dotted(a) + "/" + "16" == Dotted(a) + "/16";
  }
}
