/**
 * The agent's configuration (src/config.rs): `interface=subdomain`
 * arguments, which interface addresses count as public, and the desired
 * (name, addresses) pairs that one reconciliation pass works through.
 */
module Config {
  import opened Wrappers
  import opened Net

  /** One `--interface` argument: an interface name and an optional subdomain. */
  datatype InterfaceSubdomain = InterfaceSubdomain(interface: string, subdomain: Option<string>)

  /** An address entry of an interface; `addr` is the IP of its socket address, if it has one. */
  datatype Address = Address(addr: Option<IpAddr>)

  /** Position of the first `c` in `s`. */
  function FirstIndexOf(s: string, c: char): (r: Option<nat>)
    ensures r.Some? ==> r.value < |s| && s[r.value] == c && c !in s[..r.value]
    ensures r.None? <==> c !in s
  {
    if s == [] then None
    else if s[0] == c then Some(0)
    else
      match FirstIndexOf(s[1..], c)
      case None => None
      case Some(i) => Some(i + 1)
  }

  /** Rust's `str::split_once`: the parts before and after the first `c`. */
  function SplitOnce(s: string, c: char): (r: Option<(string, string)>)
    ensures r.None? <==> c !in s
    ensures r.Some? ==> s == r.value.0 + [c] + r.value.1 && c !in r.value.0
  {
    match FirstIndexOf(s, c)
    case None => None
    case Some(i) =>
      assert s == s[..i] + [c] + s[i + 1..];
      Some((s[..i], s[i + 1..]))
  }

  /**
   * Parses `eth0=home` or `eth0`. The split is at the first `=`: the
   * interface never contains `=`, the subdomain is everything after it (it may
   * be empty or contain further `=`). Parsing never fails.
   */
  function FromStr(s: string): (r: Result<InterfaceSubdomain, string>)
    ensures r.Ok?
    ensures '=' !in s ==> r.value == InterfaceSubdomain(s, None)
    ensures '=' in s ==>
      && '=' !in r.value.interface
      && r.value.subdomain.Some?
      && s == r.value.interface + "=" + r.value.subdomain.value
  {
    match SplitOnce(s, '=')
    case Some((interface, subdomain)) =>
      assert s == s[..|interface|] + "=" + s[|interface| + 1..];
      Ok(InterfaceSubdomain(interface, Some(subdomain)))
    case None => Ok(InterfaceSubdomain(s, None))
  }

  /** The command-line spelling of an argument. */
  function Spelling(d: InterfaceSubdomain): string {
    match d.subdomain
    case Some(sub) => d.interface + "=" + sub
    case None => d.interface
  }

  /** Every argument whose interface has no `=` is read back from its spelling. */
  lemma FromStrSpelling(d: InterfaceSubdomain)
    requires '=' !in d.interface
    ensures FromStr(Spelling(d)) == Ok(d)
  {
    var s := Spelling(d);
    match d.subdomain
    case Some(sub) =>
      assert s[|d.interface|] == '=';
      var r := FromStr(s).value;
      assert '=' in s;
      SplitPrefixUnique(d.interface, sub, r.interface, r.subdomain.value);
    case None =>
  }

  lemma SplitPrefixUnique(x: string, y: string, x': string, y': string)
    requires '=' !in x && '=' !in x'
    requires x + "=" + y == x' + "=" + y'
    ensures x == x' && y == y'
  {
    SplitAtSeparator(x, y, x', y', '=');
  }

  // ---------------------------------------------------------------------
  // Public addresses.

  /** RFC 1918 section 3 blocks, as Rust's `Ipv4Addr::is_private` tests them. */
  function IsPrivate(o: Octets4): (r: bool)
    ensures r <==>
      || InPrefix(o, [10, 0, 0, 0], 8)
      || InPrefix(o, [172, 16, 0, 0], 12)
      || InPrefix(o, [192, 168, 0, 0], 16)
  {
    OneBytePrefix(o, 10);
    Prefix172(o);
    TwoBytePrefix(o, 192, 168);
    || o[0] == 10
    || (o[0] == 172 && 16 <= o[1] <= 31)
    || (o[0] == 192 && o[1] == 168)
  }

  /** 169.254.0.0/16 (RFC 3927), as `Ipv4Addr::is_link_local` tests it. */
  function IsLinkLocal(o: Octets4): (r: bool)
    ensures r <==> InPrefix(o, [169, 254, 0, 0], 16)
  {
    TwoBytePrefix(o, 169, 254);
    o[0] == 169 && o[1] == 254
  }

  /** 127.0.0.0/8, as `Ipv4Addr::is_loopback` tests it. */
  function IsLoopback(o: Octets4): (r: bool)
    ensures r <==> InPrefix(o, [127, 0, 0, 0], 8)
  {
    OneBytePrefix(o, 127);
    o[0] == 127
  }

  /** The IPv6 global unicast block 2000::/3 (RFC 4291 section 2.4). */
  const GlobalUnicastNet: Octets16 := [0x20, 0, 0, 0, 0, 0, 0, 0, 0, 0, 0, 0, 0, 0, 0, 0]
  const GlobalUnicastLen: nat := 3

  /**
   * The filter of `is_public`: an IPv4 address outside the private,
   * link-local and loopback networks, or an IPv6 address in 2000::/3, that
   * is, one whose first byte is in [0x20, 0x40).
   */
  function IsPublicIp(ip: IpAddr): (r: bool)
    ensures ip.V4? ==> (r <==>
      && !InPrefix(ip.octets4, [10, 0, 0, 0], 8)
      && !InPrefix(ip.octets4, [172, 16, 0, 0], 12)
      && !InPrefix(ip.octets4, [192, 168, 0, 0], 16)
      && !InPrefix(ip.octets4, [169, 254, 0, 0], 16)
      && !InPrefix(ip.octets4, [127, 0, 0, 0], 8))
    ensures ip.V6? ==> (r <==> 0x20 <= ip.octets16[0] < 0x40)
  {
    match ip
    case V4(o) => !IsPrivate(o) && !IsLinkLocal(o) && !IsLoopback(o)
    case V6(o) =>
      GlobalUnicastTopBits(o);
      InPrefix(o, GlobalUnicastNet, GlobalUnicastLen)
  }

  /** `is_public`: the entry's IP when it has one and it is public. */
  function IsPublic(a: Address): (r: Option<IpAddr>)
    ensures r.Some? <==> a.addr.Some? && IsPublicIp(a.addr.value)
    ensures r.Some? ==> r.value == a.addr.value
  {
    match a.addr
    case None => None
    case Some(ip) => if IsPublicIp(ip) then Some(ip) else None
  }

  /** `public_ips`: the public addresses of an interface, in their order. */
  function PublicIps(addrs: seq<Address>): (r: seq<IpAddr>)
    ensures |r| <= |addrs|
    ensures forall i :: 0 <= i < |r| ==> IsPublicIp(r[i])
  {
    if addrs == [] then []
    else
      match IsPublic(addrs[0])
      case Some(ip) => [ip] + PublicIps(addrs[1..])
      case None => PublicIps(addrs[1..])
  }

  /** The filter keeps the order of the interface's list. */
  lemma {:induction false} PublicIpsAppend(a: seq<Address>, b: seq<Address>)
    ensures PublicIps(a + b) == PublicIps(a) + PublicIps(b)
    decreases |a|
  {
    if a != [] {
      assert (a + b)[1..] == a[1..] + b;
      PublicIpsAppend(a[1..], b);
    } else {
      assert a + b == b;
    }
  }

  /** An address is kept exactly when some entry carries it and it is public. */
  lemma {:induction false} PublicIpsMembership(addrs: seq<Address>, ip: IpAddr)
    ensures ip in PublicIps(addrs) <==>
      IsPublicIp(ip) && exists i :: 0 <= i < |addrs| && addrs[i].addr == Some(ip)
    decreases |addrs|
  {
    if addrs != [] {
      PublicIpsMembership(addrs[1..], ip);
      if exists i :: 0 <= i < |addrs| && addrs[i].addr == Some(ip) {
        var i :| 0 <= i < |addrs| && addrs[i].addr == Some(ip);
        if i > 0 {
          assert addrs[1..][i - 1].addr == Some(ip);
        }
      }
      if exists i :: 0 <= i < |addrs[1..]| && addrs[1..][i].addr == Some(ip) {
        var i :| 0 <= i < |addrs[1..]| && addrs[1..][i].addr == Some(ip);
        assert addrs[i + 1].addr == Some(ip);
      }
    }
  }

  lemma OneBytePrefix(o: Octets4, a: Byte)
    ensures InPrefix(o, [a, 0, 0, 0], 8) <==> o[0] == a
  {
    var net: seq<Byte> := [a, 0, 0, 0];
    PrefixOfLeadingBytes(o, 1, 8);
    PrefixOfLeadingBytes(net, 1, 8);
    assert o[..1] == [o[0]] && net[..1] == [a];
    assert BigEndian([o[0]]) == o[0] by { assert [o[0]][..0] == []; }
    assert BigEndian([a]) == a by { assert [a][..0] == []; }
  }

  lemma BigEndianPair(x: Byte, y: Byte)
    ensures BigEndian([x, y]) == x as int * 256 + y as int
  {
    assert [x, y][..1] == [x];
    assert [x][..0] == [];
    assert BigEndian([x]) == x;
  }

  lemma PairInjective(x: Byte, y: Byte, x': Byte, y': Byte)
    requires x as int * 256 + y as int == x' as int * 256 + y' as int
    ensures x == x' && y == y'
  {
    DivUnique(x as int * 256 + y as int, 256, x, y);
    DivUnique(x' as int * 256 + y' as int, 256, x', y');
  }

  /** The value of a 4-byte address above its low `32 - len` bits, for `len` of 16 or less. */
  lemma TopTwoBytes(o: Octets4, len: nat)
    requires len <= 16
    ensures BigEndian(o) / Pow2(32 - len) == (o[0] as int * 256 + o[1] as int) / Pow2(16 - len)
    ensures len == 16 ==> BigEndian(o) / Pow2(16) == o[0] as int * 256 + o[1] as int
  {
    PrefixOfLeadingBytes(o, 2, len);
    assert o[..2] == [o[0], o[1]];
    BigEndianPair(o[0], o[1]);
    if len == 16 {
      var v := o[0] as int * 256 + o[1] as int;
      assert Pow2(16 - len) == 1;
      assert v / 1 == v;
    }
  }

  lemma TwoBytePrefix(o: Octets4, a: Byte, b: Byte)
    ensures InPrefix(o, [a, b, 0, 0], 16) <==> o[0] == a && o[1] == b
  {
    var net: Octets4 := [a, b, 0, 0];
    TopTwoBytes(o, 16);
    TopTwoBytes(net, 16);
    if o[0] as int * 256 + o[1] as int == a as int * 256 + b as int {
      PairInjective(o[0], o[1], a, b);
    }
  }

  lemma Prefix172(o: Octets4)
    ensures InPrefix(o, [172, 16, 0, 0], 12) <==> o[0] == 172 && 16 <= o[1] <= 31
  {
    var net: Octets4 := [172, 16, 0, 0];
    TopTwoBytes(o, 12);
    TopTwoBytes(net, 12);
    assert Pow2(4) == 16;
    var v := o[0] as int * 256 + o[1] as int;
    DivUnique(v, 16, o[0] as int * 16 + o[1] as int / 16, o[1] as int % 16);
    DivUnique(172 * 256 + 16, 16, 2753, 0);
    if o[0] as int * 16 + o[1] as int / 16 == 2753 {
      DivUnique(2753, 16, o[0], o[1] as int / 16);
    }
  }

  /** An IPv6 address is in 2000::/3 iff its top three bits are 001. */
  lemma GlobalUnicastTopBits(o: Octets16)
    ensures InPrefix(o, GlobalUnicastNet, GlobalUnicastLen) <==> 0x20 <= o[0] < 0x40
  {
    PrefixOfLeadingBytes(o, 1, 3);
    PrefixOfLeadingBytes(GlobalUnicastNet, 1, 3);
    assert o[..1] == [o[0]] && GlobalUnicastNet[..1] == [0x20];
    assert BigEndian([o[0]]) == o[0] by { assert [o[0]][..0] == []; }
    assert BigEndian([0x20]) == 0x20 by { assert [0x20][..0] == []; }
    assert Pow2(5) == 32;
  }

  const SharedSpace: Octets4 := [100, 64, 0, 1]
  const Documentation: Octets4 := [203, 0, 113, 5]
  const Unspecified: Octets4 := [0, 0, 0, 0]
  const Past172: Octets4 := [172, 32, 0, 1]
  const Last172: Octets4 := [172, 31, 255, 255]

  /**
   * Special ranges other than the three the source excludes are accepted: a
   * shared-space, a documentation and the unspecified address, and the
   * address just past 172.16.0.0/12; the last address of that block is not.
   */
  lemma OtherSpecialRangesArePublic()
    ensures IsPublicIp(V4(SharedSpace))
    ensures IsPublicIp(V4(Documentation))
    ensures IsPublicIp(V4(Unspecified))
    ensures IsPublicIp(V4(Past172))
    ensures !IsPublicIp(V4(Last172))
  {
    assert IsPublicIp(V4(SharedSpace)) by { FilterByBytes(SharedSpace); }
    assert IsPublicIp(V4(Documentation)) by { FilterByBytes(Documentation); }
    assert IsPublicIp(V4(Unspecified)) by { FilterByBytes(Unspecified); }
    assert IsPublicIp(V4(Past172)) by { FilterByBytes(Past172); }
    assert !IsPublicIp(V4(Last172)) by { FilterByBytes(Last172); }
  }

  /** The IPv4 filter read directly on the first two bytes. */
  lemma FilterByBytes(o: Octets4)
    ensures IsPublicIp(V4(o)) <==>
      !(o[0] == 10 || (o[0] == 172 && 16 <= o[1] <= 31) || (o[0] == 192 && o[1] == 168)
        || (o[0] == 169 && o[1] == 254) || o[0] == 127)
  {
  }

  /** A lookup result: the public addresses, or none when the interface is missing. */
  function AddressesOf(interface: string, lookup: string -> Option<seq<Address>>): (r: seq<IpAddr>)
    ensures lookup(interface).None? ==> r == []
    ensures lookup(interface).Some? ==> |r| <= |lookup(interface).value|
    ensures forall i :: 0 <= i < |r| ==> IsPublicIp(r[i])
  {
    match lookup(interface)
    case Some(addrs) => PublicIps(addrs)
    case None => []
  }

  /**
   * `Config::domains`: one (name, public addresses) pair per argument, in
   * argument order; a missing subdomain is the apex name "", and an interface
   * that cannot be found has no addresses.
   */
  function Domains(entries: seq<InterfaceSubdomain>, lookup: string -> Option<seq<Address>>)
    : (r: seq<(string, seq<IpAddr>)>)
    ensures |r| == |entries|
    ensures forall i :: 0 <= i < |r| ==>
      && r[i].0 == (if entries[i].subdomain.Some? then entries[i].subdomain.value else "")
      && (lookup(entries[i].interface).None? ==> r[i].1 == [])
      && (lookup(entries[i].interface).Some? ==> r[i].1 == PublicIps(lookup(entries[i].interface).value))
  {
    seq(|entries|, i requires 0 <= i < |entries| =>
      (entries[i].subdomain.GetOr(""), AddressesOf(entries[i].interface, lookup)))
  }

  /** An argument without `=` publishes its interface's addresses at the apex. */
  lemma BareInterfaceIsApex(s: string, lookup: string -> Option<seq<Address>>)
    requires '=' !in s
    ensures Domains([FromStr(s).value], lookup) == [("", AddressesOf(s, lookup))]
  {
  }
}
