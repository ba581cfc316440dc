/**
 * IP addresses as Rust's `std::net::IpAddr` holds them (octets in network
 * order), their text form (`IpAddr::to_string`), and an independent
 * definition of CIDR prefix membership on the address value.
 */
module Net {
  import opened Numerals

  type Byte = b: int | 0 <= b < 256
  type Octets4 = s: seq<Byte> | |s| == 4 witness [0, 0, 0, 0]
  type Octets16 = s: seq<Byte> | |s| == 16 witness seq(16, _ => 0)

  datatype IpAddr = V4(octets4: Octets4) | V6(octets16: Octets16)

  // ---------------------------------------------------------------------
  // Prefix membership, stated on the address as one big-endian number.

  function Pow2(k: nat): (r: nat)
    ensures r >= 1
  {
    if k == 0 then 1 else 2 * Pow2(k - 1)
  }

  /** The unsigned number whose big-endian bytes are `s`. */
  function BigEndian(s: seq<Byte>): nat {
    if s == [] then 0 else BigEndian(s[..|s| - 1]) * 256 + s[|s| - 1]
  }

  /**
   * `addr` lies in the network `net/len`: the two agree on their top `len`
   * bits (what a CIDR `contains` test decides).
   */
  predicate InPrefix(addr: seq<Byte>, net: seq<Byte>, len: nat)
    requires |addr| == |net| && len <= 8 * |addr|
  {
    var shift := Pow2(8 * |addr| - len);
    BigEndian(addr) / shift == BigEndian(net) / shift
  }

  lemma {:induction false} Pow2Add(a: nat, b: nat)
    ensures Pow2(a + b) == Pow2(a) * Pow2(b)
    decreases a
  {
    if a > 0 {
      Pow2Add(a - 1, b);
    }
  }

  lemma {:induction false} BigEndianBound(s: seq<Byte>)
    ensures BigEndian(s) < Pow2(8 * |s|)
    decreases |s|
  {
    if s != [] {
      var t := s[..|s| - 1];
      BigEndianBound(t);
      Pow2Add(8 * |t|, 8);
      assert Pow2(8) == 256;
      assert BigEndian(s) <= (Pow2(8 * |t|) - 1) * 256 + 255;
    }
  }

  /** A byte string's value splits into that of a prefix and that of the rest. */
  lemma {:induction false} BigEndianSplit(s: seq<Byte>, k: nat)
    requires k <= |s|
    ensures BigEndian(s) == BigEndian(s[..k]) * Pow2(8 * (|s| - k)) + BigEndian(s[k..])
    decreases |s| - k
  {
    if k == |s| {
      assert s[..k] == s;
      assert s[k..] == [];
    } else {
      var t, last := s[..|s| - 1], s[|s| - 1];
      BigEndianSplit(t, k);
      assert t[..k] == s[..k];
      var rest := s[k..];
      assert rest[..|rest| - 1] == t[k..] && rest[|rest| - 1] == last;
      assert BigEndian(rest) == BigEndian(t[k..]) * 256 + last;
      Pow2Add(8 * (|t| - k), 8);
      assert Pow2(8) == 256;
      Regroup(BigEndian(s[..k]), Pow2(8 * (|t| - k)), BigEndian(t[k..]), last);
    }
  }

  lemma Regroup(a: int, p: int, b: int, c: int)
    ensures (a * p + b) * 256 + c == a * (p * 256) + (b * 256 + c)
  {
  }

  lemma MulMonotone(a: int, b: int, d: nat)
    requires a <= b
    ensures a * d <= b * d
  {
    assert b * d - a * d == (b - a) * d;
  }

  lemma DivUnique(x: int, d: int, q: int, r: int)
    requires d > 0 && 0 <= r < d && x == q * d + r
    ensures x / d == q
  {
    var q', r' := x / d, x % d;
    assert x == q' * d + r';
    if q' < q {
      MulMonotone(q' + 1, q, d);
    } else if q' > q {
      MulMonotone(q + 1, q', d);
    }
  }

  /** Dropping low-order digits below `n` before dividing by `m * n`. */
  lemma DivShifted(a: nat, rest: nat, m: nat, n: nat)
    requires m > 0 && n > 0 && rest < n
    ensures (a * n + rest) / (m * n) == a / m
  {
    var q, r := a / m, a % m;
    assert a == q * m + r;
    assert a * n == q * (m * n) + r * n by {
      assert a * n == (q * m + r) * n;
    }
    MulMonotone(r, m - 1, n);
    assert (m - 1) * n == m * n - n;
    DivUnique(a * n + rest, m * n, q, r * n + rest);
  }

  /** Only the first `k` bytes matter for a prefix of at most `8 * k` bits. */
  lemma PrefixOfLeadingBytes(s: seq<Byte>, k: nat, len: nat)
    requires k <= |s| && len <= 8 * k
    ensures BigEndian(s) / Pow2(8 * |s| - len) == BigEndian(s[..k]) / Pow2(8 * k - len)
  {
    BigEndianSplit(s, k);
    BigEndianBound(s[k..]);
    assert 8 * |s| - len == (8 * k - len) + 8 * (|s| - k);
    Pow2Add(8 * k - len, 8 * (|s| - k));
    DivShifted(BigEndian(s[..k]), BigEndian(s[k..]), Pow2(8 * k - len), Pow2(8 * (|s| - k)));
  }

  // ---------------------------------------------------------------------
  // Text form, as Rust's `Display` for `IpAddr` writes it.

  /** Digits and dots only. */
  predicate DottedDecimal(t: string) {
    forall k :: 0 <= k < |t| ==> t[k] == '.' || IsDecimalDigit(t[k])
  }

  lemma JoinDotted(a: string, b: string)
    requires DottedDecimal(a) && DottedDecimal(b)
    ensures DottedDecimal(a + "." + b)
  {
    var t := a + "." + b;
    forall k | 0 <= k < |t|
      ensures t[k] == '.' || IsDecimalDigit(t[k])
    {
      if k > |a| {
        assert t[k] == b[k - |a| - 1];
      }
    }
  }

  /**
   * Dotted decimal, for example `203.0.113.5`: digits and dots only, so it
   * never holds the colon every IPv6 text holds.
   */
  function Ipv4Text(o: Octets4): (t: string)
    ensures DottedDecimal(t)
    ensures ':' !in t
  {
    var d0, d1, d2, d3 := Decimal(o[0]), Decimal(o[1]), Decimal(o[2]), Decimal(o[3]);
    JoinDotted(d2, d3);
    JoinDotted(d1, d2 + "." + d3);
    JoinDotted(d0, d1 + "." + (d2 + "." + d3));
    d0 + "." + (d1 + "." + (d2 + "." + d3))
  }

  /** The eight 16-bit segments of an IPv6 address. */
  function Segments(o: Octets16): (segs: seq<nat>)
    ensures |segs| == 8
  {
    seq(8, (i: int) requires 0 <= i < 8 => (o[2 * i] as nat) * 256 + (o[2 * i + 1] as nat))
  }

  /** Segments in hexadecimal, separated by colons. */
  function JoinHex(segs: seq<nat>): string {
    if segs == [] then ""
    else if |segs| == 1 then Hex(segs[0])
    else Hex(segs[0]) + ":" + JoinHex(segs[1..])
  }

  /**
   * The first longest run of zero segments, as (start, length), scanning
   * from `i` with the current run `cur` (start, length) and the best so far.
   */
  function LongestZeroRun(segs: seq<nat>, i: nat, cur: (nat, nat), best: (nat, nat)): (r: (nat, nat))
    requires i <= |segs|
    requires best.0 + best.1 <= |segs|
    requires cur.0 + cur.1 == i
    ensures r.0 + r.1 <= |segs|
    decreases |segs| - i
  {
    if i == |segs| then best
    else if segs[i] == 0 then
      var c := if cur.1 == 0 then (i, 1) else (cur.0, cur.1 + 1);
      LongestZeroRun(segs, i + 1, c, if c.1 > best.1 then c else best)
    else
      LongestZeroRun(segs, i + 1, (i + 1, 0), best)
  }

  /**
   * RFC 5952 style text: an IPv4-mapped address as `::ffff:a.b.c.d`,
   * otherwise hexadecimal segments with the first longest run of two or more
   * zero segments written as `::`.
   */
  function Ipv6Text(o: Octets16): (t: string)
    ensures ':' in t
  {
    var segs := Segments(o);
    if segs[..6] == [0, 0, 0, 0, 0, 0xffff] then
      var t := "::ffff:" + Ipv4Text(o[12..]);
      assert t[0] == ':';
      t
    else
      var run := LongestZeroRun(segs, 0, (0, 0), (0, 0));
      if run.1 > 1 then
        var head := JoinHex(segs[..run.0]);
        var t := head + "::" + JoinHex(segs[run.0 + run.1..]);
        assert t[|head|] == ':';
        t
      else
        var t := JoinHex(segs);
        assert t == Hex(segs[0]) + ":" + JoinHex(segs[1..]);
        assert t[|Hex(segs[0])|] == ':';
        t
  }

  /** `IpAddr::to_string`: the text tells the two families apart by the colon. */
  function IpText(ip: IpAddr): (t: string)
    ensures ':' in t <==> ip.V6?
  {
    match ip
    case V4(o) => Ipv4Text(o)
    case V6(o) => Ipv6Text(o)
  }

  /** Splitting at a separator that the left part cannot contain is unique. */
  lemma SplitAtSeparator(x: string, y: string, x': string, y': string, sep: char)
    requires sep !in x && sep !in x'
    requires x + [sep] + y == x' + [sep] + y'
    ensures x == x' && y == y'
  {
    var w := x + [sep] + y;
    assert w[|x|] == sep;
    assert w[|x'|] == sep;
    assert |x| == |x'| by {
      if |x| < |x'| {
        assert false;
      } else if |x'| < |x| {
        assert false;
      }
    }
    assert x == w[..|x|];
    assert x' == w[..|x'|];
    assert y == w[|x| + 1..];
    assert y' == w[|x'| + 1..];
  }

  lemma DecimalHasNoDot(n: nat)
    ensures '.' !in Decimal(n)
  {
  }

  /** Distinct IPv4 addresses have distinct record contents. */
  lemma Ipv4TextInjective(o: Octets4, o': Octets4)
    requires Ipv4Text(o) == Ipv4Text(o')
    ensures o == o'
  {
    DecimalHasNoDot(o[0]); DecimalHasNoDot(o[1]); DecimalHasNoDot(o[2]);
    DecimalHasNoDot(o'[0]); DecimalHasNoDot(o'[1]); DecimalHasNoDot(o'[2]);
    var t2 := Decimal(o[2]) + "." + Decimal(o[3]);
    var t2' := Decimal(o'[2]) + "." + Decimal(o'[3]);
    var t1 := Decimal(o[1]) + "." + t2;
    var t1' := Decimal(o'[1]) + "." + t2';
    SplitAtSeparator(Decimal(o[0]), t1, Decimal(o'[0]), t1', '.');
    SplitAtSeparator(Decimal(o[1]), t2, Decimal(o'[1]), t2', '.');
    SplitAtSeparator(Decimal(o[2]), Decimal(o[3]), Decimal(o'[2]), Decimal(o'[3]), '.');
    DecimalInjective(o[0], o'[0]);
    DecimalInjective(o[1], o'[1]);
    DecimalInjective(o[2], o'[2]);
    DecimalInjective(o[3], o'[3]);
    assert o == [o[0], o[1], o[2], o[3]];
    assert o' == [o'[0], o'[1], o'[2], o'[3]];
  }
}
