/**
 IPv4 addresses and CIDR blocks (section 3.1 of RFC 4632) as the gateway planner reads them:
 text is split and checked, and ranges come from 32-bit masks.
 */
module Cidr {
  import opened Wrappers
  import opened Text

  const WORD: nat := 0x1_0000_0000

  // ---- 32-bit operators ----

  function Pow2(n: nat): (p: nat)
    ensures p >= 1
  {
    if n == 0 then 1 else 2 * Pow2(n - 1)
  }

  /** Bitwise `&` on the low `width` bits. */
  function And(width: nat, a: nat, b: nat): nat {
    if width == 0 then 0 else 2 * And(width - 1, a / 2, b / 2) + (if a % 2 == 1 && b % 2 == 1 then 1 else 0)
  }

  /** Bitwise `|` on the low `width` bits. */
  function Or(width: nat, a: nat, b: nat): nat {
    if width == 0 then 0 else 2 * Or(width - 1, a / 2, b / 2) + (if a % 2 == 1 || b % 2 == 1 then 1 else 0)
  }

  /** `~a >>> 0` for an unsigned 32-bit word. */
  function Not(a: nat): nat
    requires a < WORD
  {
    WORD - 1 - a
  }

  /** `(a << count) >>> 0`: JavaScript uses the shift count modulo 32. */
  function ShiftLeft(a: nat, count: nat): nat {
    Doubled(a, count % 32)
  }

  function Doubled(a: nat, times: nat): nat {
    if times == 0 then a else 2 * Doubled(a, times - 1) % WORD
  }

  // ---- Parsing ----

  /** One dotted part: one to three decimal digits, at most 255. */
  function Octet(part: string): Option<nat> {
    if 1 <= |part| <= 3 && AllDigits(part) && Decimal(part) <= 255 then Some(Decimal(part)) else None
  }

  /** The address the octets spell after the octets already read into `high`. */
  function FoldOctets(parts: seq<string>, high: nat): Option<nat> {
    if parts == [] then Some(high)
    else match Octet(parts[0])
      case None => None
      case Some(octet) => FoldOctets(parts[1..], high * 256 + octet)
  }

  function Ipv4(value: string): (address: Option<nat>)
    ensures address.Some? ==> address.value < WORD
  {
    var parts := Split(value, '.');
    if |parts| != 4 then None
    else
      assert parts == [parts[0], parts[1], parts[2], parts[3]];
      FoldFour(parts);
      FoldOctets(parts, 0)
  }

  /** Four octets spell the usual base-256 number, which fits a word. */
  lemma FoldFour(parts: seq<string>)
    requires |parts| == 4
    ensures FoldOctets(parts, 0).Some? <==> forall i | 0 <= i < 4 :: Octet(parts[i]).Some?
    ensures FoldOctets(parts, 0).Some? ==>
              FoldOctets(parts, 0).value ==
              ((Octet(parts[0]).value * 256 + Octet(parts[1]).value) * 256 + Octet(parts[2]).value) * 256
              + Octet(parts[3]).value
    ensures FoldOctets(parts, 0).Some? ==> FoldOctets(parts, 0).value < WORD
  {
    var p1, p2, p3 := parts[1..], parts[1..][1..], parts[1..][1..][1..];
    assert p1[0] == parts[1] && p2[0] == parts[2] && p3[0] == parts[3] && p3[1..] == [];
    if Octet(parts[0]).Some? {
      var a := Octet(parts[0]).value;
      assert FoldOctets(parts, 0) == FoldOctets(p1, a);
      if Octet(parts[1]).Some? {
        var b := a * 256 + Octet(parts[1]).value;
        assert FoldOctets(p1, a) == FoldOctets(p2, b);
        if Octet(parts[2]).Some? {
          var c := b * 256 + Octet(parts[2]).value;
          assert FoldOctets(p2, b) == FoldOctets(p3, c);
          if Octet(parts[3]).Some? {
            assert FoldOctets(p3, c) == FoldOctets([], c * 256 + Octet(parts[3]).value);
          }
        }
      }
    }
  }

  /** The loop over the dotted parts, keeping the address read so far in `result`. */
  method ReadIpv4(value: string) returns (address: Option<nat>)
    ensures address == Ipv4(value)
  {
    var parts := Split(value, '.');
    if |parts| != 4 {
      return None;
    }
    var result: nat := 0;
    for i := 0 to |parts|
      invariant FoldOctets(parts, 0) == FoldOctets(parts[i..], result)
    {
      assert parts[i..][1..] == parts[i + 1..];
      var octet := Octet(parts[i]);
      if octet == None {
        return None;
      }
      result := result * 256 + octet.value;
    }
    return Some(result);
  }

  datatype Range = Range(start: nat, end: nat, prefix: nat)

  /**
   `Number(text)` where it is a whole number: blank text is 0, decimal digits are their value, and
   every other text is not a usable prefix.
   */
  function PrefixNumber(text: string): Option<nat> {
    var digits := Trim(text);
    if AllDigits(digits) then Some(Decimal(digits)) else None
  }

  function Mask(prefix: nat): nat
    requires prefix <= 32
  {
    if prefix == 0 then 0 else ShiftLeft(0xffff_ffff, 32 - prefix)
  }

  lemma MaskIsHighBits(prefix: nat)
    requires prefix <= 32
    ensures Pow2(32 - prefix) <= WORD
    ensures Mask(prefix) == WORD - Pow2(32 - prefix)
  {
    var k := 32 - prefix;
    Pow2Values();
    Pow2Monotone(k, 32);
    if prefix > 0 {
      assert k % 32 == k;
      ShiftedOnes(k);
    }
  }

  lemma {:induction false} ShiftedOnes(k: nat)
    requires k <= 32
    ensures Pow2(k) <= WORD
    ensures Doubled(0xffff_ffff, k) == WORD - Pow2(k)
  {
    Pow2Values();
    Pow2Monotone(k, 32);
    if k > 0 {
      ShiftedOnes(k - 1);
      DoubledComplement(Pow2(k - 1));
      assert Doubled(0xffff_ffff, k) == 2 * Doubled(0xffff_ffff, k - 1) % WORD;
    }
  }

  lemma DoubledComplement(p: nat)
    requires 1 <= p && 2 * p <= WORD
    ensures 2 * (WORD - p) % WORD == WORD - 2 * p
  {
    assert 2 * (WORD - p) == WORD + (WORD - 2 * p);
  }

  function MaskedRange(address: nat, prefix: nat): Range
    requires address < WORD && prefix <= 32
  {
    MaskIsHighBits(prefix);
    var mask := Mask(prefix);
    var start := And(32, address, mask);
    Range(start, Or(32, start, Not(mask)), prefix)
  }

  /** A CIDR block: address text, then an optional prefix; text after a second slash is ignored. */
  function ParseCidr(cidr: string): Option<Range> {
    var pieces := Split(Trim(cidr), '/');
    match Ipv4(pieces[0])
    case None => None
    case Some(address) =>
      var prefix := if |pieces| == 1 then Some(32) else PrefixNumber(pieces[1]);
      if prefix == None || prefix.value > 32 then None else Some(MaskedRange(address, prefix.value))
  }

  predicate InRange(range: Range, address: nat) {
    range.start <= address <= range.end
  }

  predicate CidrContains(cidr: string, ip: string) {
    var range, value := ParseCidr(cidr), Ipv4(ip);
    range.Some? && value.Some? && InRange(range.value, value.value)
  }

  predicate CidrOverlaps(left: string, right: string) {
    var a, b := ParseCidr(left), ParseCidr(right);
    a.Some? && b.Some? && a.value.start <= b.value.end && b.value.start <= a.value.end
  }

  // ---- What the masks compute ----

  /** The largest multiple of `size` that is at most `a`. */
  function Floor(a: nat, size: nat): nat
    requires size >= 1
  {
    a / size * size
  }

  /** The block of 2^(32-prefix) addresses that holds `address`, by division instead of masks. */
  function Block(address: nat, prefix: nat): Range
    requires prefix <= 32
  {
    var size := Pow2(32 - prefix);
    var start := Floor(address, size);
    Range(start, start + size - 1, prefix)
  }

  predicate IsBlock(range: Range) {
    && range.prefix <= 32
    && range.start < WORD
    && range == Block(range.start, range.prefix)
  }

  /** The masks give exactly the block: its first and last address, aligned and inside the word. */
  lemma MasksGiveTheBlock(address: nat, prefix: nat)
    requires address < WORD && prefix <= 32
    ensures MaskedRange(address, prefix) == Block(address, prefix)
    ensures IsBlock(MaskedRange(address, prefix))
    ensures MaskedRange(address, prefix).end < WORD
  {
    var k := 32 - prefix;
    Pow2Values();
    Pow2Split(k, 32);
    MasksClearLowBits(address, prefix);
    ClearedIsFloor(k, address);
    FloorFits(address, Pow2(k), Pow2(prefix));
    FloorOfFloor(address, Pow2(k));
  }

  lemma MasksClearLowBits(address: nat, prefix: nat)
    requires address < WORD && prefix <= 32
    ensures var start := Cleared(32 - prefix, address);
            MaskedRange(address, prefix) == Range(start, start + Pow2(32 - prefix) - 1, prefix)
  {
    var k := 32 - prefix;
    Pow2Values();
    MaskIsHighBits(prefix);
    AndHighBits(32, k, address);
    ClearedTwice(k, address);
    OrLowBits(32, k, Cleared(k, address));
  }

  /** `a` with its low `k` bits cleared. */
  function Cleared(k: nat, a: nat): nat {
    if k == 0 then a else 2 * Cleared(k - 1, a / 2)
  }

  lemma {:induction false} ClearedTwice(k: nat, a: nat)
    ensures Cleared(k, a) <= a
    ensures Cleared(k, Cleared(k, a)) == Cleared(k, a)
  {
    if k > 0 {
      ClearedTwice(k - 1, a / 2);
    }
  }

  lemma {:induction false} ClearedIsFloor(k: nat, a: nat)
    ensures Cleared(k, a) == Floor(a, Pow2(k))
  {
    if k > 0 {
      ClearedIsFloor(k - 1, a / 2);
      FloorOfHalf(a, Pow2(k - 1));
    }
  }

  lemma FloorOfHalf(a: nat, d: nat)
    requires d >= 1
    ensures Floor(a, 2 * d) == 2 * Floor(a / 2, d)
  {
    DivideTwice(a, d);
  }

  lemma FloorOfFloor(a: nat, size: nat)
    requires size >= 1
    ensures Floor(Floor(a, size), size) == Floor(a, size)
  {
    QuotientUnique(Floor(a, size), size, a / size, 0);
  }

  lemma FloorFits(a: nat, size: nat, blocks: nat)
    requires size >= 1 && a < blocks * size
    ensures Floor(a, size) <= a
    ensures Floor(a, size) + size <= blocks * size
  {
    var q := a / size;
    DivisionBounds(a, size);
    CancelLess(q, blocks, size);
    MultiplyAtMost(q + 1, blocks, size);
    Distribute(q, 1, size);
  }

  lemma DivisionBounds(a: nat, d: nat)
    requires d >= 1
    ensures a / d * d <= a < a / d * d + d
  {
    assert a == a / d * d + a % d;
  }

  lemma {:induction false} AndHighBits(width: nat, k: nat, a: nat)
    requires k <= width && a < Pow2(width)
    ensures Pow2(k) <= Pow2(width)
    ensures And(width, a, Pow2(width) - Pow2(k)) == Cleared(k, a)
  {
    Pow2Monotone(k, width);
    if width > 0 {
      AndHighBits(width - 1, if k == 0 then 0 else k - 1, a / 2);
      var mask := Pow2(width) - Pow2(k);
      if k == 0 {
        assert mask / 2 == Pow2(width - 1) - 1 && mask % 2 == 1;
      } else {
        assert mask / 2 == Pow2(width - 1) - Pow2(k - 1) && mask % 2 == 0;
      }
    }
  }

  lemma {:induction false} OrLowBits(width: nat, k: nat, a: nat)
    requires k <= width && a < Pow2(width) && Cleared(k, a) == a
    ensures Or(width, a, Pow2(k) - 1) == a + Pow2(k) - 1
  {
    if width > 0 {
      var low := Pow2(k) - 1;
      if k == 0 {
        OrLowBits(width - 1, 0, a / 2);
      } else {
        OrLowBits(width - 1, k - 1, a / 2);
        assert low / 2 == Pow2(k - 1) - 1 && low % 2 == 1;
      }
    }
  }

  lemma DivideTwice(a: nat, d: nat)
    requires d >= 1
    ensures a / (2 * d) == a / 2 / d
  {
    var q, r := a / (2 * d), a % (2 * d);
    assert a == 2 * (q * d) + r;
    assert a / 2 == q * d + r / 2 && r / 2 < d;
    QuotientUnique(a / 2, d, q, r / 2);
  }

  lemma QuotientUnique(n: nat, d: nat, q: nat, r: nat)
    requires d >= 1 && n == q * d + r && r < d
    ensures n / d == q
  {
    var other := n / d;
    assert n == other * d + n % d;
    assert (q + 1) * d == q * d + d && (other + 1) * d == other * d + d;
    CancelLess(q, other + 1, d);
    CancelLess(other, q + 1, d);
  }

  lemma {:induction false} Pow2Monotone(k: nat, n: nat)
    requires k <= n
    ensures Pow2(k) <= Pow2(n)
  {
    if k < n {
      Pow2Monotone(k, n - 1);
    }
  }

  lemma {:induction false} Pow2Split(k: nat, n: nat)
    requires k <= n
    ensures Pow2(n - k) * Pow2(k) == Pow2(n)
  {
    if k > 0 {
      Pow2Split(k - 1, n - 1);
      assert Pow2(n - k) * Pow2(k) == 2 * (Pow2(n - k) * Pow2(k - 1));
    }
  }

  lemma Pow2Values()
    ensures Pow2(32) == WORD
  {
    assert Pow2(8) == 256;
    Pow2Split(8, 16);
    Pow2Split(16, 32);
  }

  // ---- What the predicates mean ----

  /** Every block that parses is aligned and lies inside the 32-bit address space. */
  lemma ParsedBlock(cidr: string)
    requires ParseCidr(cidr).Some?
    ensures IsBlock(ParseCidr(cidr).value)
    ensures ParseCidr(cidr).value.end < WORD
  {
    var pieces := Split(Trim(cidr), '/');
    var address := Ipv4(pieces[0]).value;
    var prefix := if |pieces| == 1 then 32 else PrefixNumber(pieces[1]).value;
    MasksGiveTheBlock(address, prefix);
  }

  /** A readable block contains a readable address exactly when the two agree on the leading `prefix` bits. */
  lemma ContainsIffLeadingBitsAgree(cidr: string, ip: string)
    requires ParseCidr(cidr).Some? && Ipv4(ip).Some?
    ensures var range, address := ParseCidr(cidr).value, Ipv4(ip).value;
            var size := Pow2(32 - range.prefix);
            CidrContains(cidr, ip) <==> range.start / size == address / size
  {
    ParsedBlock(cidr);
    RangeContains(ParseCidr(cidr).value, Ipv4(ip).value);
  }

  lemma RangeContains(range: Range, address: nat)
    requires IsBlock(range)
    ensures var size := Pow2(32 - range.prefix);
            InRange(range, address) <==> range.start / size == address / size
  {
    var size := Pow2(32 - range.prefix);
    BlockShape(range);
    SameBlockIffSameQuotient(range.start / size, size, address);
  }

  lemma SameBlockIffSameQuotient(q: nat, size: nat, a: nat)
    requires size >= 1
    ensures q * size <= a < q * size + size <==> q == a / size
  {
    DivisionBounds(a, size);
    if q * size <= a < q * size + size {
      QuotientUnique(a, size, q, a - q * size);
    }
  }

  ghost predicate Within(inner: Range, outer: Range) {
    forall a: nat | InRange(inner, a) :: InRange(outer, a)
  }

  /** Blocks are a laminar family: they are disjoint, or the one with the longer prefix lies in the other. */
  lemma LongerPrefixNests(inner: Range, outer: Range, shared: nat)
    requires IsBlock(inner) && IsBlock(outer) && outer.prefix <= inner.prefix
    requires InRange(inner, shared) && InRange(outer, shared)
    ensures Within(inner, outer)
  {
    var small, large := Pow2(32 - inner.prefix), Pow2(32 - outer.prefix);
    var ratio := Pow2(inner.prefix - outer.prefix);
    Pow2Split(32 - inner.prefix, 32 - outer.prefix);
    assert large == ratio * small;
    BlockShape(inner);
    BlockShape(outer);
    AlignedBlocksNest(inner.start / small, outer.start / large, small, ratio, shared);
  }

  lemma BlockShape(range: Range)
    requires IsBlock(range)
    ensures var size := Pow2(32 - range.prefix);
            range.start == range.start / size * size && range.end == range.start + size - 1
  {
  }

  /** Multiples of `small` and of `ratio * small` cut the line into nested blocks. */
  lemma AlignedBlocksNest(qi: nat, qo: nat, small: nat, ratio: nat, shared: nat)
    requires small >= 1 && ratio >= 1
    requires qi * small <= shared < qi * small + small
    requires qo * (ratio * small) <= shared < qo * (ratio * small) + ratio * small
    ensures qo * (ratio * small) <= qi * small
    ensures qi * small + small <= qo * (ratio * small) + ratio * small
  {
    var first := qo * ratio;
    MultiplyAssociates(qo, ratio, small);
    Distribute(qi, 1, small);
    Distribute(first, ratio, small);
    CancelLess(first, qi + 1, small);
    CancelLess(qi, first + ratio, small);
    MultiplyAtMost(first, qi, small);
    MultiplyAtMost(qi + 1, first + ratio, small);
  }

  lemma MultiplyAssociates(a: nat, b: nat, c: nat)
    ensures a * (b * c) == (a * b) * c
  {
  }

  lemma Distribute(a: nat, b: nat, c: nat)
    ensures (a + b) * c == a * c + b * c
  {
  }

  lemma CancelLess(a: nat, b: nat, d: nat)
    requires a * d < b * d
    ensures a < b
  {
    if a >= b {
      MultiplyAtMost(b, a, d);
    }
  }

  lemma MultiplyAtMost(a: nat, b: nat, d: nat)
    requires a <= b
    ensures a * d <= b * d
  {
    assert (b - a) * d >= 0;
  }

  /** Two readable blocks overlap exactly when they share an address, and exactly when one lies in the other. */
  lemma OverlapMeansSharedAndNested(left: string, right: string)
    requires ParseCidr(left).Some? && ParseCidr(right).Some?
    ensures var a, b := ParseCidr(left).value, ParseCidr(right).value;
            && (CidrOverlaps(left, right) <==> exists x: nat :: InRange(a, x) && InRange(b, x))
            && (CidrOverlaps(left, right) <==> Within(a, b) || Within(b, a))
  {
    ParsedBlock(left);
    ParsedBlock(right);
    var a, b := ParseCidr(left).value, ParseCidr(right).value;
    assert InRange(a, a.start) && InRange(b, b.start);
    if CidrOverlaps(left, right) {
      var shared := if a.start <= b.start then b.start else a.start;
      assert InRange(a, shared) && InRange(b, shared);
      if a.prefix <= b.prefix {
        LongerPrefixNests(b, a, shared);
      } else {
        LongerPrefixNests(a, b, shared);
      }
    }
  }

  // ---- Host routes ----

  /** `ip.trim().replace(/\/32$/, "")` followed by `/32`. */
  function HostRoute(ip: string): string {
    var t := Trim(ip);
    (if |t| >= 3 && t[|t| - 3..] == "/32" then t[..|t| - 3] else t) + "/32"
  }

  /** A readable address holds no slash, and starts and ends with a digit. */
  lemma AddressText(ip: string)
    requires Ipv4(ip).Some?
    ensures '/' !in ip
    ensures ip != "" && IsDigit(ip[0]) && IsDigit(ip[|ip| - 1])
  {
    var parts := Split(ip, '.');
    JoinAfterSplit(ip, '.');
    FoldFour(parts);
    var p1, p2 := parts[1..], parts[1..][1..];
    assert p1 == [parts[1], parts[2], parts[3]] && p2 == [parts[2], parts[3]];
    assert p2[1..] == [parts[3]];
    assert Join(p2, '.') == parts[2] + ['.'] + parts[3];
    assert Join(p1, '.') == parts[1] + ['.'] + Join(p2, '.');
    assert ip == parts[0] + ['.'] + (parts[1] + ['.'] + (parts[2] + ['.'] + parts[3]));
  }

  lemma PrefixThirtyTwo()
    ensures PrefixNumber("32") == Some(32)
  {
    TrimKeeps("32");
    assert "32"[..1] == "3" && "3"[..0] == "";
    assert Decimal("3") == 3;
  }

  lemma SingleAddressBlock(address: nat)
    requires address < WORD
    ensures MaskedRange(address, 32) == Range(address, address, 32)
  {
    MasksGiveTheBlock(address, 32);
    QuotientUnique(address, 1, address, 0);
  }

  lemma HostRouteText(ip: string)
    requires Ipv4(ip).Some?
    ensures HostRoute(ip) == ip + "/32"
    ensures Split(Trim(ip + "/32"), '/') == [ip, "32"]
  {
    AddressText(ip);
    TrimKeeps(ip);
    assert |ip| >= 3 ==> ip[|ip| - 3] in ip && ip[|ip| - 3..][0] != "/32"[0];
    SlashText(ip);
  }

  lemma SlashText(ip: string)
    requires '/' !in ip && ip != "" && !IsSpace(ip[0])
    ensures Split(Trim(ip + "/32"), '/') == [ip, "32"]
  {
    var text := ip + "/32";
    assert text[0] == ip[0] && text[|text| - 1] == '2';
    TrimKeeps(text);
    assert text == ip + ['/'] + "32";
    SplitPrefix(ip, "32", '/');
    SplitPrefix("32", "", '/');
  }

  /** The host route of a readable address is the block holding that address alone. */
  lemma HostRouteIsOneAddress(ip: string)
    requires Ipv4(ip).Some?
    ensures ParseCidr(HostRoute(ip)) == Some(Range(Ipv4(ip).value, Ipv4(ip).value, 32))
  {
    HostRouteText(ip);
    PrefixThirtyTwo();
    SingleAddressBlock(Ipv4(ip).value);
  }

  /** A host route is its own host route, so a host given with its prefix asks for the same one. */
  lemma HostRouteTwice(ip: string)
    ensures HostRoute(HostRoute(ip)) == HostRoute(ip)
    ensures Trim(ip) == ip ==> HostRoute(ip + "/32") == ip + "/32"
  {
    TrimTwice(ip);
    TrimStartHead(ip);
    TrimEndTail(TrimStart(ip));
    var t := Trim(ip);
    RouteOf(if |t| >= 3 && t[|t| - 3..] == "/32" then t[..|t| - 3] else t);
    if Trim(ip) == ip {
      RouteOf(ip);
    }
  }

  lemma RouteOf(host: string)
    requires host == "" || !IsSpace(host[0])
    ensures HostRoute(host + "/32") == host + "/32"
  {
    var text := host + "/32";
    assert text[0] == (if host == "" then '/' else host[0]) && text[|text| - 1] == '2';
    TrimKeeps(text);
    assert text[|text| - 3..] == "/32" && text[..|text| - 3] == host;
  }

  // ---- What a block's text says ----

  /** White space around the text does not matter. */
  lemma PaddedBlock(before: string, cidr: string, after: string)
    requires AllSpace(before) && AllSpace(after)
    ensures ParseCidr(before + cidr + after) == ParseCidr(cidr)
  {
    TrimPads(before, cidr, after);
  }

  /** An address alone is the block of that address. */
  lemma BareAddress(address: string)
    requires Ipv4(address).Some?
    ensures ParseCidr(address) == Some(Range(Ipv4(address).value, Ipv4(address).value, 32))
  {
    AddressText(address);
    TrimKeeps(address);
    SplitPrefix(address, "", '/');
    SingleAddressBlock(Ipv4(address).value);
  }

  /** Without a readable address, at its start and up to its first slash, no text is a block. */
  lemma UnreadableBlock(address: string, rest: string)
    requires Ipv4(address).None? && '/' !in address && Trim(address) == address
    ensures ParseCidr(address).None? && ParseCidr(address + "/" + rest).None?
  {
    SplitPrefix(address, "", '/');
    TrimStartHead(address);
    TrimEndTail(TrimStart(address));
    var text := address + "/" + rest;
    assert text[0] == (address + "/")[0];
    TrimEndOfTail(address + "/", rest);
    assert address + "/" + rest == (address + "/") + rest;
    assert Trim(text) == address + ['/'] + TrimEnd(rest);
    SplitPrefix(address, TrimEnd(rest), '/');
  }

  /**
   A readable address, a slash and a prefix text are the block of that address and prefix when the text,
   trimmed, is a decimal number of at most 32, and no block otherwise. What follows a second slash is ignored.
   */
  lemma WrittenPrefix(address: string, prefix: string, ignored: string)
    requires Ipv4(address).Some? && '/' !in prefix
    ensures var expected :=
              if AllDigits(Trim(prefix)) && Decimal(Trim(prefix)) <= 32
              then Some(Block(Ipv4(address).value, Decimal(Trim(prefix)))) else None;
            ParseCidr(address + "/" + prefix) == expected
            && ParseCidr(address + "/" + prefix + "/" + ignored) == expected
  {
    var head := address + "/";
    AddressText(address);
    assert head[0] == address[0];
    TrimEndOfTail(head, prefix);
    SlashFree(prefix);
    TrimEndOnce(prefix);
    PiecesOf(address, TrimEnd(prefix));
    TrimEndOfTail(head + prefix + "/", ignored);
    SplitThree(address, prefix, TrimEnd(ignored));
    assert Trim(head + prefix) == address + "/" + TrimEnd(prefix);
    assert (head + prefix + "/" + ignored)[0] == address[0];
    assert Trim(head + prefix + "/" + ignored) == address + "/" + prefix + "/" + TrimEnd(ignored);
    if AllDigits(Trim(prefix)) && Decimal(Trim(prefix)) <= 32 {
      MasksGiveTheBlock(Ipv4(address).value, Decimal(Trim(prefix)));
    }
  }

  lemma {:induction false} SlashFree(s: string)
    requires '/' !in s
    ensures '/' !in TrimEnd(s)
  {
    if s != "" && IsSpace(s[|s| - 1]) {
      SlashFree(s[..|s| - 1]);
    }
  }

  /** Trimming the end first changes nothing. */
  lemma {:induction false} TrimEndOnce(s: string)
    ensures Trim(TrimEnd(s)) == Trim(s)
  {
    if s != "" && IsSpace(s[|s| - 1]) {
      var shorter := s[..|s| - 1];
      TrimEndOnce(shorter);
      TrimPads("", shorter, [s[|s| - 1]]);
      assert "" + shorter + [s[|s| - 1]] == s;
    }
  }

  lemma PiecesOf(address: string, prefix: string)
    requires '/' !in address && '/' !in prefix
    ensures Split(address + "/" + prefix, '/') == [address, prefix]
  {
    SplitPrefix(address, prefix, '/');
    SplitPrefix(prefix, "", '/');
    assert address + "/" + prefix == address + ['/'] + prefix;
  }

  lemma SplitThree(address: string, prefix: string, rest: string)
    requires '/' !in address && '/' !in prefix
    ensures var pieces := Split(address + "/" + prefix + "/" + rest, '/');
            |pieces| > 1 && pieces[0] == address && pieces[1] == prefix
  {
    SplitPrefix(prefix, rest, '/');
    SplitPrefix(address, prefix + ['/'] + rest, '/');
    assert address + "/" + prefix + "/" + rest == address + ['/'] + (prefix + ['/'] + rest);
  }

  /** Four numbers written as a dotted address. */
  function Dotted(a: nat, b: nat, c: nat, d: nat): string {
    Join([Digits(a), Digits(b), Digits(c), Digits(d)], '.')
  }

  function Base256(a: nat, b: nat, c: nat, d: nat): nat {
    ((a * 256 + b) * 256 + c) * 256 + d
  }

  /** A written address is read back exactly when every number of it is at most 255. */
  lemma DottedReads(a: nat, b: nat, c: nat, d: nat)
    ensures Ipv4(Dotted(a, b, c, d)) ==
            if a <= 255 && b <= 255 && c <= 255 && d <= 255 then Some(Base256(a, b, c, d)) else None
  {
    var parts := [Digits(a), Digits(b), Digits(c), Digits(d)];
    WrittenOctet(a);
    WrittenOctet(b);
    WrittenOctet(c);
    WrittenOctet(d);
    FourOctets(parts, a, b, c, d);
  }

  lemma WrittenOctet(n: nat)
    ensures '.' !in Digits(n)
    ensures Octet(Digits(n)) == if n <= 255 then Some(n) else None
  {
    DecimalDigits(n);
  }

  lemma FourOctets(parts: seq<string>, a: nat, b: nat, c: nat, d: nat)
    requires |parts| == 4 && forall i | 0 <= i < 4 :: '.' !in parts[i]
    requires Octet(parts[0]) == (if a <= 255 then Some(a) else None)
    requires Octet(parts[1]) == (if b <= 255 then Some(b) else None)
    requires Octet(parts[2]) == (if c <= 255 then Some(c) else None)
    requires Octet(parts[3]) == (if d <= 255 then Some(d) else None)
    ensures Ipv4(Join(parts, '.')) ==
            if a <= 255 && b <= 255 && c <= 255 && d <= 255 then Some(Base256(a, b, c, d)) else None
  {
    SplitAfterJoin(parts, '.');
    FoldFour(parts);
  }

  /** So the block of a written address and prefix is the one of those numbers. */
  lemma WrittenBlock(a: nat, b: nat, c: nat, d: nat, n: nat)
    ensures ParseCidr(Dotted(a, b, c, d) + "/" + Digits(n)) ==
            if a <= 255 && b <= 255 && c <= 255 && d <= 255 && n <= 32
            then Some(Block(Base256(a, b, c, d), n)) else None
  {
    DottedReads(a, b, c, d);
    PlainDotted(a, b, c, d);
    NumberedBlock(Dotted(a, b, c, d), n);
  }

  lemma PlainDotted(a: nat, b: nat, c: nat, d: nat)
    ensures Plain(Dotted(a, b, c, d))
  {
    PlainDigits(a);
    PlainDigits(b);
    PlainDigits(c);
    PlainDigits(d);
    PlainJoin([Digits(a), Digits(b), Digits(c), Digits(d)]);
  }

  lemma NumberedBlock(address: string, n: nat)
    requires Plain(address)
    ensures ParseCidr(address + "/" + Digits(n)) ==
            if Ipv4(address).Some? && n <= 32 then Some(Block(Ipv4(address).value, n)) else None
  {
    if Ipv4(address).Some? {
      NumberedPrefix(address, n);
    } else {
      PlainTrims(address);
      UnreadableBlock(address, Digits(n));
    }
  }

  lemma NumberedPrefix(address: string, n: nat)
    requires Ipv4(address).Some?
    ensures ParseCidr(address + "/" + Digits(n)) == if n <= 32 then Some(Block(Ipv4(address).value, n)) else None
  {
    PlainDigits(n);
    PlainTrims(Digits(n));
    WrittenPrefix(address, Digits(n), "");
  }

  lemma PlainTrims(s: string)
    requires Plain(s)
    ensures Trim(s) == s && '/' !in s
  {
    TrimKeeps(s);
  }

  /** Digits and dots only. */
  predicate Plain(s: string) {
    forall i | 0 <= i < |s| :: IsDigit(s[i]) || s[i] == '.'
  }

  lemma PlainDigits(n: nat)
    ensures Plain(Digits(n)) && AllDigits(Digits(n)) && Decimal(Digits(n)) == n
  {
    DecimalDigits(n);
  }

  lemma {:induction false} PlainJoin(parts: seq<string>)
    requires forall i | 0 <= i < |parts| :: Plain(parts[i])
    ensures Plain(Join(parts, '.'))
  {
    if |parts| > 1 {
      PlainJoin(parts[1..]);
    }
  }

  // ---- White space in an address ----

  /** With a space before it a readable address is unreadable, though it asks for the same host route. */
  lemma SpacedAddressIsUnreadable(ip: string)
    requires Ipv4(ip).Some?
    ensures Ipv4(" " + ip).None? && HostRoute(" " + ip) == HostRoute(ip)
  {
    var spaced := " " + ip;
    assert spaced[0] == ' ' && spaced[1..] == ip;
    var parts, rest := Split(spaced, '.'), Split(ip, '.');
    assert parts == [[' '] + rest[0]] + rest[1..];
    assert parts[0][0] == ' ';
    FoldFour(parts);
  }

  /** Four readable octets joined by dots are a readable address. */
  lemma FourOctetsRead(parts: seq<string>)
    requires |parts| == 4 && forall i | 0 <= i < 4 :: Octet(parts[i]).Some?
    ensures Ipv4(Join(parts, '.')).Some?
  {
    forall i | 0 <= i < 4
      ensures '.' !in parts[i]
    {
      assert AllDigits(parts[i]);
    }
    SplitAfterJoin(parts, '.');
    FoldFour(parts);
  }

  lemma JoinFour(a: string, b: string, c: string, d: string)
    ensures Join([a, b, c, d], '.') == a + ['.'] + (b + ['.'] + (c + ['.'] + d))
  {
    assert [c, d][1..] == [d] && [b, c, d][1..] == [c, d] && [a, b, c, d][1..] == [b, c, d];
    assert Join([d], '.') == d;
    assert Join([c, d], '.') == c + ['.'] + d;
    assert Join([b, c, d], '.') == b + ['.'] + (c + ['.'] + d);
  }

  lemma TenIsReadable()
    ensures Ipv4("10.0.0.1").Some?
  {
    SmallOctets();
    FourOctetsRead(["10", "0", "0", "1"]);
    JoinFour("10", "0", "0", "1");
    assert "10" + ['.'] + ("0" + ['.'] + ("0" + ['.'] + "1")) == "10.0.0.1";
  }

  lemma SmallOctets()
    ensures Octet("10").Some? && Octet("0").Some? && Octet("1").Some?
  {
    assert "10"[..1] == "1" && "1"[..0] == "" && "0"[..0] == "";
    assert Decimal("1") == 1 && Decimal("0") == 0;
  }
}
