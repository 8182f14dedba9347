/**
  Whether an IP address is globally routable (`is_global`), for IPv4 octets
  and IPv6 segments. The address-class tests the platform library provides
  (private, loopback, link-local, broadcast, documentation, multicast,
  unspecified) are written here from the RFCs that define those ranges.
 */
module Ip {
  import opened Wrappers

  datatype Ipv4 = Ipv4(a: bv8, b: bv8, c: bv8, d: bv8)

  /** The eight 16-bit segments of an IPv6 address. */
  type Segments = s: seq<bv16> | |s| == 8 witness [0, 0, 0, 0, 0, 0, 0, 0]

  datatype Ipv6 = Ipv6(segments: Segments)

  datatype IpAddr = V4(v4: Ipv4) | V6(v6: Ipv6)

  /** `u32::from`: the address as a big-endian 32-bit number. */
  function Bits(addr: Ipv4): bv32 {
    (addr.a as bv32 << 24) | (addr.b as bv32 << 16) | (addr.c as bv32 << 8) | addr.d as bv32
  }

  // ---------------------------------------------------------------------------
  // IPv4 classes of the platform library

  /** 10.0.0.0/8, 172.16.0.0/12 and 192.168.0.0/16 (section 3 of RFC 1918). */
  predicate IsPrivate(addr: Ipv4) {
    || addr.a == 10
    || (addr.a == 172 && addr.b & 0xf0 == 16)
    || (addr.a == 192 && addr.b == 168)
  }

  /** 127.0.0.0/8 (section 2.2.2 of RFC 6890). */
  predicate IsLoopback(addr: Ipv4) {
    addr.a == 127
  }

  /** 169.254.0.0/16 (RFC 3927). */
  predicate IsLinkLocal(addr: Ipv4) {
    addr.a == 169 && addr.b == 254
  }

  /** 255.255.255.255 (section 7 of RFC 919). */
  predicate IsBroadcast(addr: Ipv4) {
    addr.a == 255 && addr.b == 255 && addr.c == 255 && addr.d == 255
  }

  /** 192.0.2.0/24, 198.51.100.0/24 and 203.0.113.0/24 (RFC 5737). */
  predicate IsDocumentation(addr: Ipv4) {
    || (addr.a == 192 && addr.b == 0 && addr.c == 2)
    || (addr.a == 198 && addr.b == 51 && addr.c == 100)
    || (addr.a == 203 && addr.b == 0 && addr.c == 113)
  }

  // ---------------------------------------------------------------------------
  // IPv4 classes of the module

  /** 100.64.0.0/10, the shared address space of RFC 6598. */
  function IsShared(addr: Ipv4): (r: bool)
    ensures r <==> 0x6440_0000 <= Bits(addr) < 0x6480_0000
  {
    addr.a == 100 && (addr.b & 0xc0 == 0x40)
  }

  /** 192.0.0.0/24, the IETF protocol assignments of section 2.1 of RFC 6890. */
  function IsIetfProtocolAssignment(addr: Ipv4): (r: bool)
    ensures r <==> 0xc000_0000 <= Bits(addr) < 0xc000_0100
  {
    addr.a == 192 && addr.b == 0 && addr.c == 0
  }

  /** 240.0.0.0/4 except the broadcast address (section 4 of RFC 1112). */
  function IsReserved(addr: Ipv4): (r: bool)
    ensures r <==> 0xf000_0000 <= Bits(addr) < 0xffff_ffff
  {
    addr.a & 240 == 240 && !IsBroadcast(addr)
  }

  /** 198.18.0.0/15, the benchmarking range of RFC 2544. */
  function IsBenchmarking(addr: Ipv4): (r: bool)
    ensures r <==> 0xc612_0000 <= Bits(addr) < 0xc614_0000
  {
    addr.a == 198 && (addr.b & 0xfe) == 18
  }

  /** `is_global` for IPv4. */
  function IsGlobalV4(addr: Ipv4): bool {
    // 192.0.0.9 and 192.0.0.10 are the only global addresses of 192.0.0.0/24
    if Bits(addr) == 0xc000_0009 || Bits(addr) == 0xc000_000a then
      true
    else
      && !IsPrivate(addr)
      && !IsLoopback(addr)
      && !IsLinkLocal(addr)
      && !IsBroadcast(addr)
      && !IsDocumentation(addr)
      && !IsShared(addr)
      && !IsIetfProtocolAssignment(addr)
      && !IsReserved(addr)
      && !IsBenchmarking(addr)
      // not in 0.0.0.0/8
      && addr.a != 0
  }

  /**
    The special-purpose blocks that are not global: 0/8, 10/8, 100.64/10,
    127/8, 169.254/16, 172.16/12, 192.0.0/24, 192.0.2/24, 192.168/16,
    198.18/15, 198.51.100/24, 203.0.113/24 and 240/4, as ranges of `Bits`.
   */
  predicate InNonGlobalBlock(x: bv32) {
    || x < 0x0100_0000
    || 0x0a00_0000 <= x < 0x0b00_0000
    || 0x6440_0000 <= x < 0x6480_0000
    || 0x7f00_0000 <= x < 0x8000_0000
    || 0xa9fe_0000 <= x < 0xa9ff_0000
    || 0xac10_0000 <= x < 0xac20_0000
    || 0xc000_0000 <= x < 0xc000_0100
    || 0xc000_0200 <= x < 0xc000_0300
    || 0xc0a8_0000 <= x < 0xc0a9_0000
    || 0xc612_0000 <= x < 0xc614_0000
    || 0xc633_6400 <= x < 0xc633_6500
    || 0xcb00_7100 <= x < 0xcb00_7200
    || 0xf000_0000 <= x
  }

  /** Per block: where each class test puts an address, as a range of `Bits`. */
  lemma ClassRanges(addr: Ipv4)
    ensures addr.a == 0 <==> Bits(addr) < 0x0100_0000
    ensures IsLoopback(addr) <==> 0x7f00_0000 <= Bits(addr) < 0x8000_0000
    ensures IsLinkLocal(addr) <==> 0xa9fe_0000 <= Bits(addr) < 0xa9ff_0000
    ensures IsBroadcast(addr) <==> Bits(addr) == 0xffff_ffff
    ensures IsPrivate(addr) <==>
              || 0x0a00_0000 <= Bits(addr) < 0x0b00_0000
              || 0xac10_0000 <= Bits(addr) < 0xac20_0000
              || 0xc0a8_0000 <= Bits(addr) < 0xc0a9_0000
    ensures IsDocumentation(addr) <==>
              || 0xc000_0200 <= Bits(addr) < 0xc000_0300
              || 0xc633_6400 <= Bits(addr) < 0xc633_6500
              || 0xcb00_7100 <= Bits(addr) < 0xcb00_7200
  {
  }

  /**
    The reference definition: an IPv4 address is global exactly when it is
    192.0.0.9, 192.0.0.10, or in none of the non-global blocks.
   */
  lemma IsGlobalV4Blocks(addr: Ipv4)
    ensures IsGlobalV4(addr) <==>
              || Bits(addr) == 0xc000_0009
              || Bits(addr) == 0xc000_000a
              || !InNonGlobalBlock(Bits(addr))
  {
    ClassRanges(addr);
  }

  /** 192.0.0.9 and 192.0.0.10 are global, every other address of 192.0.0.0/24 is not. */
  lemma ProtocolAssignmentExceptions(d: bv8)
    ensures IsGlobalV4(Ipv4(192, 0, 0, d)) <==> d == 9 || d == 10
  {
    ClassRanges(Ipv4(192, 0, 0, d));
  }

  /** Nothing in 0.0.0.0/8, 100.64.0.0/10, 198.18.0.0/15 or 240.0.0.0/4 is global. */
  lemma NonGlobalV4Blocks(addr: Ipv4)
    ensures addr.a == 0 ==> !IsGlobalV4(addr)
    ensures IsShared(addr) ==> !IsGlobalV4(addr)
    ensures IsBenchmarking(addr) ==> !IsGlobalV4(addr)
    ensures addr.a & 0xf0 == 0xf0 ==> !IsGlobalV4(addr)
  {
    ClassRanges(addr);
  }

  // ---------------------------------------------------------------------------
  // IPv6

  /** ff00::/8 (section 2.7 of RFC 4291). */
  predicate IsMulticast(addr: Ipv6) {
    addr.segments[0] & 0xff00 == 0xff00
  }

  /** ::1 (section 2.5.3 of RFC 4291). */
  predicate IsLoopbackV6(addr: Ipv6) {
    addr.segments == [0, 0, 0, 0, 0, 0, 0, 1]
  }

  /** :: (section 2.5.2 of RFC 4291). */
  predicate IsUnspecified(addr: Ipv6) {
    addr.segments == [0, 0, 0, 0, 0, 0, 0, 0]
  }

  /** The scopes a multicast address can name (section 2.7 of RFC 4291 and RFC 7346). */
  datatype Ipv6MulticastScope =
    | InterfaceLocal | LinkLocal | RealmLocal | AdminLocal | SiteLocal | OrganizationLocal | Global
  {
    /** The value of the scope field that names this scope. */
    function Code(): bv16 {
      match this
      case InterfaceLocal => 1
      case LinkLocal => 2
      case RealmLocal => 3
      case AdminLocal => 4
      case SiteLocal => 5
      case OrganizationLocal => 8
      case Global => 14
    }
  }

  /** The scope of a multicast address, from the low four bits of its first segment; unassigned values give none. */
  function MulticastScope(addr: Ipv6): (r: Option<Ipv6MulticastScope>)
    ensures r.Some? ==> IsMulticast(addr) && r.value.Code() == addr.segments[0] & 0x000f
    ensures IsMulticast(addr) && addr.segments[0] & 0x000f in {1, 2, 3, 4, 5, 8, 14} ==> r.Some?
    ensures !IsMulticast(addr) ==> r.None?
  {
    if IsMulticast(addr) then
      match addr.segments[0] & 0x000f
      case 1 => Some(InterfaceLocal)
      case 2 => Some(LinkLocal)
      case 3 => Some(RealmLocal)
      case 4 => Some(AdminLocal)
      case 5 => Some(SiteLocal)
      case 8 => Some(OrganizationLocal)
      case 14 => Some(Global)
      case _ => None
    else
      None
  }

  /** fe80::/10 (section 2.5.6 of RFC 4291). */
  function IsUnicastLinkLocal(addr: Ipv6): (r: bool)
    ensures r <==> 0xfe80 <= addr.segments[0] <= 0xfebf
  {
    (addr.segments[0] & 0xffc0) == 0xfe80
  }

  /** fc00::/7 (RFC 4193). */
  function IsUniqueLocal(addr: Ipv6): (r: bool)
    ensures r <==> 0xfc00 <= addr.segments[0] <= 0xfdff
  {
    (addr.segments[0] & 0xfe00) == 0xfc00
  }

  /** 2001:db8::/32 (RFC 3849). */
  function IsDocumentationV6(addr: Ipv6): (r: bool)
    ensures r <==> addr.segments[..2] == [0x2001, 0x0db8]
  {
    assert addr.segments[..2] == [addr.segments[0], addr.segments[1]];
    (addr.segments[0] == 0x2001) && (addr.segments[1] == 0xdb8)
  }

  /** A unicast address outside the loopback, link-local, unique-local, unspecified and documentation ranges. */
  function IsUnicastGlobal(addr: Ipv6): bool {
    && !IsMulticast(addr)
    && !IsLoopbackV6(addr)
    && !IsUnicastLinkLocal(addr)
    && !IsUniqueLocal(addr)
    && !IsUnspecified(addr)
    && !IsDocumentationV6(addr)
  }

  /** `is_global` for IPv6. */
  function IsGlobalV6(addr: Ipv6): bool {
    match MulticastScope(addr)
    case Some(Global) => true
    case None => IsUnicastGlobal(addr)
    case _ => false
  }

  /** `is_global`. */
  function IsGlobal(addr: IpAddr): bool {
    match addr
    case V4(a) => IsGlobalV4(a)
    case V6(a) => IsGlobalV6(a)
  }

  /**
    A multicast address is global exactly when its scope field is 14; a
    multicast address with an unassigned scope value is not global either.
   */
  lemma MulticastGlobalIffScope14(addr: Ipv6)
    requires IsMulticast(addr)
    ensures IsGlobalV6(addr) <==> addr.segments[0] & 0x000f == 14
  {
  }

  /** The reference definition for IPv6: by the first segment's range, then loopback, unspecified and documentation. */
  lemma IsGlobalV6Ranges(addr: Ipv6)
    ensures IsGlobalV6(addr) <==>
              if addr.segments[0] >= 0xff00 then addr.segments[0] & 0x000f == 14
              else
                && !(0xfc00 <= addr.segments[0] <= 0xfdff)
                && !(0xfe80 <= addr.segments[0] <= 0xfebf)
                && addr.segments[..2] != [0x2001, 0x0db8]
                && !IsLoopbackV6(addr)
                && !IsUnspecified(addr)
  {
    assert IsMulticast(addr) <==> addr.segments[0] >= 0xff00;
  }
}
