/**
 Decoding stored node announcements: address descriptors and the node_announcement
 layout of BOLT #7, feature bits of BOLT #9 (gossip_tomography/inspect_raw.py).
 */
module Bolt7 {
  import opened Prelude
  import opened Text
  import opened Bytes

  /** Library text decoding, with replacement of invalid sequences. */
  type Utf8 = seq<Byte> -> string

  // ----- Addresses

  datatype Entry = Entry(kind: string, addr: string)

  function HexDigit(d: nat): char
    requires d < 16
  {
    if d < 10 then '0' + d as char else 'a' + (d - 10) as char
  }

  function Hex(bytes: seq<Byte>): string {
    if bytes == [] then ""
    else Hex(bytes[..|bytes| - 1]) + [HexDigit(bytes[|bytes| - 1] / 16), HexDigit(bytes[|bytes| - 1] % 16)]
  }

  function Dotted(ip: seq<Byte>): string
    requires |ip| == 4
  {
    Join([PrintNat(ip[0]), PrintNat(ip[1]), PrintNat(ip[2]), PrintNat(ip[3])], '.')
  }

  /** Eight groups of four hex digits. */
  function Grouped(ip: seq<Byte>): string
    requires |ip| == 16
  {
    Join(seq(8, i requires 0 <= i < 8 => Hex(ip[2 * i..2 * i + 2])), ':')
  }

  function ShowV4(ip: seq<Byte>, port: nat): Entry
    requires |ip| == 4
  {
    Entry("ipv4", Dotted(ip) + ":" + PrintNat(port))
  }

  function ShowV6(ip: seq<Byte>, port: nat): Entry
    requires |ip| == 16
  {
    Entry("ipv6", "[" + Grouped(ip) + "]:" + PrintNat(port))
  }

  function ShowDns(utf8: Utf8, host: seq<Byte>, port: nat): Entry {
    Entry("dns", utf8(host) + ":" + PrintNat(port))
  }

  const TorV2Entry := Entry("torv2", "torv2")
  const TorV3Entry := Entry("torv3", "torv3_onion")

  /** The entry at the start of the data and the number of bytes it takes; None for an
      unknown type or a truncated descriptor. */
  function FirstEntry(utf8: Utf8, data: seq<Byte>): (r: Option<(Entry, nat)>)
    requires data != []
    ensures r.Some? ==> 1 < r.value.1 <= |data|
  {
    if data[0] == 1 then
      if |data| < 7 then None else Some((ShowV4(data[1..5], FromBe(data[5..7])), 7))
    else if data[0] == 2 then
      if |data| < 19 then None else Some((ShowV6(data[1..17], FromBe(data[17..19])), 19))
    else if data[0] == 3 then
      if |data| < 13 then None else Some((TorV2Entry, 13))
    else if data[0] == 4 then
      if |data| < 38 then None else Some((TorV3Entry, 38))
    else if data[0] == 5 then
      if |data| < 2 then None
      else
        var hlen: nat := data[1];
        if |data| < 4 + hlen then None
        else Some((ShowDns(utf8, data[2..2 + hlen], FromBe(data[2 + hlen..4 + hlen])), 4 + hlen))
    else None
  }

  function Entries(utf8: Utf8, data: seq<Byte>): seq<Entry> {
    if data == [] then []
    else
      var first := FirstEntry(utf8, data);
      if first.None? then [] else [first.value.0] + Entries(utf8, data[first.value.1..])
  }

  // The first entry after `off`, in terms of positions in the whole data.

  lemma FirstV4At(utf8: Utf8, data: seq<Byte>, off: nat)
    requires off < |data| && data[off] == 1
    ensures off + 7 > |data| ==> FirstEntry(utf8, data[off..]).None?
    ensures off + 7 <= |data| ==>
              FirstEntry(utf8, data[off..]) == Some((ShowV4(data[off + 1..off + 5], FromBe(data[off + 5..off + 7])), 7))
  {
    var rest := data[off..];
    if off + 7 <= |data| {
      assert rest[1..5] == data[off + 1..off + 5] && rest[5..7] == data[off + 5..off + 7];
    }
  }

  lemma FirstV6At(utf8: Utf8, data: seq<Byte>, off: nat)
    requires off < |data| && data[off] == 2
    ensures off + 19 > |data| ==> FirstEntry(utf8, data[off..]).None?
    ensures off + 19 <= |data| ==>
              FirstEntry(utf8, data[off..])
              == Some((ShowV6(data[off + 1..off + 17], FromBe(data[off + 17..off + 19])), 19))
  {
    hide ShowV6, FromBe;
    var rest := data[off..];
    if off + 19 <= |data| {
      assert rest[1..17] == data[off + 1..off + 17] && rest[17..19] == data[off + 17..off + 19];
    }
  }

  lemma FirstOtherAt(utf8: Utf8, data: seq<Byte>, off: nat)
    requires off < |data| && data[off] != 1 && data[off] != 2
    ensures data[off] == 3 ==>
            FirstEntry(utf8, data[off..]) == if off + 13 > |data| then None else Some((TorV2Entry, 13))
    ensures data[off] == 4 ==>
            FirstEntry(utf8, data[off..]) == if off + 38 > |data| then None else Some((TorV3Entry, 38))
    ensures data[off] == 5 && off + 2 > |data| ==> FirstEntry(utf8, data[off..]).None?
    ensures data[off] < 1 || data[off] > 5 ==> FirstEntry(utf8, data[off..]).None?
  {
  }

  lemma FirstDnsAt(utf8: Utf8, data: seq<Byte>, off: nat, hlen: nat)
    requires off + 1 < |data| && data[off] == 5 && data[off + 1] == hlen
    ensures off + 4 + hlen > |data| ==> FirstEntry(utf8, data[off..]).None?
    ensures off + 4 + hlen <= |data| ==>
              FirstEntry(utf8, data[off..])
              == Some((ShowDns(utf8, data[off + 2..off + 2 + hlen], FromBe(data[off + 2 + hlen..off + 4 + hlen])),
                       4 + hlen))
  {
    hide ShowV4, ShowV6, ShowDns, FromBe;
    var rest := data[off..];
    if off + 4 + hlen <= |data| {
      assert rest[2..2 + hlen] == data[off + 2..off + 2 + hlen];
      assert rest[2 + hlen..4 + hlen] == data[off + 2 + hlen..off + 4 + hlen];
    }
  }

  /** What the loop has after one more descriptor. */
  lemma EntriesAt(utf8: Utf8, addrs: seq<Entry>, data: seq<Byte>, off: nat)
    requires off < |data|
    ensures var first := FirstEntry(utf8, data[off..]);
            addrs + Entries(utf8, data[off..])
            == if first.None? then addrs else (addrs + [first.value.0]) + Entries(utf8, data[off + first.value.1..])
  {
    hide FirstEntry;
    var first := FirstEntry(utf8, data[off..]);
    if first.Some? {
      assert data[off..][first.value.1..] == data[off + first.value.1..];
    }
  }

  /** The loop, one descriptor at a time; it stops at the first that cannot be read. */
  method ParseAddresses(utf8: Utf8, data: seq<Byte>) returns (addrs: seq<Entry>)
    ensures addrs == Entries(utf8, data)
  {
    hide FirstEntry;
    addrs := [];
    var off := 0;
    while off < |data|
      invariant 0 <= off <= |data|
      invariant Entries(utf8, data) == addrs + Entries(utf8, data[off..])
    {
      hide Entries;
      EntriesAt(utf8, addrs, data, off);
      var entry, next := ParseDescriptor(utf8, data, off);
      if entry.None? {
        break;
      }
      addrs := addrs + [entry.value];
      off := next;
    }
  }

  /** One pass through the loop body, starting at a type byte. */
  method ParseDescriptor(utf8: Utf8, data: seq<Byte>, start: nat) returns (entry: Option<Entry>, off: nat)
    requires start < |data|
    ensures match FirstEntry(utf8, data[start..])
            case None => entry == None
            case Some(first) => entry == Some(first.0) && off == start + first.1 <= |data|
  {
    hide ShowV4, ShowV6, ShowDns, FromBe, FirstEntry;
    entry := None;
    var addrType := data[start];
    off := start + 1;
    if addrType == 1 {
      FirstV4At(utf8, data, start);
      if off + 6 > |data| { return; }
      entry := Some(ShowV4(data[off..off + 4], FromBe(data[off + 4..off + 6])));
      off := off + 6;
    } else if addrType == 2 {
      FirstV6At(utf8, data, start);
      if off + 18 > |data| { return; }
      entry := Some(ShowV6(data[off..off + 16], FromBe(data[off + 16..off + 18])));
      off := off + 18;
    } else if addrType == 3 {
      FirstOtherAt(utf8, data, start);
      if off + 12 > |data| { return; }
      entry := Some(TorV2Entry);
      off := off + 12;
    } else if addrType == 4 {
      FirstOtherAt(utf8, data, start);
      if off + 37 > |data| { return; }
      entry := Some(TorV3Entry);
      off := off + 37;
    } else if addrType == 5 {
      FirstOtherAt(utf8, data, start);
      if off + 1 > |data| { return; }
      var hlen: nat := data[off];
      FirstDnsAt(utf8, data, start, hlen);
      off := off + 1;
      if off + hlen + 2 > |data| { return; }
      entry := Some(ShowDns(utf8, data[off..off + hlen], FromBe(data[off + hlen..off + hlen + 2])));
      off := off + hlen + 2;
    } else {
      FirstOtherAt(utf8, data, start);
    }
  }

  /** An address descriptor. */
  datatype Address =
    | V4(ip: seq<Byte>, port: nat)
    | V6(ip: seq<Byte>, port: nat)
    | OnionV2(blob: seq<Byte>)
    | OnionV3(blob: seq<Byte>)
    | Dns(host: seq<Byte>, port: nat)

  predicate WellFormed(a: Address) {
    match a
    case V4(ip, port) => |ip| == 4 && port < 0x1_0000
    case V6(ip, port) => |ip| == 16 && port < 0x1_0000
    case OnionV2(blob) => |blob| == 12
    case OnionV3(blob) => |blob| == 37
    case Dns(host, port) => |host| < 256 && port < 0x1_0000
  }

  function Encode(a: Address): seq<Byte>
    requires WellFormed(a)
  {
    match a
    case V4(ip, port) => [1] + ip + ToBe(port, 2)
    case V6(ip, port) => [2] + ip + ToBe(port, 2)
    case OnionV2(blob) => [3] + blob
    case OnionV3(blob) => [4] + blob
    case Dns(host, port) => [5, |host|] + host + ToBe(port, 2)
  }

  function Show(utf8: Utf8, a: Address): Entry
    requires WellFormed(a)
  {
    match a
    case V4(ip, port) => ShowV4(ip, port)
    case V6(ip, port) => ShowV6(ip, port)
    case OnionV2(_) => TorV2Entry
    case OnionV3(_) => TorV3Entry
    case Dns(host, port) => ShowDns(utf8, host, port)
  }

  function EncodeAll(list: seq<Address>): seq<Byte>
    requires forall a :: a in list ==> WellFormed(a)
  {
    if list == [] then [] else Encode(list[0]) + EncodeAll(list[1..])
  }

  function ShowAll(utf8: Utf8, list: seq<Address>): seq<Entry>
    requires forall a :: a in list ==> WellFormed(a)
  {
    if list == [] then [] else [Show(utf8, list[0])] + ShowAll(utf8, list[1..])
  }

  /** Data at which parsing stops: none, an unknown type, or a descriptor cut short. */
  ghost predicate Stops(tail: seq<Byte>) {
    || tail == []
    || !(1 <= tail[0] <= 5)
    || exists a :: WellFormed(a) && tail < Encode(a)
  }

  lemma PortRoundTrip(port: nat)
    requires port < 0x1_0000
    ensures FromBe(ToBe(port, 2)) == port
  {
    FromToBe(port, 2);
  }

  /** An encoded descriptor is read back whole, whatever follows it. */
  lemma FirstOfEncoded(utf8: Utf8, a: Address, rest: seq<Byte>)
    requires WellFormed(a)
    ensures Encode(a) != [] && FirstEntry(utf8, Encode(a) + rest) == Some((Show(utf8, a), |Encode(a)|))
  {
    hide ShowV4, ShowV6, ShowDns, FromBe, ToBe;
    var d := Encode(a) + rest;
    match a
    case V4(ip, port) =>
      PortRoundTrip(port);
      assert d[1..5] == ip && d[5..7] == ToBe(port, 2);
    case V6(ip, port) =>
      PortRoundTrip(port);
      assert d[1..17] == ip && d[17..19] == ToBe(port, 2);
    case OnionV2(blob) =>
    case OnionV3(blob) =>
    case Dns(host, port) =>
      PortRoundTrip(port);
      assert d[2..2 + |host|] == host && d[2 + |host|..4 + |host|] == ToBe(port, 2);
  }

  lemma NothingOfTail(utf8: Utf8, tail: seq<Byte>)
    requires Stops(tail)
    ensures Entries(utf8, tail) == []
  {
    if tail != [] && 1 <= tail[0] <= 5 {
      var a :| WellFormed(a) && tail < Encode(a);
      assert tail[0] == Encode(a)[0];
      if a.Dns? && |tail| >= 2 {
        assert tail[1] == Encode(a)[1];
      }
    }
  }

  /** Every list of well-formed descriptors, followed by nothing, an unknown type or a
      truncated descriptor, parses to exactly its types and displayed addresses. */
  lemma {:induction false} AddressesRoundTrip(utf8: Utf8, list: seq<Address>, tail: seq<Byte>)
    requires (forall a :: a in list ==> WellFormed(a)) && Stops(tail)
    ensures Entries(utf8, EncodeAll(list) + tail) == ShowAll(utf8, list)
  {
    if list == [] {
      assert EncodeAll(list) + tail == tail;
      NothingOfTail(utf8, tail);
    } else {
      var rest := EncodeAll(list[1..]) + tail;
      EntriesOfEncoded(utf8, list[0], rest);
      AddressesRoundTrip(utf8, list[1..], tail);
      hide Encode, FirstEntry, Show, Entries;
      assert EncodeAll(list) + tail == Encode(list[0]) + rest;
    }
  }

  lemma EntriesOfEncoded(utf8: Utf8, a: Address, rest: seq<Byte>)
    requires WellFormed(a)
    ensures Entries(utf8, Encode(a) + rest) == [Show(utf8, a)] + Entries(utf8, rest)
  {
    FirstOfEncoded(utf8, a, rest);
    hide Encode, FirstEntry, Show;
    assert (Encode(a) + rest)[|Encode(a)|..] == rest;
  }

  // ----- What is displayed identifies what was encoded

  lemma {:induction false} HexInjective(a: seq<Byte>, b: seq<Byte>)
    requires Hex(a) == Hex(b)
    ensures a == b
  {
    HexLength(a);
    HexLength(b);
    if a != [] {
      var n := |a| - 1;
      assert Hex(a)[..2 * n] == Hex(a[..n]) && Hex(b)[..2 * n] == Hex(b[..n]);
      assert Hex(a)[2 * n] == Hex(b)[2 * n] && Hex(a)[2 * n + 1] == Hex(b)[2 * n + 1];
      HexDigitInjective(a[n] / 16, b[n] / 16);
      HexDigitInjective(a[n] % 16, b[n] % 16);
      HexInjective(a[..n], b[..n]);
      assert a == a[..n] + [a[n]] && b == b[..n] + [b[n]];
    }
  }

  lemma HexDigitInjective(d: nat, e: nat)
    requires d < 16 && e < 16 && HexDigit(d) == HexDigit(e)
    ensures d == e
  {
  }

  lemma {:induction false} HexLength(a: seq<Byte>)
    ensures |Hex(a)| == 2 * |a| && forall c :: c in Hex(a) ==> c != ':'
  {
    if a != [] {
      HexLength(a[..|a| - 1]);
    }
  }

  /** The dotted form reads back as the four address bytes. */
  lemma DottedReadsBack(ip: seq<Byte>, i: nat)
    requires |ip| == 4 && i < 4
    ensures |Split(Dotted(ip), '.')| == 4 && Value(Split(Dotted(ip), '.')[i]) == Some(ip[i])
  {
    var parts := [PrintNat(ip[0]), PrintNat(ip[1]), PrintNat(ip[2]), PrintNat(ip[3])];
    PrintNatDigits(ip[0]);
    PrintNatDigits(ip[1]);
    PrintNatDigits(ip[2]);
    PrintNatDigits(ip[3]);
    hide PrintNat, Value;
    SplitJoin(parts, '.');
  }

  /** The colon-separated groups determine the sixteen address bytes. */
  lemma GroupedInjective(a: seq<Byte>, b: seq<Byte>)
    requires |a| == 16 && |b| == 16 && Grouped(a) == Grouped(b)
    ensures a == b
  {
    GroupsOf(a);
    GroupsOf(b);
    hide Grouped, Split, Hex;
    forall i | 0 <= i < 16 ensures a[i] == b[i] {
      var k := i / 2;
      assert Split(Grouped(a), ':')[k] == Hex(a[2 * k..2 * k + 2]);
      assert Split(Grouped(b), ':')[k] == Hex(b[2 * k..2 * k + 2]);
      HexInjective(a[2 * k..2 * k + 2], b[2 * k..2 * k + 2]);
      assert a[2 * k..2 * k + 2][i - 2 * k] == b[2 * k..2 * k + 2][i - 2 * k];
    }
  }

  lemma GroupsOf(ip: seq<Byte>)
    requires |ip| == 16
    ensures |Split(Grouped(ip), ':')| == 8
    ensures forall i :: 0 <= i < 8 ==> Split(Grouped(ip), ':')[i] == Hex(ip[2 * i..2 * i + 2])
  {
    var parts := seq(8, i requires 0 <= i < 8 => Hex(ip[2 * i..2 * i + 2]));
    forall p | p in parts ensures ':' !in p {
      var i :| 0 <= i < 8 && parts[i] == p;
      HexLength(ip[2 * i..2 * i + 2]);
    }
    SplitJoin(parts, ':');
  }

  /** Two digits per byte, most significant first. */
  lemma {:induction false} HexOf(bytes: seq<Byte>, i: nat)
    requires i < |bytes|
    ensures |Hex(bytes)| == 2 * |bytes|
    ensures Hex(bytes)[2 * i] == "0123456789abcdef"[bytes[i] / 16]
    ensures Hex(bytes)[2 * i + 1] == "0123456789abcdef"[bytes[i] % 16]
  {
    var n := |bytes| - 1;
    HexLength(bytes);
    HexLength(bytes[..n]);
    HexDigitOf(bytes[i] / 16);
    HexDigitOf(bytes[i] % 16);
    if i < n {
      HexOf(bytes[..n], i);
    }
  }

  lemma HexDigitOf(d: nat)
    requires d < 16
    ensures HexDigit(d) == "0123456789abcdef"[d]
  {
  }

  /** A displayed entry says its kind and, for the kinds that have them, host and port: the
      port is what follows the last colon, in decimal. */
  ghost predicate Displays(utf8: Utf8, a: Address, e: Entry)
    requires WellFormed(a)
  {
    match a
    case V4(ip, port) =>
      && e.kind == "ipv4"
      && exists host, p :: HostPort(e.addr, host, p, port) && IsDotted(ip, host)
    case V6(ip, port) =>
      && e.kind == "ipv6"
      && exists host, p :: HostPort(e.addr, "[" + host + "]", p, port) && IsGrouped(ip, host)
    case OnionV2(_) => e.kind == "torv2" && e.addr == "torv2"
    case OnionV3(_) => e.kind == "torv3" && e.addr == "torv3_onion"
    case Dns(bytes, port) =>
      && e.kind == "dns"
      && exists p :: HostPort(e.addr, utf8(bytes), p, port)
  }

  ghost predicate HostPort(addr: string, host: string, p: string, port: nat) {
    addr == host + [':'] + p && Value(p) == Some(port)
  }

  /** Four decimal numbers between dots. */
  ghost predicate IsDotted(ip: seq<Byte>, host: string)
    requires |ip| == 4
  {
    |Split(host, '.')| == 4 && forall i :: 0 <= i < 4 ==> Value(Split(host, '.')[i]) == Some(ip[i])
  }

  /** Eight pairs of bytes in hexadecimal between colons. */
  ghost predicate IsGrouped(ip: seq<Byte>, host: string)
    requires |ip| == 16
  {
    |Split(host, ':')| == 8 && forall i :: 0 <= i < 8 ==> Split(host, ':')[i] == Hex(ip[2 * i..2 * i + 2])
  }

  lemma ShowDisplays(utf8: Utf8, a: Address)
    requires WellFormed(a)
    ensures Displays(utf8, a, Show(utf8, a))
  {
    var e := Show(utf8, a);
    match a
    case V4(ip, port) =>
      PrintNatDigits(port);
      forall i | 0 <= i < 4
        ensures |Split(Dotted(ip), '.')| == 4 && Value(Split(Dotted(ip), '.')[i]) == Some(ip[i])
      {
        DottedReadsBack(ip, i);
      }
      hide Dotted, Split, Value, PrintNat;
      assert HostPort(e.addr, Dotted(ip), PrintNat(port), port) && IsDotted(ip, Dotted(ip));
    case V6(ip, port) =>
      PrintNatDigits(port);
      GroupsOf(ip);
      hide Grouped, Split, Value, PrintNat, Hex;
      assert e.addr == ("[" + Grouped(ip) + "]") + [':'] + PrintNat(port);
      assert HostPort(e.addr, "[" + Grouped(ip) + "]", PrintNat(port), port) && IsGrouped(ip, Grouped(ip));
    case Dns(host, port) =>
      PrintNatDigits(port);
      assert HostPort(e.addr, utf8(host), PrintNat(port), port);
    case _ =>
  }

  /** The layout of a descriptor: a type byte, then the address, and the port for the kinds
      that have one, a hostname being preceded by its length. */
  lemma DescriptorLayout(a: Address)
    requires WellFormed(a)
    ensures Encode(a) != []
    ensures a.V4? ==>
              |Encode(a)| == 7 && Encode(a)[0] == 1 && Encode(a)[1..5] == a.ip && FromBe(Encode(a)[5..7]) == a.port
    ensures a.V6? ==>
              |Encode(a)| == 19 && Encode(a)[0] == 2 && Encode(a)[1..17] == a.ip && FromBe(Encode(a)[17..19]) == a.port
    ensures a.OnionV2? ==> |Encode(a)| == 13 && Encode(a)[0] == 3
    ensures a.OnionV3? ==> |Encode(a)| == 38 && Encode(a)[0] == 4
    ensures a.Dns? ==>
              && |Encode(a)| == 4 + |a.host| && Encode(a)[0] == 5 && Encode(a)[1] == |a.host|
              && Encode(a)[2..2 + |a.host|] == a.host && FromBe(Encode(a)[2 + |a.host|..]) == a.port
  {
    hide FromBe, ToBe;
    match a
    case V4(ip, port) =>
      PortRoundTrip(port);
      assert Encode(a)[5..7] == ToBe(port, 2);
    case V6(ip, port) =>
      PortRoundTrip(port);
      assert Encode(a)[17..19] == ToBe(port, 2);
    case Dns(host, port) =>
      PortRoundTrip(port);
      assert Encode(a)[2 + |host|..] == ToBe(port, 2);
    case _ =>
  }

  /** Parsing in terms of what is displayed: the entries of encoded descriptors, whatever
      stops the parser after them, display those descriptors one by one. */
  lemma ParsedEntriesDisplay(utf8: Utf8, list: seq<Address>, tail: seq<Byte>, i: nat)
    requires (forall a :: a in list ==> WellFormed(a)) && Stops(tail) && i < |list|
    ensures |Entries(utf8, EncodeAll(list) + tail)| == |list|
    ensures Displays(utf8, list[i], Entries(utf8, EncodeAll(list) + tail)[i])
  {
    AddressesRoundTrip(utf8, list, tail);
    ShowAllAt(utf8, list, i);
    ShowDisplays(utf8, list[i]);
  }

  lemma {:induction false} ShowAllAt(utf8: Utf8, list: seq<Address>, i: nat)
    requires (forall a :: a in list ==> WellFormed(a)) && i < |list|
    ensures |ShowAll(utf8, list)| == |list| && ShowAll(utf8, list)[i] == Show(utf8, list[i])
  {
    hide Show;
    if |list| > 1 {
      ShowAllAt(utf8, list[1..], if i == 0 then 0 else i - 1);
    } else {
      assert list[1..] == [];
    }
  }

  // ----- Feature bits

  datatype Kind = Compulsory | Optional

  function KnownFeature(pair: nat): Option<string> {
    match pair
    case 0 => Some("data_loss_protect")
    case 2 => Some("upfront_shutdown_script")
    case 3 => Some("gossip_queries")
    case 4 => Some("tlv_onion")
    case 5 => Some("gossip_queries_ex")
    case 6 => Some("static_remote_key")
    case 7 => Some("payment_secret")
    case 8 => Some("basic_mpp")
    case 9 => Some("large_channels")
    case 10 => Some("anchor_outputs")
    case 11 => Some("anchors_zero_fee_htlc_tx")
    case 12 => Some("route_blinding")
    case 13 => Some("shutdown_anysegwit")
    case 14 => Some("dual_fund")
    case 22 => Some("channel_type")
    case 23 => Some("scid_alias")
    case 24 => Some("payment_metadata")
    case 25 => Some("zero_conf")
    case _ => None
  }

  function FeatureName(bit: nat): string {
    var known := KnownFeature(bit / 2);
    if known.Some? then known.value else "unknown_bit_" + PrintNat(bit)
  }

  /** The names of BOLT #9, one per pair of bits; other bits are named by their number. */
  lemma FeatureNames(bit: nat)
    ensures bit / 2 == 0 ==> FeatureName(bit) == "data_loss_protect"
    ensures bit / 2 == 2 ==> FeatureName(bit) == "upfront_shutdown_script"
    ensures bit / 2 == 3 ==> FeatureName(bit) == "gossip_queries"
    ensures bit / 2 == 4 ==> FeatureName(bit) == "tlv_onion"
    ensures bit / 2 == 5 ==> FeatureName(bit) == "gossip_queries_ex"
    ensures bit / 2 == 6 ==> FeatureName(bit) == "static_remote_key"
    ensures bit / 2 == 7 ==> FeatureName(bit) == "payment_secret"
    ensures bit / 2 == 8 ==> FeatureName(bit) == "basic_mpp"
    ensures bit / 2 == 9 ==> FeatureName(bit) == "large_channels"
    ensures bit / 2 == 10 ==> FeatureName(bit) == "anchor_outputs"
    ensures bit / 2 == 11 ==> FeatureName(bit) == "anchors_zero_fee_htlc_tx"
    ensures bit / 2 == 12 ==> FeatureName(bit) == "route_blinding"
    ensures bit / 2 == 13 ==> FeatureName(bit) == "shutdown_anysegwit"
    ensures bit / 2 == 14 ==> FeatureName(bit) == "dual_fund"
    ensures bit / 2 == 22 ==> FeatureName(bit) == "channel_type"
    ensures bit / 2 == 23 ==> FeatureName(bit) == "scid_alias"
    ensures bit / 2 == 24 ==> FeatureName(bit) == "payment_metadata"
    ensures bit / 2 == 25 ==> FeatureName(bit) == "zero_conf"
    ensures bit / 2 == 1 || 15 <= bit / 2 <= 21 || bit / 2 > 25 ==> FeatureName(bit) == "unknown_bit_" + PrintNat(bit)
  {
  }

  function KindOf(bit: nat): Kind {
    if bit % 2 == 0 then Compulsory else Optional
  }

  /** Features of the bits of `val`, the lowest being bit `bit`; a later bit of the same
      name overwrites an earlier one. */
  function Features(val: nat, bit: nat): map<string, Kind> {
    if val == 0 then map[]
    else
      var rest := Features(val / 2, bit + 1);
      if val % 2 == 1 then map[FeatureName(bit) := KindOf(bit)] + rest else rest
  }

  method DecodeFeatures(bytes: seq<Byte>) returns (features: map<string, Kind>)
    ensures features == Features(FromBe(bytes), 0)
  {
    hide FeatureName, KindOf;
    features := map[];
    var bit, val := 0, FromBe(bytes);
    while val > 0
      invariant Features(FromBe(bytes), 0) == features + Features(val, bit)
    {
      if val % 2 == 1 {
        features := features[FeatureName(bit) := KindOf(bit)];
      }
      val := val / 2;
      bit := bit + 1;
    }
  }

  ghost predicate NamedBit(val: nat, bit: nat, name: string, b: nat) {
    Bit(val, b) && FeatureName(bit + b) == name
  }

  /** A name is in the map iff one of its bits is set. */
  lemma {:induction false} FeaturePresent(val: nat, bit: nat, name: string)
    ensures name in Features(val, bit) <==> exists b: nat :: NamedBit(val, bit, name, b)
  {
    hide FeatureName, KindOf;
    if val == 0 {
      forall b: nat ensures !NamedBit(val, bit, name, b) {
        ZeroHasNoBits(b);
      }
    } else {
      FeaturePresent(val / 2, bit + 1, name);
      var half, next := val / 2, bit + 1;
      if b: nat :| NamedBit(half, next, name, b) {
        assert bit + 1 + b == bit + (b + 1);
        assert NamedBit(val, bit, name, b + 1);
      }
      if b: nat :| NamedBit(val, bit, name, b) {
        if b > 0 {
          assert bit + 1 + (b - 1) == bit + b;
          assert NamedBit(val / 2, bit + 1, name, b - 1);
        }
      }
      if val % 2 == 1 && FeatureName(bit) == name {
        assert NamedBit(val, bit, name, 0);
      }
    }
  }

  /** Its kind is that of the last such bit. */
  lemma {:induction false} FeatureKind(val: nat, bit: nat, name: string, b: nat)
    requires NamedBit(val, bit, name, b) && forall c: nat :: c > b ==> !NamedBit(val, bit, name, c)
    ensures name in Features(val, bit) && Features(val, bit)[name] == KindOf(bit + b)
  {
    hide FeatureName, KindOf;
    if val == 0 {
      ZeroHasNoBits(b);
    } else {
      var half, next := val / 2, bit + 1;
      forall c: nat | c >= b ensures !NamedBit(half, next, name, c) {
        assert bit + 1 + c == bit + (c + 1);
        assert !NamedBit(val, bit, name, c + 1);
      }
      if b == 0 {
        FeaturePresent(val / 2, bit + 1, name);
      } else {
        assert bit + 1 + (b - 1) == bit + b;
        FeatureKind(val / 2, bit + 1, name, b - 1);
      }
    }
  }

  /** Bit `b` of a big-endian bit vector. */
  ghost predicate BitSet(bytes: seq<Byte>, b: nat) {
    b / 8 < |bytes| && Bit(bytes[|bytes| - 1 - b / 8], b % 8)
  }

  lemma NamedBitOfBytes(bytes: seq<Byte>, name: string, b: nat)
    ensures NamedBit(FromBe(bytes), 0, name, b) <==> BitSet(bytes, b) && FeatureName(b) == name
  {
    BitOfBytes(bytes, b);
  }

  /** A feature is in the map of a bit vector iff one of its bits is set in the bytes. */
  lemma FeatureInMap(bytes: seq<Byte>, name: string)
    ensures name in Features(FromBe(bytes), 0) <==> exists b: nat :: BitSet(bytes, b) && FeatureName(b) == name
  {
    hide FeatureName, FromBe, Features, BitSet, NamedBit;
    FeaturePresent(FromBe(bytes), 0, name);
    forall b: nat ensures NamedBit(FromBe(bytes), 0, name, b) <==> BitSet(bytes, b) && FeatureName(b) == name {
      NamedBitOfBytes(bytes, name, b);
    }
  }

  /** And it is optional iff the last of its bits that is set is odd. */
  lemma FeatureIsOptional(bytes: seq<Byte>, b: nat)
    requires BitSet(bytes, b) && forall c: nat :: c > b && BitSet(bytes, c) ==> FeatureName(c) != FeatureName(b)
    ensures FeatureName(b) in Features(FromBe(bytes), 0)
    ensures Features(FromBe(bytes), 0)[FeatureName(b)] == Optional <==> b % 2 == 1
  {
    hide FeatureName, FromBe, Features, BitSet, NamedBit;
    var name := FeatureName(b);
    NamedBitOfBytes(bytes, name, b);
    forall c: nat | c > b ensures !NamedBit(FromBe(bytes), 0, name, c) {
      NamedBitOfBytes(bytes, name, c);
    }
    FeatureKind(FromBe(bytes), 0, name, b);
  }

  // ----- Whole announcements

  datatype NodeInfo =
    NodeInfo(
      nodeId: string,
      alias: string,
      rgb: string,
      timestamp: nat,
      flen: nat,
      featuresHex: string,
      features: map<string, Kind>,
      addresses: seq<Entry>)

  function StripZeros(bytes: seq<Byte>): seq<Byte> {
    if bytes != [] && bytes[|bytes| - 1] == 0 then StripZeros(bytes[..|bytes| - 1]) else bytes
  }

  /** Exactly the trailing zeros are stripped. */
  lemma {:induction false} StripZerosOf(bytes: seq<Byte>)
    ensures StripZeros(bytes) <= bytes
    ensures forall i :: |StripZeros(bytes)| <= i < |bytes| ==> bytes[i] == 0
    ensures StripZeros(bytes) != [] ==> StripZeros(bytes)[|StripZeros(bytes)| - 1] != 0
  {
    if bytes != [] && bytes[|bytes| - 1] == 0 {
      StripZerosOf(bytes[..|bytes| - 1]);
    }
  }

  const FIXED := 2 + 4 + 33 + 3 + 32 + 2

  function Describe(utf8: Utf8, features: seq<Byte>, timestamp: nat, nodeId: seq<Byte>, rgb: seq<Byte>,
                    alias: seq<Byte>, addresses: seq<Entry>): NodeInfo {
    NodeInfo(Hex(nodeId), utf8(StripZeros(alias)), "#" + Hex(rgb), timestamp, |features|, Hex(features),
             Features(FromBe(features), 0), addresses)
  }

  /** Slicing past the end is cut at the end. */
  function Slice(s: seq<Byte>, from: nat, len: nat): seq<Byte>
    requires from <= |s|
  {
    if from + len <= |s| then s[from..from + len] else s[from..]
  }

  /** The fields of a stored announcement; None when the raw bytes are too short for
      the fixed fields and the announced number of feature bytes. */
  function ParsedNode(utf8: Utf8, raw: seq<Byte>): Option<NodeInfo> {
    if |raw| < FIXED then None
    else
      var flen := FromBe(raw[..2]);
      if |raw| < FIXED + flen then None
      else Some(Describe(utf8, raw[2..2 + flen], FromBe(raw[2 + flen..6 + flen]), raw[6 + flen..39 + flen],
                         raw[39 + flen..42 + flen], raw[42 + flen..74 + flen],
                         Entries(utf8, Slice(raw, FIXED + flen, FromBe(raw[74 + flen..76 + flen])))))
  }

  /** The stored layout: flen(2), features(flen), timestamp(4), node id(33), rgb(3),
      alias(32), addrlen(2), addresses. */
  ghost predicate HasFields(utf8: Utf8, raw: seq<Byte>, r: NodeInfo)
    requires |raw| >= 2 && |raw| >= 76 + FromBe(raw[..2])
  {
    var f := FromBe(raw[..2]);
    && r.flen == f && r.featuresHex == Hex(raw[2..2 + f]) && r.features == Features(FromBe(raw[2..2 + f]), 0)
    && r.timestamp == FromBe(raw[2 + f..6 + f])
    && r.nodeId == Hex(raw[6 + f..39 + f])
    && r.rgb == "#" + Hex(raw[39 + f..42 + f])
    && r.alias == utf8(StripZeros(raw[42 + f..74 + f]))
    && r.addresses == Entries(utf8, Slice(raw, 76 + f, FromBe(raw[74 + f..76 + f])))
  }

  method ParseNodeAnnouncement(utf8: Utf8, raw: seq<Byte>) returns (r: Option<NodeInfo>)
    ensures r == ParsedNode(utf8, raw)
    ensures r.Some? <==> |raw| >= 76 && |raw| >= 76 + FromBe(raw[..2])
    ensures r.Some? ==> HasFields(utf8, raw, r.value)
  {
    hide Entries, Features, Hex, StripZeros;
    if |raw| < FIXED {
      return None;
    }
    var off := 0;
    var flen := FromBe(raw[off..off + 2]);
    off := off + 2;
    if off + flen + 4 + 33 + 3 + 32 + 2 > |raw| {
      return None;
    }
    var features := raw[off..off + flen];
    off := off + flen;
    var timestamp := FromBe(raw[off..off + 4]);
    off := off + 4;
    var nodeId := raw[off..off + 33];
    off := off + 33;
    var rgb := raw[off..off + 3];
    off := off + 3;
    var alias := raw[off..off + 32];
    off := off + 32;
    var addrlen := FromBe(raw[off..off + 2]);
    off := off + 2;
    var addresses := ParseAddresses(utf8, Slice(raw, off, addrlen));
    var decoded := DecodeFeatures(features);
    r := Some(NodeInfo(Hex(nodeId), utf8(StripZeros(alias)), "#" + Hex(rgb), timestamp, flen, Hex(features),
                       decoded, addresses));
  }

  /** The announcement as stored: signature stripped. */
  datatype Announcement =
    Announcement(features: seq<Byte>, timestamp: nat, nodeId: seq<Byte>, rgb: seq<Byte>, alias: seq<Byte>,
        addresses: seq<Address>)

  predicate WellFormedAnnouncement(n: Announcement) {
    && |n.features| < 0x1_0000 && n.timestamp < 0x1_0000_0000
    && |n.nodeId| == 33 && |n.rgb| == 3 && |n.alias| == 32
    && (forall a :: a in n.addresses ==> WellFormed(a))
    && |EncodeAll(n.addresses)| < 0x1_0000
  }

  function EncodeAnnouncement(n: Announcement): seq<Byte>
    requires WellFormedAnnouncement(n)
  {
    ToBe(|n.features|, 2) + n.features + ToBe(n.timestamp, 4) + n.nodeId
    + (n.rgb + n.alias + ToBe(|EncodeAll(n.addresses)|, 2) + EncodeAll(n.addresses))
  }

  /** A whole encoded announcement, whatever follows it, parses to its fields. */
  lemma AnnouncementRoundTrip(utf8: Utf8, n: Announcement, extra: seq<Byte>)
    requires WellFormedAnnouncement(n)
    ensures ParsedNode(utf8, EncodeAnnouncement(n) + extra).Some?
    ensures var r := ParsedNode(utf8, EncodeAnnouncement(n) + extra).value;
            && r.flen == |n.features| && r.featuresHex == Hex(n.features)
            && r.features == Features(FromBe(n.features), 0)
            && r.timestamp == n.timestamp && r.nodeId == Hex(n.nodeId) && r.rgb == "#" + Hex(n.rgb)
            && r.alias == utf8(StripZeros(n.alias)) && r.addresses == ShowAll(utf8, n.addresses)
  {
    DescribedBy(utf8, n.features, n.timestamp, n.nodeId, n.rgb, n.alias, ShowAll(utf8, n.addresses));
    EncodedFields(n, extra);
    hide Describe, Entries, ShowAll, EncodeAll, FromBe;
    AddressesRoundTrip(utf8, n.addresses, []);
    assert EncodeAll(n.addresses) + [] == EncodeAll(n.addresses);
  }

  lemma DescribedBy(utf8: Utf8, features: seq<Byte>, timestamp: nat, nodeId: seq<Byte>, rgb: seq<Byte>,
                    alias: seq<Byte>, addresses: seq<Entry>)
    ensures var r := Describe(utf8, features, timestamp, nodeId, rgb, alias, addresses);
            && r.flen == |features| && r.featuresHex == Hex(features) && r.features == Features(FromBe(features), 0)
            && r.timestamp == timestamp && r.nodeId == Hex(nodeId) && r.rgb == "#" + Hex(rgb)
            && r.alias == utf8(StripZeros(alias)) && r.addresses == addresses
  {
  }

  lemma EncodedFields(n: Announcement, extra: seq<Byte>)
    requires WellFormedAnnouncement(n)
    ensures var raw, f, a := EncodeAnnouncement(n) + extra, |n.features|, EncodeAll(n.addresses);
            && |raw| == FIXED + f + |a| + |extra|
            && FromBe(raw[..2]) == f && raw[2..2 + f] == n.features && FromBe(raw[2 + f..6 + f]) == n.timestamp
            && raw[6 + f..39 + f] == n.nodeId && raw[39 + f..42 + f] == n.rgb && raw[42 + f..74 + f] == n.alias
            && FromBe(raw[74 + f..76 + f]) == |a| && Slice(raw, FIXED + f, |a|) == a
  {
    var f, a := |n.features|, EncodeAll(n.addresses);
    FromToBe(f, 2);
    FromToBe(n.timestamp, 4);
    FromToBe(|a|, 2);
    hide FromBe, ToBe, EncodeAll;
    LeadingFields(ToBe(f, 2), n.features, ToBe(n.timestamp, 4), n.nodeId, n.rgb + n.alias + ToBe(|a|, 2) + a + extra);
    TrailingFields(ToBe(f, 2) + n.features + ToBe(n.timestamp, 4) + n.nodeId, n.rgb, n.alias, ToBe(|a|, 2), a, extra);
    Assoc(ToBe(f, 2) + n.features + ToBe(n.timestamp, 4) + n.nodeId, n.rgb + n.alias + ToBe(|a|, 2) + a, extra);
  }

  lemma Assoc(a: seq<Byte>, b: seq<Byte>, c: seq<Byte>)
    ensures a + b + c == a + (b + c)
  {
  }

  lemma LeadingFields(flen: seq<Byte>, features: seq<Byte>, timestamp: seq<Byte>, nodeId: seq<Byte>, rest: seq<Byte>)
    requires |flen| == 2 && |timestamp| == 4 && |nodeId| == 33
    ensures var raw, f := flen + features + timestamp + nodeId + rest, |features|;
            raw[..2] == flen && raw[2..2 + f] == features && raw[2 + f..6 + f] == timestamp
            && raw[6 + f..39 + f] == nodeId
  {
  }

  lemma TrailingFields(pre: seq<Byte>, rgb: seq<Byte>, alias: seq<Byte>, addrlen: seq<Byte>, addrs: seq<Byte>,
      extra: seq<Byte>)
    requires |rgb| == 3 && |alias| == 32 && |addrlen| == 2
    ensures var raw, p := pre + (rgb + alias + addrlen + addrs + extra), |pre|;
            && raw[p..p + 3] == rgb && raw[p + 3..p + 35] == alias && raw[p + 35..p + 37] == addrlen
            && raw[p + 37..p + 37 + |addrs|] == addrs
  {
  }
}
