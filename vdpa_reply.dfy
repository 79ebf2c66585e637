/**
 * Reading the kernel's replies in the vdpa tool: the type-indexed table
 * attr_cb fills, the checks the show callbacks make before printing, and
 * the labels the printers compute (feature names, supported classes,
 * device types, queue types, the vendor statistics walk).
 *
 * The printers themselves are not modelled; each is replaced by the value
 * it would print.
 */
module VdpaReply {
  import opened Types
  import opened Netlink
  import opened VdpaUapi
  import VdpaOptions

  // ---------------------------------------------------------------------
  // Attribute validation (vdpa_policy, mnl_attr_validate)

  /** The libmnl data types the vdpa policy uses. */
  datatype MnlType = Unspec | NulString | Str | TypeU16 | TypeU32 | TypeU64

  /** vdpa_policy: the expected type of each attribute up to VDPA_ATTR_MAX. */
  function Policy(t: nat): MnlType
  {
    if t == AttrMgmtdevBusName as nat || t == AttrMgmtdevDevName as nat then NulString
    else if t == AttrDevName as nat then Str
    else if t == AttrDevId as nat || t == AttrDevVendorId as nat || t == AttrDevMaxVqs as nat
         || t == AttrDevMgmtdevMaxVqs as nat then TypeU32
    else if t == AttrDevMaxVqSize as nat then TypeU16
    else if t == AttrDevNegotiatedFeatures as nat || t == AttrDevSupportedFeatures as nat then TypeU64
    else Unspec
  }

  /**
   * mnl_attr_validate: fixed-width types need exactly their width; a
   * string must not be empty; a NUL-terminated string must also end in a
   * zero byte; an attribute without a policy entry always passes.
   */
  predicate Valid(a: Attr, ty: MnlType)
  {
    var len := |a.payload|;
    match ty
    case Unspec => true
    case NulString => len > 0 && a.payload[len - 1] == 0
    case Str => len > 0
    case TypeU16 => len == 2
    case TypeU32 => len == 4
    case TypeU64 => len == 8
  }

  /** mnl_attr_get_type: the type field without the nested and byte-order flags. */
  function TypeOf(a: Attr): (t: nat)
    ensures t < 0x4000
  {
    a.kind % 0x4000
  }

  // ---------------------------------------------------------------------
  // attr_cb and the table it fills

  /** The callback's verdict: MNL_CB_OK goes on with the walk, MNL_CB_ERROR stops it. */
  datatype CbResult = CbOk | CbError

  /** The size of the table: one slot per type up to VDPA_ATTR_MAX. */
  const TableSize: nat := AttrMax + 1

  type Table = tb: seq<Option<Attr>> | |tb| == TableSize witness seq(TableSize, _ => None)

  /** The table as the callbacks declare it: every slot empty. */
  function EmptyTable(): (r: Table)
    ensures forall t :: 0 <= t < TableSize ==> r[t].None?
  {
    seq(TableSize, _ => None)
  }

  /** The callback's verdict and the table it leaves. */
  datatype Parsed = Parsed(verdict: CbResult, table: Table)

  /** attr_cb on one attribute: the verdict and the table afterwards. */
  function AttrCbSpec(tb: Table, a: Attr): (r: Parsed)
    ensures TypeOf(a) > AttrMax ==> r == Parsed(CbOk, tb)
    ensures TypeOf(a) <= AttrMax && !Valid(a, Policy(TypeOf(a))) ==> r == Parsed(CbError, tb)
    ensures TypeOf(a) <= AttrMax && Valid(a, Policy(TypeOf(a))) ==>
      r.verdict == CbOk && r.table[TypeOf(a)] == Some(a)
      && forall t :: 0 <= t < TableSize && t != TypeOf(a) ==> r.table[t] == tb[t]
  {
    var t := TypeOf(a);
    if t > AttrMax then Parsed(CbOk, tb)
    else if !Valid(a, Policy(t)) then Parsed(CbError, tb)
    else Parsed(CbOk, tb[t := Some(a)])
  }

  /** attr_cb: skips unknown types, stops on a policy violation, stores the rest. */
  method AttrCb(tb: array<Option<Attr>>, a: Attr) returns (r: CbResult)
    requires tb.Length == TableSize
    modifies tb
    ensures Parsed(r, tb[..]) == AttrCbSpec(old(tb[..]), a)
  {
    var t := TypeOf(a);
    if t > AttrMax {
      return CbOk;
    }
    if !Valid(a, Policy(t)) {
      return CbError;
    }
    tb[t] := Some(a);
    r := CbOk;
    assert tb[..] == old(tb[..])[t := Some(a)];
  }

  /**
   * mnl_attr_parse with attr_cb over the attributes of a message, taken in
   * order: the callback is applied to each until one returns an error.
   */
  function ParseSpec(tb: Table, attrs: seq<Attr>): (r: Parsed)
    decreases |attrs|
  {
    if attrs == [] then Parsed(CbOk, tb)
    else
      var before := ParseSpec(tb, attrs[..|attrs| - 1]);
      if before.verdict == CbError then before
      else AttrCbSpec(before.table, attrs[|attrs| - 1])
  }

  /** mnl_attr_parse(nlh, sizeof(genl), attr_cb, tb). */
  method MnlAttrParse(tb: array<Option<Attr>>, attrs: seq<Attr>) returns (r: CbResult)
    requires tb.Length == TableSize
    modifies tb
    ensures Parsed(r, tb[..]) == ParseSpec(old(tb[..]), attrs)
  {
    ghost var tb0: Table := tb[..];
    var i := 0;
    while i < |attrs|
      invariant 0 <= i <= |attrs|
      invariant ParseSpec(tb0, attrs[..i]) == Parsed(CbOk, tb[..])
    {
      assert attrs[..i + 1][..i] == attrs[..i];
      var step := AttrCb(tb, attrs[i]);
      if step == CbError {
        assert ParseSpec(tb0, attrs[..i + 1]).verdict == CbError;
        ErrorSticks(tb0, attrs[..i + 1], attrs[i + 1..]);
        assert attrs[..i + 1] + attrs[i + 1..] == attrs;
        return CbError;
      }
      i := i + 1;
    }
    assert attrs[..i] == attrs;
    r := CbOk;
  }

  /** The last attribute of type `t` in `attrs`. */
  function LastOfType(attrs: seq<Attr>, t: nat): (r: Option<Attr>)
    ensures r.Some? ==> r.value in attrs && TypeOf(r.value) == t
    ensures r.None? <==> forall i :: 0 <= i < |attrs| ==> TypeOf(attrs[i]) != t
    decreases |attrs|
  {
    if attrs == [] then None
    else if TypeOf(attrs[|attrs| - 1]) == t then Some(attrs[|attrs| - 1])
    else
      var r := LastOfType(attrs[..|attrs| - 1], t);
      assert forall i :: 0 <= i < |attrs| - 1 ==> attrs[..|attrs| - 1][i] == attrs[i];
      r
  }

  /**
   * When no attribute breaks the policy, slot `t` holds the last attribute
   * of type `t` (a later duplicate overwrites an earlier one), and a slot
   * whose type never occurs keeps what it held.
   */
  lemma {:induction false} LastDuplicateWins(tb: Table, attrs: seq<Attr>, t: nat)
    requires t < TableSize
    requires ParseSpec(tb, attrs).verdict == CbOk
    ensures ParseSpec(tb, attrs).table[t] == if LastOfType(attrs, t).Some? then LastOfType(attrs, t) else tb[t]
    decreases |attrs|
  {
    if attrs != [] {
      var init := attrs[..|attrs| - 1];
      var last := attrs[|attrs| - 1];
      assert ParseSpec(tb, init).verdict == CbOk;
      LastDuplicateWins(tb, init, t);
    }
  }

  /** Once the callback has failed, later attributes change nothing. */
  lemma {:induction false} ErrorSticks(tb: Table, xs: seq<Attr>, ys: seq<Attr>)
    requires ParseSpec(tb, xs).verdict == CbError
    ensures ParseSpec(tb, xs + ys) == ParseSpec(tb, xs)
    decreases |ys|
  {
    if ys == [] {
      assert xs + ys == xs;
    } else {
      var init := ys[..|ys| - 1];
      ErrorSticks(tb, xs, init);
      assert (xs + ys)[..|xs + ys| - 1] == xs + init;
    }
  }

  /** An attribute that breaks the policy ends the walk: nothing after it is stored. */
  lemma PolicyViolationStops(tb: Table, xs: seq<Attr>, bad: Attr, ys: seq<Attr>)
    requires ParseSpec(tb, xs).verdict == CbOk
    requires TypeOf(bad) <= AttrMax && !Valid(bad, Policy(TypeOf(bad)))
    ensures ParseSpec(tb, xs + [bad] + ys) == Parsed(CbError, ParseSpec(tb, xs).table)
  {
    assert (xs + [bad])[..|xs + [bad]| - 1] == xs;
    ErrorSticks(tb, xs + [bad], ys);
  }

  // ---------------------------------------------------------------------
  // The checks of the show callbacks

  /** The reply handlers whose callbacks check the table. */
  datatype Reply = MgmtdevShowReply | DevShowReply | DevConfigShowReply | DevVstatsShowReply

  /** The attribute types a callback insists on before printing. */
  function Needed(reply: Reply): (r: set<nat>)
    ensures forall t :: t in r ==> t < TableSize
  {
    match reply
    case MgmtdevShowReply => {AttrMgmtdevDevName as nat}
    case DevShowReply => {AttrMgmtdevDevName as nat, AttrDevName as nat, AttrDevId as nat}
    case DevConfigShowReply => {AttrDevName as nat, AttrDevId as nat}
    case DevVstatsShowReply => {AttrDevName as nat, AttrDevId as nat}
  }

  /** The types that have an entry in the table. */
  function Filled(tb: Table): (r: set<nat>)
    ensures forall t: nat :: t in r <==> t < TableSize && tb[t].Some?
  {
    set t | 0 <= t < TableSize && tb[t].Some?
  }

  /**
   * A show callback: mnl_attr_parse's own verdict is discarded, and the
   * callback accepts the message exactly when the table it left holds every
   * needed attribute.
   */
  function ShowCallback(reply: Reply, attrs: seq<Attr>): (r: CbResult)
    ensures r == CbOk <==> forall t :: t in Needed(reply) ==> ParseSpec(EmptyTable(), attrs).table[t].Some?
  {
    if Needed(reply) <= Filled(ParseSpec(EmptyTable(), attrs).table) then CbOk else CbError
  }

  /**
   * The discarded verdict matters: a reply whose maximum queue size has the
   * wrong width fails validation, yet the configuration callback accepts it
   * and goes on to print from the partly filled table.
   */
  lemma IgnoredParseError(name: seq<byte>, id: seq<byte>, size: seq<byte>)
    requires |name| > 0 && |id| == 4 && |size| == 3
    ensures var attrs := [Attr(AttrDevName, name), Attr(AttrDevId, id), Attr(AttrDevMaxVqSize, size)];
      ParseSpec(EmptyTable(), attrs).verdict == CbError && ShowCallback(DevConfigShowReply, attrs) == CbOk
  {
    var a1, a2, a3 := Attr(AttrDevName, name), Attr(AttrDevId, id), Attr(AttrDevMaxVqSize, size);
    var attrs := [a1, a2, a3];
    assert [a1][..0] == [] && [a1, a2][..1] == [a1] && attrs[..2] == [a1, a2];
    var p1 := ParseSpec(EmptyTable(), [a1]);
    assert ParseSpec(EmptyTable(), [a1][..0]) == Parsed(CbOk, EmptyTable());
    assert p1 == AttrCbSpec(EmptyTable(), a1);
    assert p1.verdict == CbOk && p1.table[AttrDevName] == Some(a1);
    var p2 := ParseSpec(EmptyTable(), [a1, a2]);
    assert p2 == AttrCbSpec(p1.table, a2);
    assert p2.verdict == CbOk && p2.table[AttrDevName] == Some(a1) && p2.table[AttrDevId] == Some(a2);
    assert ParseSpec(EmptyTable(), attrs) == Parsed(CbError, p2.table);
  }

  // ---------------------------------------------------------------------
  // Bits of a 64-bit mask

  function Pow2(i: nat): (r: nat)
    ensures r >= 1
  {
    if i == 0 then 1 else 2 * Pow2(i - 1)
  }

  /** `x & (1ULL << i)` is non-zero. */
  predicate Bit(x: U64, i: nat)
  {
    (x / Pow2(i)) % 2 == 1
  }

  /** The positions `i` and above, below 64, whose bit is set, in ascending order. */
  function SetBits(x: U64, i: nat): (r: seq<nat>)
    ensures forall k :: 0 <= k < |r| ==> i <= r[k] < 64 && Bit(x, r[k])
    ensures forall k, l :: 0 <= k < l < |r| ==> r[k] < r[l]
    ensures forall b :: i <= b < 64 && Bit(x, b) ==> b in r
    decreases 64 - i
  {
    if i >= 64 then []
    else if Bit(x, i) then [i] + SetBits(x, i + 1)
    else SetBits(x, i + 1)
  }

  // ---------------------------------------------------------------------
  // print_features as a label sequence

  /** A feature label: a name from a table, or the numeric fallback `bit_N`. */
  datatype Label = Named(text: string) | BitN(bit: nat)

  /** ext_feature_strs: the transport feature names (VIRTIO 1.1 section 6). */
  function TransportFeatureName(bit: nat): Option<string>
  {
    match bit
    case 28 => Some("RING_INDIRECT_DESC")
    case 29 => Some("RING_EVENT_IDX")
    case 32 => Some("VERSION_1")
    case 33 => Some("ACCESS_PLATFORM")
    case 34 => Some("RING_PACKED")
    case 35 => Some("IN_ORDER")
    case 36 => Some("ORDER_PLATFORM")
    case 37 => Some("SR_IOV")
    case 38 => Some("NOTIFICATION_DATA")
    case _ => None
  }

  /** net_feature_strs: the network device feature names (VIRTIO 1.1 section 5.1.3). */
  function NetFeatureName(bit: nat): Option<string>
  {
    match bit
    case 0 => Some("CSUM")
    case 1 => Some("GUEST_CSUM")
    case 2 => Some("CTRL_GUEST_OFFLOADS")
    case 3 => Some("MTU")
    case 5 => Some("MAC")
    case 7 => Some("GUEST_TSO4")
    case 8 => Some("GUEST_TSO6")
    case 9 => Some("GUEST_ECN")
    case 10 => Some("GUEST_UFO")
    case 11 => Some("HOST_TSO4")
    case 12 => Some("HOST_TSO6")
    case 13 => Some("HOST_ECN")
    case 14 => Some("HOST_UFO")
    case 15 => Some("MRG_RXBUF")
    case 16 => Some("STATUS")
    case 17 => Some("CTRL_VQ")
    case 18 => Some("CTRL_RX")
    case 19 => Some("CTRL_VLAN")
    case 20 => Some("CTRL_RX_EXTRA")
    case 21 => Some("GUEST_ANNOUNCE")
    case 22 => Some("MQ")
    case 23 => Some("CTRL_MAC_ADDR")
    case 24 => Some("NOTIFY_ON_EMPTY")
    case 27 => Some("ANY_LAYOUT")
    case 57 => Some("HASH_REPORT")
    case 60 => Some("RSS")
    case 61 => Some("RSC_EXT")
    case 62 => Some("STANDBY")
    case 63 => Some("SPEED_DUPLEX")
    case _ => None
  }

  /**
   * dev_to_feature_str: the table for a device id, if any. The array has
   * an entry for ids below VIRTIO_ID_NET + 1, and only the network entry
   * is filled.
   */
  function DeviceTable(devId: U16): (r: bool)
    ensures r <==> devId == VirtioIdNet
  {
    if devId < VirtioIdNet + 1 then [false, true][devId] else false
  }

  /** The label print_features gives one set bit of a device with id `devId`. */
  function FeatureLabel(bit: nat, devId: U16): (r: Label)
    ensures TransportStart <= bit <= TransportEnd ==>
      r == (if TransportFeatureName(bit).Some? then Named(TransportFeatureName(bit).value) else BitN(bit))
    ensures !(TransportStart <= bit <= TransportEnd) && devId == VirtioIdNet ==>
      r == (if NetFeatureName(bit).Some? then Named(NetFeatureName(bit).value) else BitN(bit))
    ensures !(TransportStart <= bit <= TransportEnd) && devId != VirtioIdNet ==> r == BitN(bit)
  {
    var name :=
      if bit < TransportStart || bit > TransportEnd then
        (if DeviceTable(devId) then NetFeatureName(bit) else None)
      else TransportFeatureName(bit);
    if name.None? then BitN(bit) else Named(name.value)
  }

  /** The loop of print_features from bit `i` on. */
  function FeatureLabelsFrom(features: U64, devId: U16, i: nat): seq<Label>
    decreases 64 - i
  {
    if i >= 64 then []
    else if Bit(features, i) then [FeatureLabel(i, devId)] + FeatureLabelsFrom(features, devId, i + 1)
    else FeatureLabelsFrom(features, devId, i + 1)
  }

  /** The labels print_features prints for `features`. */
  function FeatureLabels(features: U64, devId: U16): seq<Label>
  {
    FeatureLabelsFrom(features, devId, 0)
  }

  /** print_features prints exactly one label per set bit, in ascending bit order. */
  lemma {:induction false} OneLabelPerSetBit(features: U64, devId: U16, i: nat)
    ensures var labels := FeatureLabelsFrom(features, devId, i);
      var bits := SetBits(features, i);
      |labels| == |bits| && forall k :: 0 <= k < |bits| ==> labels[k] == FeatureLabel(bits[k], devId)
    decreases 64 - i
  {
    if i < 64 {
      OneLabelPerSetBit(features, devId, i + 1);
    }
  }

  /** Transport bits are named the same for every device. */
  lemma TransportLabelsShared(bit: nat, d1: U16, d2: U16)
    requires TransportStart <= bit <= TransportEnd
    ensures FeatureLabel(bit, d1) == FeatureLabel(bit, d2)
  {
  }

  /** Bits 0 and 2 against a device with no table: `bit_0 bit_2`. */
  lemma UnnamedBitsFallBack()
    ensures FeatureLabels(5, 0) == [BitN(0), BitN(2)]
  {
    assert Bit(5, 0) && !Bit(5, 1) && Bit(5, 2);
    assert forall i :: 3 <= i < 64 ==> !Bit(5, i) by {
      forall i | 3 <= i < 64 ensures !Bit(5, i) {
        Pow2AtLeast8(i);
      }
    }
    NoBitsFrom(5, 0, 3);
  }

  lemma {:induction false} Pow2AtLeast8(i: nat)
    requires i >= 3
    ensures Pow2(i) >= 8
  {
    if i > 3 {
      Pow2AtLeast8(i - 1);
    }
  }

  lemma {:induction false} NoBitsFrom(features: U64, devId: U16, i: nat)
    requires forall b :: i <= b < 64 ==> !Bit(features, b)
    ensures FeatureLabelsFrom(features, devId, i) == []
    decreases 64 - i
  {
    if i < 64 {
      NoBitsFrom(features, devId, i + 1);
    }
  }

  /**
   * pr_out_dev_net_config's device id for print_features: the 32-bit
   * DEV_ID stored into a 16-bit variable, or 0 without one.
   */
  function NetConfigFeatureDevice(tb: Table): U16
  {
    if tb[AttrDevId].Some? then GetU32(tb[AttrDevId].value.payload) % 0x1_0000 else 0
  }

  /** What the configuration view prints of the negotiated features. */
  datatype ConfigFeatures =
    | ConfigRejected
    | NoFeatureLine
    | FeatureLine(devId: U16, labels: seq<Label>)

  /**
   * cmd_dev_config_show_cb, then pr_out_dev_config and
   * pr_out_dev_net_config: a reply without name or device id is refused;
   * the switch on the full 32-bit device id prints the network
   * configuration, and with it the negotiated feature names, only for
   * VIRTIO_ID_NET.
   */
  function ConfigFeatureLabels(tb: Table): (r: ConfigFeatures)
    ensures r.ConfigRejected? <==> tb[AttrDevName].None? || tb[AttrDevId].None?
    ensures r.FeatureLine? <==>
      && tb[AttrDevName].Some? && tb[AttrDevId].Some?
      && GetU32(tb[AttrDevId].value.payload) == VirtioIdNet
      && tb[AttrDevNegotiatedFeatures].Some?
    ensures r.FeatureLine? ==> r.devId == VirtioIdNet
    ensures r.FeatureLine? ==> r.labels == FeatureLabels(GetU64(tb[AttrDevNegotiatedFeatures].value.payload), VirtioIdNet)
  {
    if tb[AttrDevName].None? || tb[AttrDevId].None? then ConfigRejected
    else if GetU32(tb[AttrDevId].value.payload) != VirtioIdNet then NoFeatureLine
    else if tb[AttrDevNegotiatedFeatures].None? then NoFeatureLine
    else
      var devId := NetConfigFeatureDevice(tb);
      FeatureLine(devId, FeatureLabels(GetU64(tb[AttrDevNegotiatedFeatures].value.payload), devId))
  }

  /** The configuration view refuses a reply exactly when its show callback does. */
  lemma ConfigRejectedIffCallback(attrs: seq<Attr>)
    ensures ConfigFeatureLabels(ParseSpec(EmptyTable(), attrs).table).ConfigRejected?
        <==> ShowCallback(DevConfigShowReply, attrs) == CbError
  {
    assert Needed(DevConfigShowReply) == {AttrDevName as nat, AttrDevId as nat};
  }

  /**
   * A device id whose low 16 bits are the network id but which is not the
   * network id itself, 0x10001, prints no feature names: the 16-bit store
   * in pr_out_dev_net_config is never reached with it.
   */
  lemma ConfigWideIdNotNet(tb: Table)
    requires tb[AttrDevName].Some? && tb[AttrDevNegotiatedFeatures].Some?
    requires tb[AttrDevId] == Some(Attr(AttrDevId, [1, 0, 1, 0]))
    ensures GetU32(tb[AttrDevId].value.payload) == 0x1_0001
    ensures NetConfigFeatureDevice(tb) == VirtioIdNet
    ensures ConfigFeatureLabels(tb) == NoFeatureLine
  {
  }

  // ---------------------------------------------------------------------
  // The management device view: supported classes

  /** parse_class: the class_map lookup with its fallback. */
  function ParseClass(num: nat): (r: string)
    ensures r != "< unknown class >" <==> num == VirtioIdNet || num == VirtioIdBlock
  {
    if num == VirtioIdNet then "net"
    else if num == VirtioIdBlock then "block"
    else "< unknown class >"
  }

  /** The supported-class loop from bit `i` on: a class name for each set bit. */
  function ClassLabelsFrom(classes: U64, i: nat): seq<string>
    decreases 64 - i
  {
    if i >= 64 then []
    else if Bit(classes, i) then [ParseClass(i)] + ClassLabelsFrom(classes, i + 1)
    else ClassLabelsFrom(classes, i + 1)
  }

  /** The supported classes of a management device: the loop starts at bit 1. */
  function ClassLabels(classes: U64): seq<string>
  {
    ClassLabelsFrom(classes, 1)
  }

  /**
   * The class loop names each set bit once, in ascending order.
   */
  lemma {:induction false} ClassLabelsSpec(classes: U64, i: nat)
    ensures var labels := ClassLabelsFrom(classes, i);
      var bits := SetBits(classes, i);
      |labels| == |bits| && forall k :: 0 <= k < |bits| ==> labels[k] == ParseClass(bits[k])
    decreases 64 - i
  {
    if i < 64 {
      ClassLabelsSpec(classes, i + 1);
    }
  }

  /** The network class is listed exactly when its bit is set (the loop starts below it). */
  lemma {:induction false} NetClassListed(classes: U64, i: nat)
    ensures "net" in ClassLabelsFrom(classes, i) <==> i <= VirtioIdNet && Bit(classes, VirtioIdNet)
    decreases 64 - i
  {
    if i < 64 {
      NetClassListed(classes, i + 1);
      var rest := ClassLabelsFrom(classes, i + 1);
      if Bit(classes, i) {
        assert ClassLabelsFrom(classes, i) == [ParseClass(i)] + rest;
        assert "net" in [ParseClass(i)] + rest <==> ParseClass(i) == "net" || "net" in rest;
        assert ParseClass(i) == "net" <==> i == VirtioIdNet;
      }
    }
  }

  /** The device whose table names the supported features: network if the classes include it. */
  function MgmtdevFeatureDevice(classes: U64): (r: U16)
    ensures r == VirtioIdNet <==> Bit(classes, VirtioIdNet)
    ensures r != VirtioIdNet ==> r == 0
  {
    if Bit(classes, VirtioIdNet) then VirtioIdNet else 0
  }

  // ---------------------------------------------------------------------
  // The device view

  /** device_type_name. */
  function DeviceTypeName(devType: U32): (r: string)
    ensures devType == VirtioIdNet ==> r == "network"
    ensures devType == VirtioIdBlock ==> r == "block"
    ensures devType != VirtioIdNet && devType != VirtioIdBlock ==> r == "<unknown type>"
  {
    match devType
    case 1 => "network"
    case 2 => "block"
    case _ => "<unknown type>"
  }

  /** The type names and the class names describe the same two devices. */
  lemma TypeNamesMatchClasses(id: U32)
    ensures DeviceTypeName(id) != "<unknown type>" <==> ParseClass(id) != "< unknown class >"
  {
  }

  /** How a handle is shown: "bus/name", or the name alone without a bus. */
  function HandleText(bus: Option<string>, name: string): (r: string)
    ensures bus.None? ==> r == name
    ensures bus.Some? ==> r == bus.value + "/" + name
  {
    if bus.Some? then bus.value + "/" + name else name
  }

  /** A handle as shown is read back by the handle parser as the same bus and name. */
  lemma HandleTextRoundTrip(bus: Option<string>, name: string)
    requires '/' !in name && (bus.Some? ==> '/' !in bus.value)
    ensures VdpaOptions.ArgvHandle([HandleText(bus, name)]) == VdpaOptions.Handle(bus, name)
  {
    var s := HandleText(bus, name);
    if bus.Some? {
      VdpaOptions.CharCountAppend(bus.value + "/", name, '/');
      VdpaOptions.CharCountAppend(bus.value, "/", '/');
      assert VdpaOptions.CharCount(s, '/') == 1;
      var h := VdpaOptions.ArgvHandle([s]);
      assert h.Handle? && h.bus.Some?;
      SplitUnique(bus.value, name, h.bus.value, h.name);
    } else {
      assert VdpaOptions.CharCount(s, '/') == 0;
    }
  }

  /** A string with exactly one slash splits one way only. */
  lemma SplitUnique(a: string, b: string, c: string, d: string)
    requires '/' !in a && '/' !in c
    requires a + "/" + b == c + "/" + d
    ensures a == c && b == d
  {
    var s := a + "/" + b;
    FirstSlash(a, b);
    FirstSlash(c, d);
    assert |a| == |c|;
    assert a == s[..|a|] == c;
    assert b == s[|a| + 1..] == d;
  }

  /** In `x + "/" + y` with no slash in `x`, the first slash is at |x|. */
  lemma FirstSlash(x: string, y: string)
    requires '/' !in x
    ensures var s := x + "/" + y;
      s[|x|] == '/' && forall i :: 0 <= i < |x| ==> s[i] != '/'
  {
    var s := x + "/" + y;
    forall i | 0 <= i < |x|
      ensures s[i] != '/'
    {
      assert s[i] == x[i];
    }
  }

  // ---------------------------------------------------------------------
  // print_queue_type and the vendor statistics walk

  datatype QueueKind = Rx | Tx | ControlVq

  /**
   * print_queue_type: the control queue is the one numbered 2 * max_vqp
   * when the control queue feature was negotiated; otherwise odd queues
   * transmit and even ones receive.
   */
  function QueueLabel(qidx: U16, maxVqp: U16, features: U64): (r: QueueKind)
    ensures r == ControlVq <==> Bit(features, NetFCtrlVq) && qidx == 2 * maxVqp
    ensures r == Tx <==> !(Bit(features, NetFCtrlVq) && qidx == 2 * maxVqp) && qidx % 2 == 1
  {
    if Bit(features, NetFCtrlVq) && qidx == 2 * maxVqp then ControlVq
    else if qidx % 2 == 1 then Tx
    else Rx
  }

  /**
   * The queue layout of a network device with `n` queue pairs and a
   * control queue (VIRTIO 1.1 section 5.1.2): receive queues at even
   * numbers, transmit queues at odd numbers, the control queue after them.
   */
  lemma QueueNumbering(n: U16, features: U64, k: nat)
    requires Bit(features, NetFCtrlVq) && 2 * n < 0x1_0000
    requires k < n
    ensures QueueLabel(2 * k, n, features) == Rx
    ensures QueueLabel(2 * k + 1, n, features) == Tx
    ensures QueueLabel(2 * n, n, features) == ControlVq
  {
    Parity(k);
    assert 2 * k < 2 * n && 2 * k + 1 < 2 * n;
  }

  lemma Parity(k: int)
    ensures (2 * k) % 2 == 0 && (2 * k + 1) % 2 == 1
  {
  }

  /** MAX_KEY_LEN: the longest vendor statistic name the walk accepts. */
  const MaxKeyLen: nat := 200

  /** The bytes of a string attribute up to its first zero byte. */
  function CStr(p: seq<byte>): (r: seq<byte>)
    ensures |r| <= |p| && r == p[..|r|] && 0 !in r
    ensures |r| < |p| ==> p[|r|] == 0
  {
    if p == [] || p[0] == 0 then [] else [p[0]] + CStr(p[1..])
  }

  /** The walk's variables: max_vqp, features and the statistic name. */
  datatype VstatsState = VstatsState(maxVqp: U16, features: U64, name: Option<seq<byte>>)

  const VstatsStart := VstatsState(0, 0, None)

  /**
   * What the walk prints: a queue type, or a statistic value with the name
   * last seen. A value seen before any name has no name: the C code then
   * prints with an uninitialised format string. A name with no zero byte
   * in its payload makes strlen read past the attribute: what C prints from
   * there on is not determined, and the walk ends with NameOverread.
   */
  datatype VstatsItem =
    | QueueType(kind: QueueKind)
    | Stat(name: Option<seq<byte>>, value: U64)
    | NameOverread

  /** A vendor statistic name whose payload holds no terminating zero byte. */
  predicate Unterminated(a: Attr)
  {
    a.kind == AttrDevVendorAttrName && 0 !in a.payload
  }

  /** A terminated vendor statistic name longer than MAX_KEY_LEN. */
  predicate TooLong(a: Attr)
  {
    a.kind == AttrDevVendorAttrName && 0 in a.payload && |CStr(a.payload)| > MaxKeyLen
  }

  /** The attributes that end the whole walk. */
  predicate StopsWalk(a: Attr)
  {
    Unterminated(a) || TooLong(a)
  }

  /** What the walk prints as it ends at `a`. */
  function StopItems(a: Attr): seq<VstatsItem>
  {
    if Unterminated(a) then [NameOverread] else []
  }

  /** The walk's variables after one attribute (it switches on the raw type field). */
  function VstatsNext(st: VstatsState, a: Attr): VstatsState
  {
    if a.kind == AttrDevNetCfgMaxVqp then st.(maxVqp := GetU16(a.payload))
    else if a.kind == AttrDevNegotiatedFeatures then st.(features := GetU64(a.payload))
    else if a.kind == AttrDevVendorAttrName then st.(name := Some(CStr(a.payload)))
    else st
  }

  /** What one attribute prints, given the variables before it. */
  function VstatsEmit(st: VstatsState, a: Attr): seq<VstatsItem>
  {
    if a.kind == AttrDevQueueIndex then [QueueType(QueueLabel(GetU16(a.payload), st.maxVqp, st.features))]
    else if a.kind == AttrDevVendorAttrValue then [Stat(st.name, GetU64(a.payload))]
    else []
  }

  /** pr_out_dev_net_vstats as a fold over the attributes from state `st`. */
  function Vstats(st: VstatsState, attrs: seq<Attr>): seq<VstatsItem>
    decreases |attrs|
  {
    if attrs == [] then []
    else if StopsWalk(attrs[0]) then StopItems(attrs[0])
    else VstatsEmit(st, attrs[0]) + Vstats(VstatsNext(st, attrs[0]), attrs[1..])
  }

  /** The walk stops somewhere in `attrs`. */
  predicate Stops(attrs: seq<Attr>)
  {
    exists i :: 0 <= i < |attrs| && StopsWalk(attrs[i])
  }

  /** The variables after walking all of `attrs`. */
  function VstatsAfter(st: VstatsState, attrs: seq<Attr>): VstatsState
    decreases |attrs|
  {
    if attrs == [] then st else VstatsAfter(VstatsNext(st, attrs[0]), attrs[1..])
  }

  /**
   * One case of the walk's switch: the variables afterwards, what it
   * prints, and whether it ends the walk.
   */
  method VstatsStep(st: VstatsState, a: Attr) returns (next: VstatsState, out: seq<VstatsItem>, stop: bool)
    ensures stop == StopsWalk(a)
    ensures stop ==> out == StopItems(a)
    ensures !stop ==> next == VstatsNext(st, a) && out == VstatsEmit(st, a)
  {
    next, out, stop := st, [], false;
    if a.kind == AttrDevNetCfgMaxVqp {
      next := st.(maxVqp := GetU16(a.payload));
    } else if a.kind == AttrDevNegotiatedFeatures {
      next := st.(features := GetU64(a.payload));
    } else if a.kind == AttrDevQueueIndex {
      out := [QueueType(QueueLabel(GetU16(a.payload), st.maxVqp, st.features))];
    } else if a.kind == AttrDevVendorAttrName {
      if 0 !in a.payload {
        out, stop := [NameOverread], true;
      } else {
        var name := CStr(a.payload);
        if |name| > MaxKeyLen {
          stop := true;
        } else {
          next := st.(name := Some(name));
        }
      }
    } else if a.kind == AttrDevVendorAttrValue {
      out := [Stat(st.name, GetU64(a.payload))];
    }
  }

  /** pr_out_dev_net_vstats: the walk over the reply's attributes. */
  method NetVstats(attrs: seq<Attr>) returns (items: seq<VstatsItem>)
    ensures items == Vstats(VstatsStart, attrs)
  {
    var st := VstatsStart;
    items := [];
    var i := 0;
    while i < |attrs|
      invariant 0 <= i <= |attrs|
      invariant items + Vstats(st, attrs[i..]) == Vstats(VstatsStart, attrs)
    {
      assert attrs[i..][0] == attrs[i] && attrs[i..][1..] == attrs[i + 1..];
      var next, out, stop := VstatsStep(st, attrs[i]);
      if stop {
        assert Vstats(st, attrs[i..]) == out;
        items := items + out;
        return;
      }
      assert items + out + Vstats(next, attrs[i + 1..]) == items + (out + Vstats(next, attrs[i + 1..]));
      items, st := items + out, next;
      i := i + 1;
    }
    assert attrs[i..] == [];
    assert items + [] == items;
  }

  /** Walking `xs` then `ys` prints what `xs` prints, then, unless `xs` stopped, what `ys` prints from there. */
  lemma {:induction false} VstatsSplit(st: VstatsState, xs: seq<Attr>, ys: seq<Attr>)
    ensures Vstats(st, xs + ys) == Vstats(st, xs) + (if Stops(xs) then [] else Vstats(VstatsAfter(st, xs), ys))
    decreases |xs|
  {
    if xs == [] {
      assert xs + ys == ys;
      assert !Stops(xs);
    } else {
      var a := xs[0];
      assert (xs + ys)[0] == a && (xs + ys)[1..] == xs[1..] + ys;
      if StopsWalk(a) {
        assert Stops(xs);
      } else {
        VstatsSplit(VstatsNext(st, a), xs[1..], ys);
        assert Stops(xs) <==> Stops(xs[1..]) by {
          if Stops(xs) {
            var i :| 0 <= i < |xs| && StopsWalk(xs[i]);
            assert i > 0 && xs[1..][i - 1] == xs[i];
          }
          if Stops(xs[1..]) {
            var i :| 0 <= i < |xs[1..]| && StopsWalk(xs[1..][i]);
            assert xs[i + 1] == xs[1..][i];
          }
        }
      }
    }
  }

  /**
   * A name without a terminating zero byte ends the walk, after what came
   * before it, with NameOverread.
   */
  lemma UnterminatedNameEndsWalk(st: VstatsState, xs: seq<Attr>, name: Attr, ys: seq<Attr>)
    requires !Stops(xs) && Unterminated(name)
    ensures Vstats(st, xs + [name] + ys) == Vstats(st, xs) + [NameOverread]
  {
    VstatsSplit(st, xs, [name] + ys);
    assert xs + [name] + ys == xs + ([name] + ys);
    assert ([name] + ys)[0] == name;
  }

  /** Nothing after a name that ends the walk is printed. */
  lemma LongNameEndsWalk(st: VstatsState, xs: seq<Attr>, long: Attr, ys: seq<Attr>)
    requires StopsWalk(long)
    ensures Vstats(st, xs + [long] + ys) == Vstats(st, xs + [long])
  {
    VstatsSplit(st, xs + [long], ys);
    assert (xs + [long])[|xs|] == long;
  }

  /**
   * The walk's variables only affect later queue indexes: with one queue
   * pair and the control queue negotiated first, queue 2 is the control
   * queue...
   */
  lemma VstatsSettingsFirst()
    ensures Vstats(VstatsStart, [Attr(AttrDevNetCfgMaxVqp, [1, 0]), Attr(AttrDevNegotiatedFeatures, Le64(0x2_0000)),
                                 Attr(AttrDevQueueIndex, [2, 0, 0, 0])]) == [QueueType(ControlVq)]
  {
    var vqp := Attr(AttrDevNetCfgMaxVqp, [1, 0]);
    var feat := Attr(AttrDevNegotiatedFeatures, Le64(0x2_0000));
    var q := Attr(AttrDevQueueIndex, [2, 0, 0, 0]);
    var st1 := VstatsNext(VstatsStart, vqp);
    var st2 := VstatsNext(st1, feat);
    assert st2 == VstatsState(1, 0x2_0000, None) by {
      GetU64Le64(0x2_0000);
    }
    assert GetU16(q.payload) == 2 by {
      assert Widen(q.payload, 2) == [2, 0];
    }
    assert QueueLabel(2, 1, 0x2_0000) == ControlVq by {
      CtrlVqMask();
    }
    assert !StopsWalk(q) && VstatsEmit(st2, q) == [QueueType(ControlVq)];
    assert Vstats(st2, [q]) == [QueueType(ControlVq)] + Vstats(VstatsNext(st2, q), []);
    assert Vstats(st1, [feat, q]) == Vstats(st2, [q]) by {
      assert [feat, q][1..] == [q];
    }
    assert [vqp, feat, q][1..] == [feat, q];
  }

  /**
   * ...but when the queue index comes first the variables are still zero
   * and the same queue is a receive queue.
   */
  lemma VstatsQueueFirst()
    ensures Vstats(VstatsStart, [Attr(AttrDevQueueIndex, [2, 0, 0, 0]), Attr(AttrDevNetCfgMaxVqp, [1, 0]),
                                 Attr(AttrDevNegotiatedFeatures, Le64(0x2_0000))]) == [QueueType(Rx)]
  {
    var vqp := Attr(AttrDevNetCfgMaxVqp, [1, 0]);
    var feat := Attr(AttrDevNegotiatedFeatures, Le64(0x2_0000));
    var q := Attr(AttrDevQueueIndex, [2, 0, 0, 0]);
    assert !Bit(0, NetFCtrlVq);
    assert VstatsEmit(VstatsStart, q) == [QueueType(Rx)];
    var st1 := VstatsNext(VstatsStart, vqp);
    assert Vstats(st1, [feat]) == [];
    assert [vqp, feat][1..] == [feat];
    assert Vstats(VstatsStart, [vqp, feat]) == [];
    assert [q, vqp, feat][1..] == [vqp, feat];
  }

  /** BIT(VIRTIO_NET_F_CTRL_VQ) is 0x20000. */
  lemma CtrlVqMask()
    ensures Pow2(NetFCtrlVq) == 0x2_0000 && Bit(0x2_0000, NetFCtrlVq)
  {
    Pow2Add(4, 4);
    Pow2Add(8, 8);
    Pow2Add(16, 1);
  }

  /** mnl_attr_get_u64 reads back what mnl_attr_put_u64 wrote. */
  lemma GetU64Le64(x: U64)
    ensures GetU64(Le64(x)) == x
  {
    Le64RoundTrip(x, []);
    assert Le64(x) + [] == Le64(x);
  }

  lemma {:induction false} Pow2Add(a: nat, b: nat)
    ensures Pow2(a + b) == Pow2(a) * Pow2(b)
    decreases a
  {
    if a > 0 {
      Pow2Add(a - 1, b);
    }
  }

  /** A statistic value before any name carries no name. */
  lemma ValueBeforeName(v: seq<byte>, ys: seq<Attr>)
    ensures Vstats(VstatsStart, [Attr(AttrDevVendorAttrValue, v)] + ys)[0] == Stat(None, GetU64(v))
  {
  }

  /** The vendor statistics view walks the reply only for network devices. */
  function DevVstats(tb: Table, attrs: seq<Attr>): (r: seq<VstatsItem>)
    requires tb[AttrDevId].Some?
    ensures GetU32(tb[AttrDevId].value.payload) != VirtioIdNet ==> r == []
    ensures GetU32(tb[AttrDevId].value.payload) == VirtioIdNet ==> r == Vstats(VstatsStart, attrs)
  {
    if GetU32(tb[AttrDevId].value.payload) == VirtioIdNet then Vstats(VstatsStart, attrs) else []
  }
}
