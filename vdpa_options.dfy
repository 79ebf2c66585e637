/**
 * The vdpa tool's option engine: each command states which options it
 * requires and which it allows; the arguments are consumed into the
 * option record (a positional handle first, then keyword/value pairs),
 * the required ones are checked in a fixed order, and the present ones
 * are emitted as request attributes in a canonical order.
 */
module VdpaOptions {
  import opened Types
  import opened VdpaUapi

  /**
   * The options a command can take, one per bit of the tool's option
   * mask; a mask is modelled as the set of its options.
   */
  datatype Opt =
    | MgmtdevHandle          // bit 0: positional "bus/name" of a management device
    | VdevMgmtdevHandle      // bit 1: "mgmtdev bus/name"
    | VdevName               // bit 2: "name NAME"
    | VdevHandle             // bit 3: positional device name
    | VdevMac                // bit 4: "mac ADDR"
    | VdevMtu                // bit 5: "mtu N"
    | MaxVqp                 // bit 6: "max_vqp N"
    | QueueIndex             // bit 7: "qidx N"
    | VdevFeatures           // bit 8: "device_features HEX"

  const EtherAddrLen: nat := 6
  const EInval: int := 22

  datatype VdpaError =
    | HandleExpected              // no token where a management device handle is due
    | HandleFormat                // a handle with more than one '/'
    | StringExpected              // no token where a device name is due
    | BadMac                      // the link-layer address parser failed
    | BadNumber                   // get_u16 / get_u32 / get_u64 failed
    | UnknownOption(token: string)
    | MissingRequired(message: string)
    | RequiredBug                 // a required option outside the message table is missing

  /** The value vdpa_argv_parse returns for an error. */
  function Errno(e: VdpaError): (r: int)
    ensures r < 0
    ensures r == -1 <==> e == BadNumber
  {
    if e == BadNumber then -1 else -EInval
  }

  datatype Status = Ok | Fail(error: VdpaError)

  /**
   * The string-to-value helpers of the tool's library, supplied by the
   * caller: get_u16(.., 10), get_u32(.., 10), get_u64(.., 16) and
   * ll_addr_a2n(.., ETH_ALEN, ..) (the bytes it writes).
   */
  datatype ArgHelpers = ArgHelpers(
    u16: string -> Option<U16>,
    u32: string -> Option<U32>,
    u64Hex: string -> Option<U64>,
    lladdr: string -> Option<seq<byte>>)

  /** The option record, as a value. */
  datatype Opts = Opts(
    present: set<Opt>,
    mdevBusName: Option<string>,
    mdevName: Option<string>,
    vdevName: Option<string>,
    mac: seq<byte>,
    mtu: U16,
    maxVqp: U16,
    queueIdx: U32,
    deviceFeatures: U64)

  /** The zero-filled record the tool starts from. */
  const InitialOpts: Opts := Opts({}, None, None, None, Zeros(EtherAddrLen), 0, 0, 0, 0)

  /** Every flag of `present` has its value set, and the MAC field has its size. */
  predicate Consistent(o: Opts)
  {
    && |o.mac| == EtherAddrLen
    && (HasMgmtdev(o.present) ==> o.mdevName.Some?)
    && (HasVdevName(o.present) ==> o.vdevName.Some?)
  }

  // ---------------------------------------------------------------------
  // String helpers

  /** get_str_char_count */
  function CharCount(s: string, c: char): (n: nat)
    ensures n <= |s|
    ensures n == 0 <==> c !in s
  {
    if s == [] then 0
    else (if s[0] == c then 1 else 0) + CharCount(s[1..], c)
  }

  lemma {:induction false} CharCountAppend(a: string, b: string, c: char)
    ensures CharCount(a + b, c) == CharCount(a, c) + CharCount(b, c)
  {
    if a != [] {
      assert (a + b)[1..] == a[1..] + b;
      CharCountAppend(a[1..], b, c);
    } else {
      assert a + b == b;
    }
  }

  /** The position of the first `c` in `s`. */
  function IndexOf(s: string, c: char): (i: nat)
    requires c in s
    ensures i < |s| && s[i] == c && c !in s[..i]
  {
    if s[0] == c then 0
    else
      assert c in s[1..] by { assert s == [s[0]] + s[1..]; }
      var j := IndexOf(s[1..], c);
      assert s[..j + 1] == [s[0]] + s[1..][..j];
      j + 1
  }

  /** str_split_by_char: the text before the first `c` and the text after it. */
  function SplitByChar(s: string, c: char): (r: (string, string))
    requires c in s
    ensures r.0 + [c] + r.1 == s
    ensures c !in r.0
  {
    var i := IndexOf(s, c);
    assert s == s[..i] + [c] + s[i + 1..];
    (s[..i], s[i + 1..])
  }

  /** matches(arg, word) == 0: `arg` is a non-empty prefix of `word`. */
  predicate Abbreviates(arg: string, word: string)
  {
    0 < |arg| <= |word| && arg == word[..|arg|]
  }

  // ---------------------------------------------------------------------
  // vdpa_argv_handle

  datatype HandleResult = HandleErr(error: VdpaError) | Handle(bus: Option<string>, name: string)

  /**
   * A management device handle "bus/name" or "name" taken from the first
   * token.
   */
  function ArgvHandle(args: seq<string>): (r: HandleResult)
    ensures |args| == 0 ==> r == HandleErr(HandleExpected)
    ensures |args| > 0 && CharCount(args[0], '/') > 1 ==> r == HandleErr(HandleFormat)
    ensures r.Handle? <==> |args| > 0 && CharCount(args[0], '/') <= 1
    ensures r.HandleErr? ==> r.error == HandleExpected || r.error == HandleFormat
    ensures r.Handle? && r.bus.None? ==> r.name == args[0] && '/' !in r.name
    ensures r.Handle? && r.bus.Some? ==>
      && r.bus.value + "/" + r.name == args[0]
      && '/' !in r.bus.value && '/' !in r.name
  {
    if |args| == 0 then HandleErr(HandleExpected)
    else
      var s := args[0];
      var n := CharCount(s, '/');
      if n > 1 then HandleErr(HandleFormat)
      else if n == 0 then Handle(None, s)
      else
        var parts := SplitByChar(s, '/');
        CharCountAppend(parts.0 + ['/'], parts.1, '/');
        CharCountAppend(parts.0, ['/'], '/');
        Handle(Some(parts.0), parts.1)
  }

  // ---------------------------------------------------------------------
  // One keyword/value pair of vdpa_argv_parse

  /** What a recognised keyword writes into the record. */
  datatype Setting =
    | SetVdevName(name: string)
    | SetMgmtdev(bus: Option<string>, mdev: string)
    | SetMac(addr: seq<byte>)
    | SetMtu(mtu: U16)
    | SetMaxVqp(pairs: U16)
    | SetQueueIndex(index: U32)
    | SetFeatures(features: U64)

  function FlagOf(s: Setting): Opt
  {
    match s
    case SetVdevName(_) => VdevName
    case SetMgmtdev(_, _) => VdevMgmtdevHandle
    case SetMac(_) => VdevMac
    case SetMtu(_) => VdevMtu
    case SetMaxVqp(_) => MaxVqp
    case SetQueueIndex(_) => QueueIndex
    case SetFeatures(_) => VdevFeatures
  }

  /** The parser writes at most ETH_ALEN bytes over the start of the address. */
  function Overlay(written: seq<byte>, mac: seq<byte>): (r: seq<byte>)
    ensures |r| == |mac|
  {
    if |written| >= |mac| then written[..|mac|] else written + mac[|written|..]
  }

  function Apply(o: Opts, s: Setting): Opts
  {
    match s
    case SetVdevName(n) => o.(vdevName := Some(n))
    case SetMgmtdev(b, n) => o.(mdevBusName := b, mdevName := Some(n))
    case SetMac(m) => o.(mac := Overlay(m, o.mac))
    case SetMtu(v) => o.(mtu := v)
    case SetMaxVqp(v) => o.(maxVqp := v)
    case SetQueueIndex(v) => o.(queueIdx := v)
    case SetFeatures(v) => o.(deviceFeatures := v)
  }

  /**
   * The keyword `kw` selects option `flag` for a command with the given
   * masks: name, mgmtdev, mac and mtu when the command requires or allows
   * them, max_vqp, qidx and device_features only when it allows them.
   * "name", "mgmtdev" and "max_vqp" may be abbreviated; the others are
   * spelled out.
   */
  predicate Offered(flag: Opt, kw: string, all: set<Opt>, optional: set<Opt>)
  {
    || (flag == VdevName && Abbreviates(kw, "name") && flag in all)
    || (flag == VdevMgmtdevHandle && Abbreviates(kw, "mgmtdev") && flag in all)
    || (flag == VdevMac && kw == "mac" && flag in all)
    || (flag == VdevMtu && kw == "mtu" && flag in all)
    || (flag == MaxVqp && Abbreviates(kw, "max_vqp") && flag in optional)
    || (flag == QueueIndex && kw == "qidx" && flag in optional)
    || (flag == VdevFeatures && kw == "device_features" && flag in optional)
  }

  /** The order in which the keyword loop tries the options. */
  function Priority(flag: Opt): nat
  {
    match flag
    case VdevName => 0
    case VdevMgmtdevHandle => 1
    case VdevMac => 2
    case VdevMtu => 3
    case MaxVqp => 4
    case QueueIndex => 5
    case VdevFeatures => 6
    case _ => 7
  }

  /** `s` is what the value helper of its option makes of `val`. */
  predicate ParsedFrom(s: Setting, val: string, h: ArgHelpers)
  {
    match s
    case SetVdevName(n) => n == val
    case SetMgmtdev(b, n) => ArgvHandle([val]) == Handle(b, n)
    case SetMac(m) => h.lladdr(val) == Some(m)
    case SetMtu(v) => h.u16(val) == Some(v)
    case SetMaxVqp(v) => h.u16(val) == Some(v)
    case SetQueueIndex(v) => h.u32(val) == Some(v)
    case SetFeatures(v) => h.u64Hex(val) == Some(v)
  }

  datatype StepResult = StepErr(error: VdpaError) | StepOk(setting: Setting)

  /**
   * The option the keyword loop's chain of tests picks for `kw`: the first
   * one, in the loop's order, that the keyword selects; none for an
   * unknown option.
   */
  function Selected(kw: string, all: set<Opt>, optional: set<Opt>): (r: Option<Opt>)
    ensures r.Some? ==> Offered(r.value, kw, all, optional)
    ensures r.Some? ==> forall f: Opt :: Offered(f, kw, all, optional) ==> Priority(r.value) <= Priority(f)
    ensures r.None? <==> forall f: Opt :: !Offered(f, kw, all, optional)
  {
    if Abbreviates(kw, "name") && VdevName in all then
      assert Offered(VdevName, kw, all, optional); Some(VdevName)
    else if Abbreviates(kw, "mgmtdev") && VdevMgmtdevHandle in all then
      assert Offered(VdevMgmtdevHandle, kw, all, optional); Some(VdevMgmtdevHandle)
    else if kw == "mac" && VdevMac in all then
      assert Offered(VdevMac, kw, all, optional); Some(VdevMac)
    else if kw == "mtu" && VdevMtu in all then
      assert Offered(VdevMtu, kw, all, optional); Some(VdevMtu)
    else if Abbreviates(kw, "max_vqp") && MaxVqp in optional then
      assert Offered(MaxVqp, kw, all, optional); Some(MaxVqp)
    else if kw == "qidx" && QueueIndex in optional then
      assert Offered(QueueIndex, kw, all, optional); Some(QueueIndex)
    else if kw == "device_features" && VdevFeatures in optional then
      assert Offered(VdevFeatures, kw, all, optional); Some(VdevFeatures)
    else
      assert forall f: Opt :: !Offered(f, kw, all, optional);
      None
  }

  /**
   * The value helper of option `flag` applied to `val`: the handle parser
   * for mgmtdev, the MAC parser, the 16-bit, 32-bit or hexadecimal 64-bit
   * number parsers; the name is taken as it is.
   */
  function ParseValue(flag: Opt, val: string, h: ArgHelpers): (r: StepResult)
    requires Priority(flag) < 7
    ensures r.StepOk? ==> FlagOf(r.setting) == flag && ParsedFrom(r.setting, val, h)
    ensures r.StepErr? ==> !r.error.UnknownOption?
    ensures r.StepErr? <==> forall s: Setting :: FlagOf(s) == flag ==> !ParsedFrom(s, val, h)
  {
    match flag
    case VdevName => StepOk(SetVdevName(val))
    case VdevMgmtdevHandle =>
      (match ArgvHandle([val])
       case HandleErr(e) => StepErr(e)
       case Handle(b, n) => StepOk(SetMgmtdev(b, n)))
    case VdevMac =>
      (match h.lladdr(val)
       case None => StepErr(BadMac)
       case Some(m) => StepOk(SetMac(m)))
    case VdevMtu =>
      (match h.u16(val)
       case None => StepErr(BadNumber)
       case Some(v) => StepOk(SetMtu(v)))
    case MaxVqp =>
      (match h.u16(val)
       case None => StepErr(BadNumber)
       case Some(v) => StepOk(SetMaxVqp(v)))
    case QueueIndex =>
      (match h.u32(val)
       case None => StepErr(BadNumber)
       case Some(v) => StepOk(SetQueueIndex(v)))
    case VdevFeatures =>
      (match h.u64Hex(val)
       case None => StepErr(BadNumber)
       case Some(v) => StepOk(SetFeatures(v)))
    case _ => assert false; StepErr(RequiredBug)
  }

  /** One pass of the keyword loop: the keyword `kw` and its value `val`. */
  function KeywordStep(kw: string, val: string, all: set<Opt>, optional: set<Opt>, h: ArgHelpers): (r: StepResult)
    ensures r.StepOk? ==> Offered(FlagOf(r.setting), kw, all, optional) && ParsedFrom(r.setting, val, h)
    ensures r.StepOk? ==> forall f: Opt :: Offered(f, kw, all, optional) ==> Priority(FlagOf(r.setting)) <= Priority(f)
    ensures r == StepErr(UnknownOption(kw)) <==> forall f: Opt :: !Offered(f, kw, all, optional)
    ensures r.StepErr? <==>
      || Selected(kw, all, optional).None?
      || forall s: Setting :: FlagOf(s) == Selected(kw, all, optional).value ==> !ParsedFrom(s, val, h)
  {
    match Selected(kw, all, optional)
    case None => StepErr(UnknownOption(kw))
    case Some(flag) => ParseValue(flag, val, h)
  }

  // ---------------------------------------------------------------------
  // The whole of vdpa_argv_parse, as a specification

  datatype LoopEnd = Stopped(error: VdpaError, opts: Opts) | Done(opts: Opts, found: set<Opt>)

  /**
   * The keyword loop: it runs while at least two tokens remain (a keyword
   * and its value), so a single trailing token is left unread.
   */
  function KeywordLoop(args: seq<string>, all: set<Opt>, optional: set<Opt>, h: ArgHelpers,
                       o: Opts, found: set<Opt>): LoopEnd
    decreases |args|
  {
    if |args| < 2 then Done(o, found)
    else
      match KeywordStep(args[0], args[1], all, optional, h)
      case StepErr(e) => Stopped(e, o)
      case StepOk(s) => KeywordLoop(args[2..], all, optional, h, Apply(o, s), found + {FlagOf(s)})
  }

  /** The positional handle, if the command requires one, then the keyword loop. */
  function ParseLoop(o: Opts, args: seq<string>, required: set<Opt>, optional: set<Opt>, h: ArgHelpers): LoopEnd
  {
    var all := required + optional;
    if MgmtdevHandle in required then
      match ArgvHandle(args)
      case HandleErr(e) => Stopped(e, o)
      case Handle(b, n) =>
        KeywordLoop(args[1..], all, optional, h, o.(mdevBusName := b, mdevName := Some(n)), {MgmtdevHandle})
    else if VdevHandle in required then
      if |args| == 0 then Stopped(StringExpected, o)
      else KeywordLoop(args[1..], all, optional, h, o.(vdevName := Some(args[0])), {VdevHandle})
    else
      KeywordLoop(args, all, optional, h, o, {})
  }

  datatype ParseOutcome = ParseOutcome(status: Status, opts: Opts)

  /**
   * vdpa_argv_parse: after a completed loop the record's `present` becomes
   * the flags found, and only then are the required ones checked; an error
   * inside the loop leaves `present` as it was.
   */
  function ArgvParseSpec(o: Opts, args: seq<string>, required: set<Opt>, optional: set<Opt>, h: ArgHelpers): ParseOutcome
  {
    match ParseLoop(o, args, required, optional, h)
    case Stopped(e, o') => ParseOutcome(Fail(e), o')
    case Done(o', found) => ParseOutcome(RequiredCheck(required, found), o'.(present := found))
  }

  /** One turn of the keyword loop. */
  lemma KeywordLoopUnfold(args: seq<string>, all: set<Opt>, optional: set<Opt>, h: ArgHelpers,
                          o: Opts, found: set<Opt>)
    requires |args| >= 2
    ensures var step := KeywordStep(args[0], args[1], all, optional, h);
      KeywordLoop(args, all, optional, h, o, found)
        == if step.StepErr? then Stopped(step.error, o)
           else KeywordLoop(args[2..], all, optional, h, Apply(o, step.setting), found + {FlagOf(step.setting)})
  {
  }

  // ---------------------------------------------------------------------
  // vdpa_args_finding_required_validate

  datatype Requirement = Requirement(flag: Opt, message: string)

  const RequiredTable: seq<Requirement> := [
    Requirement(VdevMgmtdevHandle, "management device handle not set."),
    Requirement(VdevName, "device name is not set."),
    Requirement(VdevHandle, "device name is not set."),
    Requirement(QueueIndex, "queue index is not set.")
  ]

  predicate Missing(required: set<Opt>, found: set<Opt>, flag: Opt)
  {
    flag in required && flag !in found
  }

  function RequiredCheckFrom(required: set<Opt>, found: set<Opt>, i: nat): Status
    requires i <= |RequiredTable|
    decreases |RequiredTable| - i
  {
    if i == |RequiredTable| then
      if required - found != {} then Fail(RequiredBug) else Ok
    else if Missing(required, found, RequiredTable[i].flag) then
      Fail(MissingRequired(RequiredTable[i].message))
    else
      RequiredCheckFrom(required, found, i + 1)
  }

  function RequiredCheck(required: set<Opt>, found: set<Opt>): Status
  {
    RequiredCheckFrom(required, found, 0)
  }

  /** Validation passes exactly when every required flag was found. */
  lemma {:induction false} RequiredCheckFromOk(required: set<Opt>, found: set<Opt>, i: nat)
    requires i <= |RequiredTable|
    decreases |RequiredTable| - i
    ensures RequiredCheckFrom(required, found, i).Ok? <==> required <= found
  {
    if i < |RequiredTable| {
      RequiredCheckFromOk(required, found, i + 1);
      if Missing(required, found, RequiredTable[i].flag) {
        assert RequiredTable[i].flag in required - found;
      }
    } else if !(required <= found) {
      var x :| x in required && x !in found;
      assert x in required - found;
    }
  }

  /**
   * When validation fails on a table entry, it is the first missing one in
   * table order; when it reports the internal error, no table entry is
   * missing.
   */
  lemma {:induction false} RequiredCheckFromFirst(required: set<Opt>, found: set<Opt>, i: nat)
    requires i <= |RequiredTable|
    decreases |RequiredTable| - i
    ensures var s := RequiredCheckFrom(required, found, i);
      && (s.Fail? && s.error.MissingRequired? ==>
            exists k :: i <= k < |RequiredTable| && Missing(required, found, RequiredTable[k].flag)
              && s.error.message == RequiredTable[k].message
              && forall j :: i <= j < k ==> !Missing(required, found, RequiredTable[j].flag))
      && (s == Fail(RequiredBug) ==>
            forall j :: i <= j < |RequiredTable| ==> !Missing(required, found, RequiredTable[j].flag))
      && (s.Fail? ==> s.error.MissingRequired? || s.error == RequiredBug)
  {
    if i < |RequiredTable| && !Missing(required, found, RequiredTable[i].flag) {
      RequiredCheckFromFirst(required, found, i + 1);
    }
  }

  /** The table loop of vdpa_args_finding_required_validate. */
  method ValidateRequired(required: set<Opt>, found: set<Opt>) returns (s: Status)
    ensures s == RequiredCheck(required, found)
    ensures s.Ok? <==> required <= found
  {
    var i := 0;
    while i < |RequiredTable|
      invariant 0 <= i <= |RequiredTable|
      invariant RequiredCheckFrom(required, found, i) == RequiredCheck(required, found)
    {
      var entry := RequiredTable[i];
      if entry.flag in required && entry.flag !in found {
        return Fail(MissingRequired(entry.message));
      }
      i := i + 1;
    }
    RequiredCheckFromOk(required, found, 0);
    if required - found != {} {
      return Fail(RequiredBug);
    }
    return Ok;
  }

  // ---------------------------------------------------------------------
  // vdpa_opts_put

  /** A request attribute, by the libmnl helper that writes it. */
  datatype ReqAttr =
    | Strz(kind: U16, text: string)           // mnl_attr_put_strz
    | Binary(kind: U16, data: seq<byte>)      // mnl_attr_put
    | AttrU16(kind: U16, v16: U16)            // mnl_attr_put_u16
    | AttrU32(kind: U16, v32: U32)            // mnl_attr_put_u32
    | AttrU64(kind: U16, v64: U64)            // mnl_attr_put_u64

  /** The canonical position of each attribute vdpa_opts_put can write. */
  function PutRank(kind: U16): nat
  {
    if kind == AttrMgmtdevBusName then 0
    else if kind == AttrMgmtdevDevName then 1
    else if kind == AttrDevName then 2
    else if kind == AttrDevNetCfgMacAddr then 3
    else if kind == AttrDevNetCfgMtu then 4
    else if kind == AttrDevNetCfgMaxVqp then 5
    else if kind == AttrDevQueueIndex then 6
    else if kind == AttrDevFeatures then 7
    else 8
  }

  /** Either handle option names the management device. */
  predicate HasMgmtdev(present: set<Opt>) { MgmtdevHandle in present || VdevMgmtdevHandle in present }

  /** Either the positional handle or the "name" keyword names the device. */
  predicate HasVdevName(present: set<Opt>) { VdevName in present || VdevHandle in present }

  /** The attributes are in strictly increasing canonical position. */
  predicate CanonicallyOrdered(r: seq<ReqAttr>)
  {
    forall i, j :: 0 <= i < j < |r| ==> PutRank(r[i].kind) < PutRank(r[j].kind)
  }

  /** The string an optional name points to; the empty string for none. */
  function OrEmpty(s: Option<string>): string
  {
    if s.Some? then s.value else ""
  }

  /**
   * One step of vdpa_opts_put: the attribute it writes and whether the
   * options call for it.
   */
  datatype Slot = Slot(put: bool, attr: ReqAttr)

  /**
   * The steps of vdpa_opts_put in the order the function takes them: the
   * management device's bus and name whenever either handle option is
   * present (the bus only when the handle had one), the device name
   * whenever the device handle or "name" is, then each value with the
   * width the kernel expects.
   */
  function Slots(o: Opts): (r: seq<Slot>)
    ensures |r| == 8 && SlotsRanked(r)
  {
    [Slot(HasMgmtdev(o.present) && o.mdevBusName.Some?, Strz(AttrMgmtdevBusName, OrEmpty(o.mdevBusName))),
     Slot(HasMgmtdev(o.present), Strz(AttrMgmtdevDevName, OrEmpty(o.mdevName))),
     Slot(HasVdevName(o.present), Strz(AttrDevName, OrEmpty(o.vdevName))),
     Slot(VdevMac in o.present, Binary(AttrDevNetCfgMacAddr, o.mac)),
     Slot(VdevMtu in o.present, AttrU16(AttrDevNetCfgMtu, o.mtu)),
     Slot(MaxVqp in o.present, AttrU16(AttrDevNetCfgMaxVqp, o.maxVqp)),
     Slot(QueueIndex in o.present, AttrU32(AttrDevQueueIndex, o.queueIdx)),
     Slot(VdevFeatures in o.present, AttrU64(AttrDevFeatures, o.deviceFeatures))]
  }

  /** Slot `i` writes the attribute of canonical position `i`. */
  predicate SlotsRanked(s: seq<Slot>)
  {
    forall i :: 0 <= i < |s| ==> PutRank(s[i].attr.kind) == i
  }

  /** The attributes of the slots from `i` on whose condition holds, in order. */
  function Emit(s: seq<Slot>, i: nat): (r: seq<ReqAttr>)
    ensures |r| <= if i <= |s| then |s| - i else 0
    decreases |s| - i
  {
    if i >= |s| then []
    else if s[i].put then [s[i].attr] + Emit(s, i + 1)
    else Emit(s, i + 1)
  }

  /** The request attributes for the present options (vdpa_opts_put). */
  function OptsPut(o: Opts): (r: seq<ReqAttr>)
    ensures |r| <= 8
  {
    Emit(Slots(o), 0)
  }

  /** Emit writes an attribute exactly when some slot from `i` on puts it. */
  lemma {:induction false} EmitMembers(s: seq<Slot>, i: nat, a: ReqAttr)
    ensures a in Emit(s, i) <==> exists j :: i <= j < |s| && s[j].put && s[j].attr == a
    decreases |s| - i
  {
    if i < |s| {
      EmitMembers(s, i + 1, a);
      if s[i].put && s[i].attr == a {
        assert Emit(s, i) == [a] + Emit(s, i + 1);
      } else {
        assert a in Emit(s, i) <==> a in Emit(s, i + 1);
        if exists j :: i <= j < |s| && s[j].put && s[j].attr == a {
          var j :| i <= j < |s| && s[j].put && s[j].attr == a;
          assert i + 1 <= j;
        }
      }
    }
  }

  /** With ranked slots, Emit from `i` writes positions `i` and above, strictly increasing. */
  lemma {:induction false} EmitOrdered(s: seq<Slot>, i: nat)
    requires SlotsRanked(s)
    ensures CanonicallyOrdered(Emit(s, i))
    ensures forall a :: a in Emit(s, i) ==> i <= PutRank(a.kind) < |s|
    decreases |s| - i
  {
    if i < |s| {
      EmitOrdered(s, i + 1);
      var tail := Emit(s, i + 1);
      if s[i].put {
        var r := [s[i].attr] + tail;
        forall j, k | 0 <= j < k < |r|
          ensures PutRank(r[j].kind) < PutRank(r[k].kind)
        {
          assert r[k] == tail[k - 1];
          if j > 0 {
            assert r[j] == tail[j - 1];
          } else {
            assert tail[k - 1] in tail;
          }
        }
      }
    }
  }

  /** The attributes go out in the fixed order of vdpa_opts_put, so no type appears twice. */
  lemma OptsPutOrdered(o: Opts)
    ensures CanonicallyOrdered(OptsPut(o))
    ensures forall a :: a in OptsPut(o) ==> PutRank(a.kind) < 8
  {
    EmitOrdered(Slots(o), 0);
  }

  /**
   * The request carries the attribute of slot `k` exactly when that slot's
   * condition holds, and carries nothing but slot attributes.
   */
  lemma OptsPutMembers(o: Opts, k: nat)
    requires k < 8
    ensures Slots(o)[k].attr in OptsPut(o) <==> Slots(o)[k].put
    ensures forall a :: a in OptsPut(o) ==> exists j :: 0 <= j < 8 && Slots(o)[j].put && Slots(o)[j].attr == a
  {
    var s := Slots(o);
    EmitMembers(s, 0, s[k].attr);
    if s[k].attr in OptsPut(o) {
      var j :| 0 <= j < |s| && s[j].put && s[j].attr == s[k].attr;
      assert PutRank(s[j].attr.kind) == j && PutRank(s[k].attr.kind) == k;
    }
    forall a | a in OptsPut(o)
      ensures exists j :: 0 <= j < 8 && s[j].put && s[j].attr == a
    {
      EmitMembers(s, 0, a);
    }
  }

  // ---------------------------------------------------------------------
  // The record as an object

  /** struct vdpa_opts, which vdpa_argv_parse fills in place. */
  class VdpaOpts {
    var present: set<Opt>
    var mdevBusName: Option<string>
    var mdevName: Option<string>
    var vdevName: Option<string>
    var mac: seq<byte>
    var mtu: U16
    var maxVqp: U16
    var queueIdx: U32
    var deviceFeatures: U64

    function Snapshot(): Opts
      reads this
    {
      Opts(present, mdevBusName, mdevName, vdevName, mac, mtu, maxVqp, queueIdx, deviceFeatures)
    }

    ghost predicate Valid()
      reads this
    {
      Consistent(Snapshot())
    }

    /** The record as calloc leaves it. */
    constructor ()
      ensures Valid() && Snapshot() == InitialOpts
    {
      present := {};
      mdevBusName, mdevName, vdevName := None, None, None;
      mac := Zeros(EtherAddrLen);
      mtu, maxVqp, queueIdx, deviceFeatures := 0, 0, 0, 0;
    }

    method ApplySetting(s: Setting)
      modifies this
      ensures Snapshot() == Apply(old(Snapshot()), s)
      ensures present == old(present)
    {
      match s
      case SetVdevName(n) => vdevName := Some(n);
      case SetMgmtdev(b, n) => mdevBusName, mdevName := b, Some(n);
      case SetMac(m) => mac := Overlay(m, mac);
      case SetMtu(v) => mtu := v;
      case SetMaxVqp(v) => maxVqp := v;
      case SetQueueIndex(v) => queueIdx := v;
      case SetFeatures(v) => deviceFeatures := v;
    }

    /** vdpa_argv_parse */
    method ArgvParse(args: seq<string>, required: set<Opt>, optional: set<Opt>, h: ArgHelpers) returns (err: int)
      requires Valid()
      modifies this
      ensures Valid()
      ensures var spec := ArgvParseSpec(old(Snapshot()), args, required, optional, h);
        && Snapshot() == spec.opts
        && err == (if spec.status.Ok? then 0 else Errno(spec.status.error))
    {
      ghost var start := Snapshot();
      ParsePreservesConsistent(start, args, required, optional, h);
      var all := required + optional;
      var found: set<Opt> := {};
      var rest := args;
      if MgmtdevHandle in required {
        var hr := ArgvHandle(rest);
        if hr.HandleErr? {
          return Errno(hr.error);
        }
        mdevBusName, mdevName := hr.bus, Some(hr.name);
        rest := rest[1..];
        found := found + {MgmtdevHandle};
        assert Snapshot() == start.(mdevBusName := hr.bus, mdevName := Some(hr.name));
        assert found == {MgmtdevHandle};
      } else if VdevHandle in required {
        if |rest| == 0 {
          return Errno(StringExpected);
        }
        vdevName := Some(rest[0]);
        rest := rest[1..];
        found := found + {VdevHandle};
        assert Snapshot() == start.(vdevName := Some(args[0]));
        assert found == {VdevHandle};
      }
      ghost var target := ParseLoop(start, args, required, optional, h);
      assert target == KeywordLoop(rest, all, optional, h, Snapshot(), found);
      while 2 <= |rest|
        invariant present == start.present
        invariant KeywordLoop(rest, all, optional, h, Snapshot(), found) == target
        decreases |rest|
      {
        var step := KeywordStep(rest[0], rest[1], all, optional, h);
        KeywordLoopUnfold(rest, all, optional, h, Snapshot(), found);
        if step.StepErr? {
          return Errno(step.error);
        }
        ApplySetting(step.setting);
        found := found + {FlagOf(step.setting)};
        rest := rest[2..];
      }
      present := found;
      var s := ValidateRequired(required, found);
      err := if s.Ok? then 0 else Errno(s.error);
    }

    /** vdpa_argv_parse_put: parse, then emit the request attributes. */
    method ArgvParsePut(args: seq<string>, required: set<Opt>, optional: set<Opt>, h: ArgHelpers)
      returns (err: int, attrs: seq<ReqAttr>)
      requires Valid()
      modifies this
      ensures Valid()
      ensures var spec := ArgvParseSpec(old(Snapshot()), args, required, optional, h);
        && Snapshot() == spec.opts
        && (err == 0 <==> spec.status.Ok?)
        && attrs == (if err == 0 then OptsPut(Snapshot()) else [])
    {
      err := ArgvParse(args, required, optional, h);
      if err != 0 {
        return err, [];
      }
      attrs := OptsPut(Snapshot());
    }
  }

  // ---------------------------------------------------------------------
  // Properties of the option engine

  /** The flags found while consuming keywords, with their values set. */
  predicate FoundSet(o: Opts, found: set<Opt>)
  {
    && |o.mac| == EtherAddrLen
    && (HasMgmtdev(found) ==> o.mdevName.Some?)
    && (HasVdevName(found) ==> o.vdevName.Some?)
  }

  lemma {:induction false} KeywordLoopProperties(args: seq<string>, all: set<Opt>, optional: set<Opt>,
                                                 h: ArgHelpers, o: Opts, found: set<Opt>)
    requires optional <= all
    requires found <= all && FoundSet(o, found)
    ensures match KeywordLoop(args, all, optional, h, o, found)
      case Done(o', f) => f <= all && found <= f && FoundSet(o', f) && o'.present == o.present
      case Stopped(_, o') => FoundSet(o', found) && o'.present == o.present
    decreases |args|
  {
    if |args| >= 2 {
      match KeywordStep(args[0], args[1], all, optional, h)
      case StepErr(_) =>
      case StepOk(s) =>
        var f := FlagOf(s);
        assert FoundSet(Apply(o, s), found + {f});
        KeywordLoopProperties(args[2..], all, optional, h, Apply(o, s), found + {f});
        match KeywordLoop(args[2..], all, optional, h, Apply(o, s), found + {f})
        case Done(o', f') =>
          assert found <= f';
        case Stopped(_, o') =>
          assert FoundSet(o', found);
    }
  }

  /**
   * After a completed loop, `present` holds only flags the command
   * requires or allows, and holds every flag found; a failure inside the
   * loop leaves `present` as it was.
   */
  lemma ParsePresent(o: Opts, args: seq<string>, required: set<Opt>, optional: set<Opt>, h: ArgHelpers)
    requires Consistent(o)
    ensures match ParseLoop(o, args, required, optional, h)
      case Done(o', found) =>
        var out := ArgvParseSpec(o, args, required, optional, h);
        && out.opts.present == found
        && found <= required + optional
        && (MgmtdevHandle in required ==> MgmtdevHandle in found)
        && (MgmtdevHandle !in required && VdevHandle in required ==> VdevHandle in found)
      case Stopped(_, o') =>
        ArgvParseSpec(o, args, required, optional, h).opts.present == o.present
  {
    var all := required + optional;
    if MgmtdevHandle in required {
      match ArgvHandle(args)
      case HandleErr(e) =>
      case Handle(b, n) =>
        var o1 := o.(mdevBusName := b, mdevName := Some(n));
        assert FoundSet(o1, {MgmtdevHandle});
        KeywordLoopProperties(args[1..], all, optional, h, o1, {MgmtdevHandle});
    } else if VdevHandle in required {
      if |args| > 0 {
        var o1 := o.(vdevName := Some(args[0]));
        assert FoundSet(o1, {VdevHandle});
        KeywordLoopProperties(args[1..], all, optional, h, o1, {VdevHandle});
      }
    } else {
      assert FoundSet(o, {});
      KeywordLoopProperties(args, all, optional, h, o, {});
    }
  }

  /** Parsing keeps the record consistent, whatever the outcome. */
  lemma ParsePreservesConsistent(o: Opts, args: seq<string>, required: set<Opt>, optional: set<Opt>, h: ArgHelpers)
    requires Consistent(o)
    ensures Consistent(ArgvParseSpec(o, args, required, optional, h).opts)
  {
    var all := required + optional;
    var o1, f1, rest;
    if MgmtdevHandle in required {
      match ArgvHandle(args)
      case HandleErr(e) => return;
      case Handle(b, n) =>
        o1, f1, rest := o.(mdevBusName := b, mdevName := Some(n)), {MgmtdevHandle}, args[1..];
    } else if VdevHandle in required {
      if |args| == 0 { return; }
      o1, f1, rest := o.(vdevName := Some(args[0])), {VdevHandle}, args[1..];
    } else {
      o1, f1, rest := o, {}, args;
    }
    assert ParseLoop(o, args, required, optional, h) == KeywordLoop(rest, all, optional, h, o1, f1);
    assert FoundSet(o1, f1);
    assert f1 <= all;
    KeywordLoopProperties(rest, all, optional, h, o1, f1);
    KeywordLoopStoppedConsistent(rest, all, optional, h, o1, f1, o);
  }

  /** A record that was consistent stays so when the loop stops early. */
  lemma {:induction false} KeywordLoopStoppedConsistent(args: seq<string>, all: set<Opt>, optional: set<Opt>,
                                                        h: ArgHelpers, o: Opts, found: set<Opt>, o0: Opts)
    requires Consistent(o0) && o.present == o0.present && |o.mac| == EtherAddrLen
    requires (o0.mdevName.Some? ==> o.mdevName.Some?) && (o0.vdevName.Some? ==> o.vdevName.Some?)
    ensures KeywordLoop(args, all, optional, h, o, found).Stopped? ==>
      Consistent(KeywordLoop(args, all, optional, h, o, found).opts)
    decreases |args|
  {
    if |args| >= 2 {
      match KeywordStep(args[0], args[1], all, optional, h)
      case StepErr(_) =>
      case StepOk(s) =>
        KeywordLoopStoppedConsistent(args[2..], all, optional, h, Apply(o, s), found + {FlagOf(s)}, o0);
    }
  }

  /** Validation after a completed loop: success exactly when all required flags were found. */
  lemma ParseSucceedsIffRequiredFound(o: Opts, args: seq<string>, required: set<Opt>, optional: set<Opt>, h: ArgHelpers)
    requires ParseLoop(o, args, required, optional, h).Done?
    ensures var out := ArgvParseSpec(o, args, required, optional, h);
      out.status.Ok? <==> required <= out.opts.present
  {
    RequiredCheckFromOk(required, ParseLoop(o, args, required, optional, h).found, 0);
  }

  /**
   * A single token after the last keyword/value pair is never read: the
   * loop ends the same way with or without it.
   */
  lemma {:induction false} TrailingTokenIgnored(args: seq<string>, extra: string, all: set<Opt>, optional: set<Opt>,
                                                h: ArgHelpers, o: Opts, found: set<Opt>)
    requires |args| % 2 == 0
    ensures KeywordLoop(args + [extra], all, optional, h, o, found) == KeywordLoop(args, all, optional, h, o, found)
    decreases |args|
  {
    if |args| >= 2 {
      assert (args + [extra])[2..] == args[2..] + [extra];
      match KeywordStep(args[0], args[1], all, optional, h)
      case StepErr(_) =>
      case StepOk(s) =>
        TrailingTokenIgnored(args[2..], extra, all, optional, h, Apply(o, s), found + {FlagOf(s)});
    }
  }

  /** Settings of different options write different fields, so their order does not matter. */
  lemma ApplyCommutes(o: Opts, s1: Setting, s2: Setting)
    requires FlagOf(s1) != FlagOf(s2)
    ensures Apply(Apply(o, s1), s2) == Apply(Apply(o, s2), s1)
  {
    match s1
    case SetMac(m) =>
      assert Apply(o, s2).mac == o.mac;
    case _ =>
      match s2
      case SetMac(m) =>
        assert Apply(o, s1).mac == o.mac;
      case _ =>
  }

  /**
   * Two keyword/value pairs for different options may be given in either
   * order: the loop ends in the same record with the same flags.
   */
  lemma SwapPairs(k1: string, v1: string, k2: string, v2: string, rest: seq<string>,
                  all: set<Opt>, optional: set<Opt>, h: ArgHelpers, o: Opts, found: set<Opt>)
    requires KeywordStep(k1, v1, all, optional, h).StepOk?
    requires KeywordStep(k2, v2, all, optional, h).StepOk?
    requires FlagOf(KeywordStep(k1, v1, all, optional, h).setting)
          != FlagOf(KeywordStep(k2, v2, all, optional, h).setting)
    ensures KeywordLoop([k1, v1, k2, v2] + rest, all, optional, h, o, found)
         == KeywordLoop([k2, v2, k1, v1] + rest, all, optional, h, o, found)
  {
    var s1 := KeywordStep(k1, v1, all, optional, h).setting;
    var s2 := KeywordStep(k2, v2, all, optional, h).setting;
    var a := [k1, v1, k2, v2] + rest;
    var b := [k2, v2, k1, v1] + rest;
    assert a[2..][2..] == rest && b[2..][2..] == rest;
    assert a[2..][0] == k2 && a[2..][1] == v2 && b[2..][0] == k1 && b[2..][1] == v1;
    ApplyCommutes(o, s1, s2);
    assert found + {FlagOf(s1)} + {FlagOf(s2)} == found + {FlagOf(s2)} + {FlagOf(s1)};
  }

  // ---------------------------------------------------------------------
  // The commands' option policies

  datatype Command = MgmtdevShow | DevShow | DevAdd | DevDel | DevSet | DevConfigShow | DevVstatsShow

  function Required(c: Command): set<Opt>
  {
    match c
    case MgmtdevShow => {MgmtdevHandle}
    case DevShow => {VdevHandle}
    case DevAdd => {VdevMgmtdevHandle, VdevName}
    case DevDel => {VdevHandle}
    case DevSet => {VdevName}
    case DevConfigShow => {VdevHandle}
    case DevVstatsShow => {VdevHandle}
  }

  function Optional(c: Command): set<Opt>
  {
    match c
    case DevAdd => {VdevMac, VdevMtu, MaxVqp, VdevFeatures}
    case DevSet => {VdevMac}
    case DevVstatsShow => {QueueIndex}
    case _ => {}
  }

  /**
   * "dev add name N mgmtdev M": both required options are found, the
   * record holds exactly those two flags, and the request carries the
   * management device name and then the device name.
   */
  lemma DevAddMinimal(n: string, m: string, h: ArgHelpers)
    requires '/' !in m
    ensures var out := ArgvParseSpec(InitialOpts, ["name", n, "mgmtdev", m], Required(DevAdd), Optional(DevAdd), h);
      && out.status == Ok
      && out.opts.present == {VdevName, VdevMgmtdevHandle}
      && OptsPut(out.opts) == [Strz(AttrMgmtdevDevName, m), Strz(AttrDevName, n)]
  {
    var args := ["name", n, "mgmtdev", m];
    var req, opt := Required(DevAdd), Optional(DevAdd);
    var all := req + opt;
    assert "name"[..4] == "name";
    assert KeywordStep("name", n, all, opt, h) == StepOk(SetVdevName(n));
    var o1 := InitialOpts.(vdevName := Some(n));
    assert ArgvHandle([m]) == Handle(None, m);
    assert "mgmtdev"[..7] == "mgmtdev" && "mgmtdev"[0] != "name"[0];
    assert KeywordStep("mgmtdev", m, all, opt, h) == StepOk(SetMgmtdev(None, m));
    var o2 := o1.(mdevBusName := None, mdevName := Some(m));
    assert args[2..] == ["mgmtdev", m] && args[2..][2..] == [];
    var found := {VdevName, VdevMgmtdevHandle};
    KeywordLoopUnfold(args, all, opt, h, InitialOpts, {});
    assert Apply(InitialOpts, SetVdevName(n)) == o1;
    KeywordLoopUnfold(args[2..], all, opt, h, o1, {} + {VdevName});
    assert Apply(o1, SetMgmtdev(None, m)) == o2;
    assert KeywordLoop(args, all, opt, h, InitialOpts, {}) == Done(o2, {} + {VdevName} + {VdevMgmtdevHandle});
    assert {} + {VdevName} + {VdevMgmtdevHandle} == found;
    assert ParseLoop(InitialOpts, args, req, opt, h) == Done(o2, found);
    RequiredCheckFromOk(req, found, 0);
    var out := o2.(present := found);
    assert ArgvParseSpec(InitialOpts, args, req, opt, h) == ParseOutcome(Ok, out);
    NamesOnlyRequest(out);
  }

  /** A record naming only the management device (without a bus) and the device. */
  lemma NamesOnlyRequest(o: Opts)
    requires o.present == {VdevName, VdevMgmtdevHandle} && o.mdevBusName.None?
    ensures OptsPut(o) == [Strz(AttrMgmtdevDevName, OrEmpty(o.mdevName)), Strz(AttrDevName, OrEmpty(o.vdevName))]
  {
    var slots := Slots(o);
    assert !slots[3].put && !slots[4].put && !slots[5].put && !slots[6].put && !slots[7].put;
    assert Emit(slots, 7) == [] && Emit(slots, 6) == [] && Emit(slots, 5) == [];
    assert Emit(slots, 4) == [] && Emit(slots, 3) == [];
    assert Emit(slots, 1) == [slots[1].attr] + ([slots[2].attr] + []);
  }

  /** "dev add mgmtdev M": the missing name is reported. */
  lemma DevAddWithoutName(m: string, h: ArgHelpers)
    requires '/' !in m
    ensures ArgvParseSpec(InitialOpts, ["mgmtdev", m], Required(DevAdd), Optional(DevAdd), h).status
      == Fail(MissingRequired("device name is not set."))
  {
    var args := ["mgmtdev", m];
    var req, opt := Required(DevAdd), Optional(DevAdd);
    var all := req + opt;
    assert ArgvHandle([m]) == Handle(None, m);
    assert "mgmtdev"[..7] == "mgmtdev" && "mgmtdev"[0] != "name"[0];
    assert KeywordStep("mgmtdev", m, all, opt, h) == StepOk(SetMgmtdev(None, m));
    assert args[2..] == [];
    var found := {VdevMgmtdevHandle};
    assert {} + {VdevMgmtdevHandle} == found;
    KeywordLoopUnfold(args, all, opt, h, InitialOpts, {});
    var o1 := InitialOpts.(mdevBusName := None, mdevName := Some(m));
    assert Apply(InitialOpts, SetMgmtdev(None, m)) == o1;
    assert ParseLoop(InitialOpts, args, req, opt, h) == Done(o1, found);
    assert RequiredCheckFrom(req, found, 0) == RequiredCheckFrom(req, found, 1);
  }

  /** An option the command does not take is an unknown option, even if another command takes it. */
  lemma QidxRejectedOutsideVstats(v: string, dev: string, h: ArgHelpers)
    ensures ArgvParseSpec(InitialOpts, [dev, "qidx", v], Required(DevShow), Optional(DevShow), h).status
      == Fail(UnknownOption("qidx"))
  {
    var args := [dev, "qidx", v];
    assert args[1..] == ["qidx", v];
    assert "qidx"[0] != "name"[0] && "qidx"[0] != "mgmtdev"[0] && "qidx"[0] != "max_vqp"[0];
    assert KeywordStep("qidx", v, Required(DevShow) + Optional(DevShow), Optional(DevShow), h)
      == StepErr(UnknownOption("qidx"));
  }
}
