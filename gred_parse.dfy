/**
 * The command line of the GRED queueing discipline (tc/q_gred.c):
 * `gred setup vqs N default D [grio] [limit BYTES]` configures the table
 * of virtual queues (init_gred), and `gred vq V limit .. min .. max ..
 * avpkt .. [burst ..] [probability ..] [prio ..] [bandwidth ..]` configures
 * one virtual queue (gred_parse_opt). Each parser walks the words left to
 * right, fills a zero-initialised kernel structure, checks what is
 * required and builds the TCA_OPTIONS nest of the request.
 *
 * The number parsers of the utility library and the RED parameter
 * evaluators are parameters of the model (GredHelpers).
 */
module GredParse {
  import opened Types
  import opened Netlink
  import opened GredWire

  /** The drop probability: the 0.02 default, or the word sscanf("%lg") accepted. */
  datatype Probability = DefaultProbability | GivenProbability(text: string)

  /** The 256-byte idle-damping table tc_red_eval_idle_damping fills. */
  type Stab = s: seq<byte> | |s| == 256 witness Zeros(256)

  /** What tc_red_eval_idle_damping returns: the cell log (negative on failure) and the table. */
  datatype Damping = Damping(scellLog: int, stab: Stab)

  /** The library functions the two parsers call. */
  datatype GredHelpers = GredHelpers(
    getUnsigned10: string -> Option<U32>,   // get_unsigned(.., 10)
    getUnsigned0: string -> Option<U32>,    // get_unsigned(.., 0)
    getSize: string -> Option<U32>,         // get_size
    getRate: string -> Option<U32>,         // get_rate
    getPercentRate: string -> Option<U32>,  // get_percent_rate for the device
    scansAsDouble: string -> bool,          // sscanf(.., "%lg", ..) == 1
    strtol: string -> int,                  // strtol(.., NULL, 10)
    evalEwma: (U32, U32, U32) -> int,       // tc_red_eval_ewma(qth_min, burst, avpkt)
    evalP: (U32, U32, Probability) -> int,  // tc_red_eval_P(qth_min, qth_max, probability)
    evalIdleDamping: (byte, U32, U32) -> Damping, // tc_red_eval_idle_damping(Wlog, avpkt, rate, sbuf)
    maxP: Probability -> U32)               // probability * 2^32, converted to __u32

  datatype GredError =
    | IllegalValue(keyword: string)   // the value after a keyword does not parse
    | TooManyVqs                      // a queue count or number beyond MAX_DPs
    | DefaultBeforeVqs                // "default" while no queue count is set
    | DefaultNotBelowVqs              // "default" not below the queue count
    | HelpShown
    | UnknownWord(word: string)
    | Incomplete                      // a keyword is the last word: the process exits
    | IllegalSetupParameters          // no queue count, or no default queue
    | IllegalSetup                    // "setup" after per-queue parameters
    | NothingGiven                    // no per-queue parameter at all
    | RequiredMissing                 // vq, limit, min, max or avpkt missing
    | EwmaFailed
    | ProbabilityFailed
    | IdleDampingFailed

  /**
   * The result of a parser: the TCA_OPTIONS nest appended to the request
   * (with NLM_F_CREATE raised for a setup), or the reason it returned -1.
   */
  datatype Outcome = Sent(create: bool, options: Attr) | Failed(error: GredError)

  // ---------------------------------------------------------------------
  // init_gred
  // ---------------------------------------------------------------------

  /** The locals of init_gred: the tc_gred_sopt being filled and the limit. */
  datatype SetupState = SetupState(opt: Sopt, limit: U32)

  /** The zeroed structure with def_DP set to MAX_DPs, meaning "no default yet". */
  function SetupStart(): SetupState
  {
    SetupState(Sopt(0, MaxDps, 0, 0), 0)
  }

  /** What init_gred's loop keeps: counts and the default never exceed MAX_DPs. */
  predicate SetupBounded(st: SetupState)
  {
    st.opt.dps <= MaxDps && st.opt.defDp <= MaxDps && st.opt.grio <= 1
  }

  datatype SetupStep = SetupNext(state: SetupState, used: nat) | SetupStop(error: GredError)

  /** One iteration of init_gred's loop on the word at the head of `args`. */
  function SetupWord(args: seq<string>, st: SetupState, h: GredHelpers): (r: SetupStep)
    requires args != []
    ensures r.SetupNext? ==> 1 <= r.used <= |args|
    ensures SetupBounded(st) && r.SetupNext? ==> SetupBounded(r.state)
    ensures args[0] == "default" && st.opt.dps == 0 ==> r == SetupStop(DefaultBeforeVqs)
    ensures r.SetupNext? && args[0] == "default" ==> r.state.opt.defDp < r.state.opt.dps
    ensures r.SetupNext? && args[0] != "default" ==> r.state.opt.defDp == st.opt.defDp
    ensures (args[0] == "vqs" || args[0] == "DPs") && |args| >= 2
              && h.getUnsigned10(args[1]).Some? && h.getUnsigned10(args[1]).value > MaxDps
            ==> r == SetupStop(TooManyVqs)
  {
    var w := args[0];
    if w == "vqs" || w == "DPs" then
      if |args| < 2 then SetupStop(Incomplete)
      else match h.getUnsigned10(args[1])
        case None => SetupStop(IllegalValue("vqs"))
        case Some(n) =>
          if n > MaxDps then SetupStop(TooManyVqs)
          else SetupNext(st.(opt := st.opt.(dps := n)), 2)
    else if w == "default" then
      if st.opt.dps == 0 then SetupStop(DefaultBeforeVqs)
      else if |args| < 2 then SetupStop(Incomplete)
      else match h.getUnsigned10(args[1])
        case None => SetupStop(IllegalValue("default"))
        case Some(d) =>
          if d >= st.opt.dps then SetupStop(DefaultNotBelowVqs)
          else SetupNext(st.(opt := st.opt.(defDp := d)), 2)
    else if w == "grio" then SetupNext(st.(opt := st.opt.(grio := 1)), 1)
    else if w == "limit" then
      if |args| < 2 then SetupStop(Incomplete)
      else match h.getSize(args[1])
        case None => SetupStop(IllegalValue("limit"))
        case Some(l) => SetupNext(st.(limit := l), 2)
    else if w == "help" then SetupStop(HelpShown)
    else SetupStop(UnknownWord(w))
  }

  datatype SetupEnd = SetupDone(state: SetupState) | SetupFailed(error: GredError)

  /** init_gred's loop over all remaining words. */
  function SetupLoop(args: seq<string>, st: SetupState, h: GredHelpers): SetupEnd
    decreases |args|
  {
    if args == [] then SetupDone(st)
    else match SetupWord(args, st, h)
      case SetupStop(e) => SetupFailed(e)
      case SetupNext(next, n) => SetupLoop(args[n..], next, h)
  }

  /** The nest init_gred appends: the setup structure, then the limit when it is not zero. */
  function SetupOptions(st: SetupState): (r: Attr)
    ensures r.kind == TcaOptions
  {
    var limit := if st.limit != 0 then [Attr(GredLimit, Le32(st.limit))] else [];
    Nest(TcaOptions, [Attr(GredDps, EncodeSopt(st.opt))] + limit)
  }

  /** The check after the loop, then the request. */
  function SetupFinish(st: SetupState): Outcome
  {
    if st.opt.dps == 0 || st.opt.defDp == MaxDps then Failed(IllegalSetupParameters)
    else Sent(true, SetupOptions(st))
  }

  function InitGredSpec(args: seq<string>, h: GredHelpers): Outcome
  {
    match SetupLoop(args, SetupStart(), h)
      case SetupFailed(e) => Failed(e)
      case SetupDone(st) => SetupFinish(st)
  }

  /** init_gred: the setup words in `args` parsed into a request. */
  method InitGred(args: seq<string>, h: GredHelpers) returns (r: Outcome)
    ensures r == InitGredSpec(args, h)
  {
    var opt := Sopt(0, MaxDps, 0, 0);
    var limit: U32 := 0;
    var rest := args;
    while rest != []
      invariant SetupLoop(rest, SetupState(opt, limit), h) == SetupLoop(args, SetupStart(), h)
      decreases |rest|
    {
      var w := rest[0];
      if w == "vqs" || w == "DPs" {
        if |rest| < 2 { return Failed(Incomplete); }
        var n := h.getUnsigned10(rest[1]);
        if n.None? { return Failed(IllegalValue("vqs")); }
        if n.value > MaxDps { return Failed(TooManyVqs); }
        opt := opt.(dps := n.value);
        rest := rest[2..];
      } else if w == "default" {
        if opt.dps == 0 { return Failed(DefaultBeforeVqs); }
        if |rest| < 2 { return Failed(Incomplete); }
        var d := h.getUnsigned10(rest[1]);
        if d.None? { return Failed(IllegalValue("default")); }
        if d.value >= opt.dps { return Failed(DefaultNotBelowVqs); }
        opt := opt.(defDp := d.value);
        rest := rest[2..];
      } else if w == "grio" {
        opt := opt.(grio := 1);
        rest := rest[1..];
      } else if w == "limit" {
        if |rest| < 2 { return Failed(Incomplete); }
        var l := h.getSize(rest[1]);
        if l.None? { return Failed(IllegalValue("limit")); }
        limit := l.value;
        rest := rest[2..];
      } else if w == "help" {
        return Failed(HelpShown);
      } else {
        return Failed(UnknownWord(w));
      }
    }
    if opt.dps == 0 || opt.defDp == MaxDps {
      return Failed(IllegalSetupParameters);
    }
    var limitAttr := [];
    if limit != 0 {
      limitAttr := [Attr(GredLimit, Le32(limit))];
    }
    r := Sent(true, Nest(TcaOptions, [Attr(GredDps, EncodeSopt(opt))] + limitAttr));
  }

  lemma {:induction false} SetupLoopBounded(args: seq<string>, st: SetupState, h: GredHelpers)
    requires SetupBounded(st)
    ensures SetupLoop(args, st, h).SetupDone? ==> SetupBounded(SetupLoop(args, st, h).state)
    decreases |args|
  {
    if args != [] {
      match SetupWord(args, st, h)
        case SetupStop(_) =>
        case SetupNext(next, n) => SetupLoopBounded(args[n..], next, h);
    }
  }

  /** The kernel reads back exactly the setup structure and limit the loop collected. */
  lemma SetupRoundTrip(st: SetupState)
    ensures var tb := ParseRtattr(SetupOptions(st).payload, GredMax);
      && tb[GredDps] == Some(Attr(GredDps, EncodeSopt(st.opt)))
      && DecodeSopt(tb[GredDps].value.payload) == st.opt
      && tb[GredLimit] == (if st.limit != 0 then Some(Attr(GredLimit, Le32(st.limit))) else None)
      && (tb[GredLimit].Some? ==> ReadLe32(tb[GredLimit].value.payload) == st.limit)
      && tb[GredParms].None?
  {
    var limit := if st.limit != 0 then [Attr(GredLimit, Le32(st.limit))] else [];
    var children := [Attr(GredDps, EncodeSopt(st.opt))] + limit;
    NestRoundTrip(TcaOptions, children);
    SoptRoundTrip(st.opt, []);
    assert EncodeSopt(st.opt) + [] == EncodeSopt(st.opt);
    Le32ReadBack(st.limit);
  }

  /**
   * A setup init_gred sends declares between 1 and MAX_DPs queues, a
   * default queue below MAX_DPs, and a limit only when it is not zero.
   */
  lemma SetupAccepted(args: seq<string>, h: GredHelpers)
    requires InitGredSpec(args, h).Sent?
    ensures var o := InitGredSpec(args, h);
      var tb := ParseRtattr(o.options.payload, GredMax);
      && o.create && o.options.kind == TcaOptions
      && tb[GredDps].Some? && |tb[GredDps].value.payload| == SoptSize
      && var s := DecodeSopt(tb[GredDps].value.payload);
      && 1 <= s.dps <= MaxDps && s.defDp < MaxDps && s.grio <= 1
      && (tb[GredLimit].Some? ==> |tb[GredLimit].value.payload| == 4
                                  && ReadLe32(tb[GredLimit].value.payload) != 0)
  {
    SetupLoopBounded(args, SetupStart(), h);
    var st := SetupLoop(args, SetupStart(), h).state;
    SetupRoundTrip(st);
  }

  lemma {:induction false} SetupLoopKeepsNoDefault(args: seq<string>, st: SetupState, h: GredHelpers)
    requires forall i :: 0 <= i < |args| ==> args[i] != "default"
    requires st.opt.defDp == MaxDps
    ensures SetupLoop(args, st, h).SetupDone? ==> SetupLoop(args, st, h).state.opt.defDp == MaxDps
    decreases |args|
  {
    if args != [] {
      match SetupWord(args, st, h)
        case SetupStop(_) =>
        case SetupNext(next, n) =>
          assert forall i :: 0 <= i < |args[n..]| ==> args[n..][i] == args[n + i];
          SetupLoopKeepsNoDefault(args[n..], next, h);
    }
  }

  /** Without the word "default" no setup is sent: a default queue is mandatory. */
  lemma DefaultRequired(args: seq<string>, h: GredHelpers)
    requires forall i :: 0 <= i < |args| ==> args[i] != "default"
    ensures InitGredSpec(args, h).Failed?
  {
    SetupLoopKeepsNoDefault(args, SetupStart(), h);
  }

  /**
   * "default" is checked against the queue count only when it is given, so
   * a later "vqs" can lower the count below the default queue.
   */
  lemma DefaultCanOutliveVqs(h: GredHelpers)
    requires h.getUnsigned10("4") == Some(4) && h.getUnsigned10("3") == Some(3)
    requires h.getUnsigned10("2") == Some(2)
    ensures var o := InitGredSpec(["vqs", "4", "default", "3", "vqs", "2"], h);
      && o.Sent?
      && var s := DecodeSopt(ParseRtattr(o.options.payload, GredMax)[GredDps].value.payload);
      && s.dps == 2 && s.defDp == 3
  {
    var args := ["vqs", "4", "default", "3", "vqs", "2"];
    var s0 := SetupStart();
    var s1 := SetupState(Sopt(4, MaxDps, 0, 0), 0);
    var s2 := SetupState(Sopt(4, 3, 0, 0), 0);
    var s3 := SetupState(Sopt(2, 3, 0, 0), 0);
    var a1 := ["default", "3", "vqs", "2"];
    var a2 := ["vqs", "2"];
    assert SetupWord(args, s0, h) == SetupNext(s1, 2);
    assert args[2..] == a1;
    assert SetupWord(a1, s1, h) == SetupNext(s2, 2);
    assert a1[2..] == a2;
    assert SetupWord(a2, s2, h) == SetupNext(s3, 2);
    assert a2[2..] == [];
    assert SetupLoop(a2, s2, h) == SetupLoop([], s3, h) == SetupDone(s3);
    assert SetupLoop(a1, s1, h) == SetupLoop(a2, s2, h);
    assert SetupLoop(args, s0, h) == SetupLoop(a1, s1, h);
    SetupRoundTrip(s3);
  }

  // ---------------------------------------------------------------------
  // gred_parse_opt
  // ---------------------------------------------------------------------

  /**
   * The locals of gred_parse_opt: the tc_gred_qopt being filled, the RED
   * inputs kept outside it, and `ok`, the number of parameters accepted.
   */
  datatype ParamState = ParamState(
    opt: Qopt, burst: U32, avpkt: U32, probability: Probability, rate: U32, ok: nat)

  /** The zeroed structure with DP set to MAX_DPs, meaning "no queue chosen". */
  function ParamStart(): ParamState
  {
    ParamState(ZeroQopt.(dp := MaxDps), 0, 0, DefaultProbability, 0, 0)
  }

  datatype ParamStep = ParamNext(state: ParamState, used: nat) | ParamStop(error: GredError) | ParamSetup

  /** An int stored into a __u8 field: C keeps the value modulo 256. */
  function Truncate8(x: int): (r: byte)
    ensures r % 256 == x % 256
  {
    x % 256
  }

  /** The value after a keyword, parsed by `parse`, or why there is none. */
  function ParamValue(args: seq<string>, parse: string -> Option<U32>, keyword: string): (r: Option<U32>)
    requires args != []
    ensures r.Some? ==> |args| >= 2 && parse(args[1]) == r
  {
    if |args| < 2 then None else parse(args[1])
  }

  /** The error for a keyword whose value is missing or does not parse. */
  function ValueError(args: seq<string>, keyword: string): GredError
  {
    if |args| < 2 then Incomplete else IllegalValue(keyword)
  }

  /** `bandwidth`: a percentage of the device's rate when the word has a '%', a rate otherwise. */
  function Bandwidth(h: GredHelpers, text: string): Option<U32>
  {
    if '%' in text then h.getPercentRate(text) else h.getRate(text)
  }

  /** One iteration of gred_parse_opt's loop on the word at the head of `args`. */
  function ParamWord(args: seq<string>, st: ParamState, h: GredHelpers): (r: ParamStep)
    requires args != []
    ensures r.ParamNext? ==> 1 <= r.used <= |args| && r.state.ok == st.ok + 1
    ensures r.ParamSetup? <==> args[0] == "setup" && st.ok == 0
    ensures args[0] == "setup" && st.ok != 0 ==> r == ParamStop(IllegalSetup)
    ensures st.opt.dp <= MaxDps && r.ParamNext? ==> r.state.opt.dp <= MaxDps
    ensures r.ParamNext? && args[0] != "vq" && args[0] != "DP" ==> r.state.opt.dp == st.opt.dp
    ensures r.ParamNext? && (args[0] == "vq" || args[0] == "DP") ==> r.state.opt.dp < MaxDps
  {
    var w := args[0];
    if w == "limit" then
      match ParamValue(args, h.getSize, w)
        case None => ParamStop(ValueError(args, w))
        case Some(v) => ParamNext(st.(opt := st.opt.(limit := v), ok := st.ok + 1), 2)
    else if w == "setup" then
      if st.ok != 0 then ParamStop(IllegalSetup) else ParamSetup
    else if w == "min" then
      match ParamValue(args, h.getSize, w)
        case None => ParamStop(ValueError(args, w))
        case Some(v) => ParamNext(st.(opt := st.opt.(qthMin := v), ok := st.ok + 1), 2)
    else if w == "max" then
      match ParamValue(args, h.getSize, w)
        case None => ParamStop(ValueError(args, w))
        case Some(v) => ParamNext(st.(opt := st.opt.(qthMax := v), ok := st.ok + 1), 2)
    else if w == "vq" || w == "DP" then
      match ParamValue(args, h.getUnsigned10, "vq")
        case None => ParamStop(ValueError(args, "vq"))
        case Some(v) =>
          if v >= MaxDps then ParamStop(TooManyVqs)
          else ParamNext(st.(opt := st.opt.(dp := v), ok := st.ok + 1), 2)
    else if w == "burst" then
      match ParamValue(args, h.getUnsigned0, w)
        case None => ParamStop(ValueError(args, w))
        case Some(v) => ParamNext(st.(burst := v, ok := st.ok + 1), 2)
    else if w == "avpkt" then
      match ParamValue(args, h.getSize, w)
        case None => ParamStop(ValueError(args, w))
        case Some(v) => ParamNext(st.(avpkt := v, ok := st.ok + 1), 2)
    else if w == "probability" then
      if |args| < 2 then ParamStop(Incomplete)
      else if !h.scansAsDouble(args[1]) then ParamStop(IllegalValue(w))
      else ParamNext(st.(probability := GivenProbability(args[1]), ok := st.ok + 1), 2)
    else if w == "prio" then
      if |args| < 2 then ParamStop(Incomplete)
      else ParamNext(st.(opt := st.opt.(prio := Truncate8(h.strtol(args[1]))), ok := st.ok + 1), 2)
    else if w == "bandwidth" then
      if |args| < 2 then ParamStop(Incomplete)
      else match Bandwidth(h, args[1])
        case None => ParamStop(IllegalValue(w))
        case Some(v) => ParamNext(st.(rate := v, ok := st.ok + 1), 2)
    else if w == "help" then ParamStop(HelpShown)
    else ParamStop(UnknownWord(w))
  }

  datatype ParamEnd = ParamsDone(state: ParamState) | ParamsFailed(error: GredError) | ParamsSetup(rest: seq<string>)

  /** gred_parse_opt's loop; "setup" hands the words after it to init_gred. */
  function ParamLoop(args: seq<string>, st: ParamState, h: GredHelpers): ParamEnd
    decreases |args|
  {
    if args == [] then ParamsDone(st)
    else match ParamWord(args, st, h)
      case ParamStop(e) => ParamsFailed(e)
      case ParamSetup => ParamsSetup(args[1..])
      case ParamNext(next, n) => ParamLoop(args[n..], next, h)
  }

  /**
   * The default burst, (2 * min + max) / (3 * avpkt), computed in unsigned
   * 32-bit arithmetic as the C expression is: every product and sum wraps.
   */
  function DefaultBurst(qthMin: U32, qthMax: U32, avpkt: U32): U32
    requires avpkt != 0
  {
    var sum := (2 * qthMin % Two32 + qthMax) % Two32;
    var divisor := (3 * avpkt) % Two32;
    BurstDivisorNonZero(avpkt);
    QuotientBelow(sum, divisor);
    sum / divisor
  }

  lemma QuotientBelow(a: int, b: int)
    requires a >= 0 && b >= 1
    ensures a / b <= a
  {
  }

  /** 3 * avpkt never wraps to zero, so the division is defined whenever avpkt is given. */
  lemma BurstDivisorNonZero(avpkt: U32)
    requires avpkt != 0
    ensures (3 * avpkt) % Two32 != 0
  {
    if 3 * avpkt >= 2 * Two32 {
      assert (3 * avpkt) % Two32 == 3 * avpkt - 2 * Two32;
    } else if 3 * avpkt >= Two32 {
      assert (3 * avpkt) % Two32 == 3 * avpkt - Two32;
    }
  }

  /** Without wrap-around the default burst is the intended quotient. */
  lemma DefaultBurstExact(qthMin: U32, qthMax: U32, avpkt: U32)
    requires avpkt != 0 && 2 * qthMin + qthMax < Two32 && 3 * avpkt < Two32
    ensures DefaultBurst(qthMin, qthMax, avpkt) == (2 * qthMin + qthMax) / (3 * avpkt)
  {
    assert 2 * qthMin % Two32 == 2 * qthMin;
  }

  /** With a minimum of 2^31 bytes the sum wraps and the default burst collapses to 0. */
  lemma DefaultBurstWraps()
    ensures DefaultBurst(0x8000_0000, 1, 1) == 0
    ensures (2 * 0x8000_0000 + 1) / 3 == 0x5555_5555
  {
  }

  /** The rate used when no bandwidth was given: get_rate("10Mbit"), or 0 if that fails. */
  function RateOrDefault(rate: U32, h: GredHelpers): U32
  {
    if rate != 0 then rate
    else match h.getRate("10Mbit")
      case Some(v) => v
      case None => 0
  }

  /** The attributes gred_parse_opt nests: the queue, the table, max_P. */
  function ParamChildren(opt: Qopt, stab: Stab, maxP: U32): (r: seq<Attr>)
    ensures AllEncodable(r)
  {
    [Attr(GredParms, EncodeQopt(opt)), Attr(GredStab, stab), Attr(GredMaxP, Le32(maxP))]
  }

  /** The nest gred_parse_opt appends. */
  function ParamOptions(opt: Qopt, stab: Stab, maxP: U32): (r: Attr)
    ensures r.kind == TcaOptions
  {
    Nest(TcaOptions, ParamChildren(opt, stab, maxP))
  }

  /** The RED parameters of a queue, or the evaluation that failed. */
  datatype Tuning = Tuned(opt: Qopt, stab: Stab, maxP: U32) | Untunable(error: GredError)

  /**
   * The defaults for burst and bandwidth, then Wlog, Plog and Scell_log
   * from the RED evaluators, each stored into its __u8 field.
   */
  function Tune(st: ParamState, h: GredHelpers): (r: Tuning)
    requires st.avpkt != 0
    ensures r.Tuned? ==> r.opt == st.opt.(wlog := r.opt.wlog, plog := r.opt.plog, scellLog := r.opt.scellLog)
  {
    var q := st.opt;
    var burst := if st.burst == 0 then DefaultBurst(q.qthMin, q.qthMax, st.avpkt) else st.burst;
    var rate := RateOrDefault(st.rate, h);
    var ewma := h.evalEwma(q.qthMin, burst, st.avpkt);
    if ewma < 0 then Untunable(EwmaFailed)
    else
      var p := h.evalP(q.qthMin, q.qthMax, st.probability);
      if p < 0 then Untunable(ProbabilityFailed)
      else
        var damping := h.evalIdleDamping(Truncate8(ewma), st.avpkt, rate);
        if damping.scellLog < 0 then Untunable(IdleDampingFailed)
        else Tuned(q.(wlog := Truncate8(ewma), plog := Truncate8(p), scellLog := Truncate8(damping.scellLog)),
                   damping.stab, h.maxP(st.probability))
  }

  /** The checks after gred_parse_opt's loop, then the request. */
  function ParamFinish(st: ParamState, h: GredHelpers): Outcome
  {
    var q := st.opt;
    if st.ok == 0 then Failed(NothingGiven)
    else if q.dp == MaxDps || q.limit == 0 || q.qthMin == 0 || q.qthMax == 0 || st.avpkt == 0 then
      Failed(RequiredMissing)
    else match Tune(st, h)
      case Untunable(e) => Failed(e)
      case Tuned(q2, stab, maxP) => Sent(false, ParamOptions(q2, stab, maxP))
  }

  function GredParseOptSpec(args: seq<string>, h: GredHelpers): Outcome
  {
    match ParamLoop(args, ParamStart(), h)
      case ParamsFailed(e) => Failed(e)
      case ParamsSetup(rest) => InitGredSpec(rest, h)
      case ParamsDone(st) => ParamFinish(st, h)
  }

  /** gred_parse_opt: the words in `args` parsed into a request. */
  method GredParseOpt(args: seq<string>, h: GredHelpers) returns (r: Outcome)
    ensures r == GredParseOptSpec(args, h)
  {
    var opt := ZeroQopt.(dp := MaxDps);
    var burst: U32, avpkt: U32, rate: U32 := 0, 0, 0;
    var probability := DefaultProbability;
    var ok: nat := 0;
    var rest := args;
    while rest != []
      invariant ParamLoop(rest, ParamState(opt, burst, avpkt, probability, rate, ok), h)
             == ParamLoop(args, ParamStart(), h)
      decreases |rest|
    {
      var w := rest[0];
      if w == "setup" {
        if ok != 0 { return Failed(IllegalSetup); }
        r := InitGred(rest[1..], h);
        return;
      }
      if w == "help" { return Failed(HelpShown); }
      if w !in {"limit", "min", "max", "vq", "DP", "burst", "avpkt", "probability", "prio", "bandwidth"} {
        return Failed(UnknownWord(w));
      }
      if |rest| < 2 { return Failed(Incomplete); }
      var v := rest[1];
      if w == "limit" || w == "min" || w == "max" || w == "avpkt" {
        var n := h.getSize(v);
        if n.None? { return Failed(IllegalValue(w)); }
        if w == "limit" {
          opt := opt.(limit := n.value);
        } else if w == "min" {
          opt := opt.(qthMin := n.value);
        } else if w == "max" {
          opt := opt.(qthMax := n.value);
        } else {
          avpkt := n.value;
        }
      } else if w == "vq" || w == "DP" {
        var n := h.getUnsigned10(v);
        if n.None? { return Failed(IllegalValue("vq")); }
        if n.value >= MaxDps { return Failed(TooManyVqs); }
        opt := opt.(dp := n.value);
      } else if w == "burst" {
        var n := h.getUnsigned0(v);
        if n.None? { return Failed(IllegalValue(w)); }
        burst := n.value;
      } else if w == "probability" {
        if !h.scansAsDouble(v) { return Failed(IllegalValue(w)); }
        probability := GivenProbability(v);
      } else if w == "prio" {
        opt := opt.(prio := Truncate8(h.strtol(v)));
      } else {
        var n := if '%' in v then h.getPercentRate(v) else h.getRate(v);
        if n.None? { return Failed(IllegalValue(w)); }
        rate := n.value;
      }
      ok := ok + 1;
      rest := rest[2..];
    }
    r := CompleteQueue(ParamState(opt, burst, avpkt, probability, rate, ok), h);
  }

  /** The end of gred_parse_opt: the checks, the defaults, the RED parameters and the request. */
  method CompleteQueue(st: ParamState, h: GredHelpers) returns (r: Outcome)
    ensures r == ParamFinish(st, h)
  {
    var q, burst, avpkt, probability, rate, ok := st.opt, st.burst, st.avpkt, st.probability, st.rate, st.ok;
    if ok == 0 { return Failed(NothingGiven); }
    if q.dp == MaxDps || q.limit == 0 || q.qthMin == 0 || q.qthMax == 0 || avpkt == 0 {
      return Failed(RequiredMissing);
    }
    if burst == 0 {
      burst := DefaultBurst(q.qthMin, q.qthMax, avpkt);
    }
    if rate == 0 {
      var dflt := h.getRate("10Mbit");
      if dflt.Some? { rate := dflt.value; }
    }
    var parm := h.evalEwma(q.qthMin, burst, avpkt);
    if parm < 0 { return Failed(EwmaFailed); }
    q := q.(wlog := Truncate8(parm));
    parm := h.evalP(q.qthMin, q.qthMax, probability);
    if parm < 0 { return Failed(ProbabilityFailed); }
    q := q.(plog := Truncate8(parm));
    var damping := h.evalIdleDamping(q.wlog, avpkt, rate);
    if damping.scellLog < 0 { return Failed(IdleDampingFailed); }
    q := q.(scellLog := Truncate8(damping.scellLog));
    var maxP := h.maxP(probability);
    r := Sent(false, Nest(TcaOptions, [Attr(GredParms, EncodeQopt(q)), Attr(GredStab, damping.stab),
                                        Attr(GredMaxP, Le32(maxP))]));
  }


  lemma {:induction false} ParamLoopNoLateSetup(args: seq<string>, st: ParamState, h: GredHelpers)
    requires st.ok != 0
    ensures !ParamLoop(args, st, h).ParamsSetup?
    decreases |args|
  {
    if args != [] {
      match ParamWord(args, st, h)
        case ParamStop(_) =>
        case ParamSetup =>
        case ParamNext(next, n) => ParamLoopNoLateSetup(args[n..], next, h);
    }
  }

  /**
   * "setup" is honoured only as the first word, where the rest of the line
   * is init_gred's; a setup request (the only one with NLM_F_CREATE) can
   * come from nowhere else.
   */
  lemma SetupOnlyFirst(args: seq<string>, h: GredHelpers)
    ensures args != [] && args[0] == "setup" ==> GredParseOptSpec(args, h) == InitGredSpec(args[1..], h)
    ensures GredParseOptSpec(args, h).Sent? && GredParseOptSpec(args, h).create
            ==> args != [] && args[0] == "setup"
  {
    if args != [] {
      match ParamWord(args, ParamStart(), h)
        case ParamStop(_) =>
        case ParamSetup =>
        case ParamNext(next, n) => ParamLoopNoLateSetup(args[n..], next, h);
    }
  }

  lemma {:induction false} ParamLoopDpBounded(args: seq<string>, st: ParamState, h: GredHelpers)
    requires st.opt.dp <= MaxDps
    ensures ParamLoop(args, st, h).ParamsDone? ==> ParamLoop(args, st, h).state.opt.dp <= MaxDps
    decreases |args|
  {
    if args != [] {
      match ParamWord(args, st, h)
        case ParamStop(_) =>
        case ParamSetup =>
        case ParamNext(next, n) => ParamLoopDpBounded(args[n..], next, h);
    }
  }

  lemma Le32ReadBack(x: U32)
    ensures ReadLe32(Le32(x)) == x
  {
    Le32RoundTrip(x, []);
    assert Le32(x) + [] == Le32(x);
  }

  lemma QoptReadBack(q: Qopt)
    ensures DecodeQopt(EncodeQopt(q)) == q
  {
    QoptRoundTrip(q, []);
    assert EncodeQopt(q) + [] == EncodeQopt(q);
  }

  /** The kernel reads back the queue structure, the 256-byte table and max_P. */
  lemma ParamRoundTrip(opt: Qopt, stab: Stab, maxP: U32)
    ensures var tb := ParseRtattr(ParamOptions(opt, stab, maxP).payload, GredMax);
      && tb[GredParms] == Some(Attr(GredParms, EncodeQopt(opt)))
      && DecodeQopt(tb[GredParms].value.payload) == opt
      && tb[GredStab] == Some(Attr(GredStab, stab))
      && tb[GredMaxP] == Some(Attr(GredMaxP, Le32(maxP)))
      && ReadLe32(tb[GredMaxP].value.payload) == maxP
      && tb[GredDps].None?
  {
    var children := ParamChildren(opt, stab, maxP);
    NestRoundTrip(TcaOptions, children);
    var tb := ParseRtattr(ParamOptions(opt, stab, maxP).payload, GredMax);
    assert tb == seq(GredMax + 1, t requires 0 <= t <= GredMax => FirstOf(children, t));
    assert tb[GredParms] == FirstOf(children, GredParms as nat) == Some(children[0]);
    assert tb[GredStab] == FirstOf(children, GredStab as nat) == Some(children[1]) by {
      assert children[1..] == [children[1], children[2]];
    }
    assert tb[GredMaxP] == FirstOf(children, GredMaxP as nat) == Some(children[2]);
    assert tb[GredDps] == FirstOf(children, GredDps as nat) == None;
    QoptReadBack(opt);
    Le32ReadBack(maxP);
  }

  /** What ParamFinish sends carries the queue the loop collected. */
  lemma ParamFinishSends(st: ParamState, h: GredHelpers)
    requires ParamFinish(st, h).Sent?
    ensures var o := ParamFinish(st, h);
      var tb := ParseRtattr(o.options.payload, GredMax);
      && !o.create && o.options.kind == TcaOptions
      && tb[GredParms].Some? && |tb[GredParms].value.payload| == QoptSize
      && var q := DecodeQopt(tb[GredParms].value.payload);
      && q.dp == st.opt.dp && q.limit == st.opt.limit && q.prio == st.opt.prio
      && q.qthMin == st.opt.qthMin && q.qthMax == st.opt.qthMax
      && q.dp != MaxDps && q.limit != 0 && q.qthMin != 0 && q.qthMax != 0
      && tb[GredStab].Some? && |tb[GredStab].value.payload| == 256
      && tb[GredMaxP].Some? && tb[GredDps].None?
    ensures st.ok != 0 && st.avpkt != 0
  {
    var t := Tune(st, h);
    ParamRoundTrip(t.opt, t.stab, t.maxP);
  }

  /**
   * A per-queue request names a queue below MAX_DPs and carries non-zero
   * limit and thresholds, a 256-byte table and max_P, and no setup; it
   * came from a loop that saw at least one keyword and a non-zero avpkt.
   */
  lemma ParamsAccepted(args: seq<string>, h: GredHelpers)
    requires GredParseOptSpec(args, h).Sent? && !GredParseOptSpec(args, h).create
    ensures var o := GredParseOptSpec(args, h);
      var tb := ParseRtattr(o.options.payload, GredMax);
      && o.options.kind == TcaOptions
      && tb[GredParms].Some? && |tb[GredParms].value.payload| == QoptSize
      && var q := DecodeQopt(tb[GredParms].value.payload);
      && q.dp < MaxDps && q.limit != 0 && q.qthMin != 0 && q.qthMax != 0
      && tb[GredStab].Some? && |tb[GredStab].value.payload| == 256
      && tb[GredMaxP].Some? && tb[GredDps].None?
    ensures ParamLoop(args, ParamStart(), h).ParamsDone?
    ensures ParamLoop(args, ParamStart(), h).state.ok != 0
    ensures ParamLoop(args, ParamStart(), h).state.avpkt != 0
  {
    SetupOnlyFirst(args, h);
    ParamLoopDpBounded(args, ParamStart(), h);
    ParamFinishSends(ParamLoop(args, ParamStart(), h).state, h);
  }

  lemma {:induction false} ParamLoopKeepsNoVq(args: seq<string>, st: ParamState, h: GredHelpers)
    requires forall i :: 0 <= i < |args| ==> args[i] != "vq" && args[i] != "DP"
    requires st.opt.dp == MaxDps
    ensures ParamLoop(args, st, h).ParamsDone? ==> ParamLoop(args, st, h).state.opt.dp == MaxDps
    decreases |args|
  {
    if args != [] {
      match ParamWord(args, st, h)
        case ParamStop(_) =>
        case ParamSetup =>
        case ParamNext(next, n) =>
          assert forall i :: 0 <= i < |args[n..]| ==> args[n..][i] == args[n + i];
          ParamLoopKeepsNoVq(args[n..], next, h);
    }
  }

  /** Without "vq" (or "DP") no per-queue request is sent. */
  lemma VqRequired(args: seq<string>, h: GredHelpers)
    requires forall i :: 0 <= i < |args| ==> args[i] != "vq" && args[i] != "DP"
    ensures GredParseOptSpec(args, h).Sent? ==> GredParseOptSpec(args, h).create
  {
    ParamLoopKeepsNoVq(args, ParamStart(), h);
  }
}
