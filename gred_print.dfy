/**
 * gred_print_opt and gred_print_stats (tc/q_gred.c): what `tc qdisc show`
 * makes of a GRED dump. It decides whether the dump is acceptable, takes
 * the limit and the MAX_P words only when their sizes are right, lists the
 * queues whose structure names a queue below MAX_DPs, and takes each
 * queue's counters from the VQ list when one was walked and from the
 * queue's own structure otherwise.
 *
 * The printed text is not modelled; the model returns the values each
 * field is printed from. show_stats and show_details are parameters.
 */
module GredPrint {
  import opened Types
  import opened Netlink
  import opened GredWire
  import opened GredVqs

  /** Where a queue's drop probability is printed from. */
  datatype ProbabilitySource = MaxPWord(word: U32) | PlogField(plog: byte)

  /** The fields printed with show_details. */
  datatype Details = Details(ewma: byte, probability: ProbabilitySource, scellLog: byte)

  /** The drop (and mark) counters gred_print_stats prints. */
  datatype Drops =
    | InfoDrops(forcedDrop: U32, probDrop: U32, pdrop: U32, other: U32, forcedMark: U32, probMark: U32)
    | QoptDrops(forced: U32, early: U32, pdrop: U32, other: U32)

  datatype Stats = Stats(qave: U32, backlog: U32, drops: Drops, packets: U32, bytes: U64)

  /** One printed queue. */
  datatype Row = Row(vq: U32, prio: byte, limit: U32, qthMin: U32, qthMax: U32,
                     details: Option<Details>, stats: Option<Stats>)

  datatype View = View(dps: U32, defDp: U32, grio: bool, limit: Option<U32>, rows: seq<Row>)

  datatype PrintHazard = DpsMissing | VqList(hazard: VqsHazard)

  /** The result of gred_print_opt: 0 with nothing, -1, the view printed, or where it goes wrong. */
  datatype Printed =
    | NoOptions
    | Refused
    | Shown(view: View, complaints: seq<Complaint>)
    | Broken(hazard: PrintHazard)

  /**
   * gred_print_stats: the counters from the VQ list record when there is
   * one, from the queue's structure otherwise; packets, queue sizes and,
   * without a record, bytes always come from the structure.
   */
  function PrintStats(info: Option<GredInfo>, q: Qopt): (r: Stats)
    ensures r.bytes == if info.Some? then info.value.bytes else q.bytesin
    ensures r.drops.InfoDrops? <==> info.Some?
    ensures r.packets == q.packets && r.qave == q.qave && r.backlog == q.backlog
  {
    match info
      case Some(i) =>
        Stats(q.qave, q.backlog,
              InfoDrops(i.forcedDrop, i.probDrop, i.pdrop, i.other, i.forcedMark, i.probMark),
              q.packets, i.bytes)
      case None =>
        Stats(q.qave, q.backlog, QoptDrops(q.forced, q.early, q.pdrop, q.other), q.packets, q.bytesin)
  }

  /** The MAX_P payload, used only when it holds a word for every queue. */
  function MaxPWords(tb: seq<Option<Attr>>): (r: Option<seq<byte>>)
    requires |tb| == GredMax + 1
    ensures r.Some? <==> tb[GredMaxP].Some? && |tb[GredMaxP].value.payload| >= 4 * MaxDps
    ensures r.Some? ==> r.value == tb[GredMaxP].value.payload
  {
    if tb[GredMaxP].Some? && |tb[GredMaxP].value.payload| >= 4 * MaxDps then Some(tb[GredMaxP].value.payload)
    else None
  }

  /** The table-wide limit, used only when its payload is exactly one word. */
  function LimitShown(tb: seq<Option<Attr>>): (r: Option<U32>)
    requires |tb| == GredMax + 1
    ensures r.Some? <==> tb[GredLimit].Some? && |tb[GredLimit].value.payload| == 4
    ensures r.Some? ==> r.value == ReadLe32(tb[GredLimit].value.payload)
  {
    if tb[GredLimit].Some? && |tb[GredLimit].value.payload| == 4 then Some(ReadLe32(tb[GredLimit].value.payload))
    else None
  }

  /** The MAX_DPs tc_gred_qopt structures at the head of the PARMS payload. */
  function Qopts(parms: seq<byte>): (qs: seq<Qopt>)
    requires |parms| >= QoptSize * MaxDps
    ensures |qs| == MaxDps
  {
    seq(MaxDps, i requires 0 <= i < MaxDps => DecodeQopt(parms[QoptSize * i..]))
  }

  /** What the printer needs besides one queue's structure. */
  datatype Context = Context(maxP: Option<seq<byte>>, infos: Option<seq<GredInfo>>,
                             showStats: bool, showDetails: bool)

  predicate ContextOk(c: Context)
  {
    (c.maxP.Some? ==> |c.maxP.value| >= 4 * MaxDps)
    && (c.infos.Some? ==> |c.infos.value| == MaxDps)
  }

  /** The row printed for the structure at index i. */
  function RowOf(q: Qopt, i: nat, c: Context): (r: Row)
    requires ContextOk(c) && i < MaxDps
    ensures r.vq == q.dp && r.limit == q.limit
    ensures r.details.Some? <==> c.showDetails
    ensures r.details.Some? ==> (r.details.value.probability.MaxPWord? <==> c.maxP.Some?)
    ensures r.stats.Some? <==> c.showStats
    ensures r.stats.Some? ==> r.stats.value.bytes == if c.infos.Some? then c.infos.value[i].bytes else q.bytesin
  {
    var probability := if c.maxP.Some? then MaxPWord(ReadLe32(c.maxP.value[4 * i..])) else PlogField(q.plog);
    var details := if c.showDetails then Some(Details(q.wlog, probability, q.scellLog)) else None;
    var info := if c.infos.Some? then Some(c.infos.value[i]) else None;
    var stats := if c.showStats then Some(PrintStats(info, q)) else None;
    Row(q.dp, q.prio, q.limit, q.qthMin, q.qthMax, details, stats)
  }

  /** The row for the structure at index i, or none when it names no queue below MAX_DPs. */
  function RowAt(qs: seq<Qopt>, i: nat, c: Context): (r: seq<Row>)
    requires |qs| == MaxDps && ContextOk(c) && i < MaxDps
    ensures |r| <= 1 && (|r| == 1 ==> r[0].vq < MaxDps)
  {
    if qs[i].dp >= MaxDps then [] else [RowOf(qs[i], i, c)]
  }

  /** The rows for the first n structures, in order. */
  function Rows(qs: seq<Qopt>, n: nat, c: Context): (r: seq<Row>)
    requires |qs| == MaxDps && n <= MaxDps && ContextOk(c)
  {
    if n == 0 then [] else Rows(qs, n - 1, c) + RowAt(qs, n - 1, c)
  }

  /** Every printed row names a queue below MAX_DPs, and there are at most n rows. */
  lemma {:induction false} RowsInRange(qs: seq<Qopt>, n: nat, c: Context)
    requires |qs| == MaxDps && n <= MaxDps && ContextOk(c)
    ensures |Rows(qs, n, c)| <= n
    ensures forall k :: 0 <= k < |Rows(qs, n, c)| ==> Rows(qs, n, c)[k].vq < MaxDps
  {
    if n > 0 {
      RowsInRange(qs, n - 1, c);
      var init: seq<Row>, last: seq<Row> := Rows(qs, n - 1, c), RowAt(qs, n - 1, c);
      assert Rows(qs, n, c) == init + last;
      forall k | 0 <= k < |init + last|
        ensures (init + last)[k].vq < MaxDps
      {
        if k >= |init| {
          assert (init + last)[k] == last[k - |init|];
        }
      }
    }
  }

  /** The loop over the MAX_DPs structures of the PARMS payload. */
  method ListRows(qs: seq<Qopt>, c: Context) returns (rows: seq<Row>)
    requires |qs| == MaxDps && ContextOk(c)
    ensures rows == Rows(qs, MaxDps, c)
  {
    rows := [];
    var i := 0;
    while i < MaxDps
      invariant 0 <= i <= MaxDps
      invariant rows == Rows(qs, i, c)
    {
      if qs[i].dp < MaxDps {
        rows := rows + [RowOf(qs[i], i, c)];
      }
      i := i + 1;
    }
  }

  /** The zero-initialised `infos[MAX_DPs]`. */
  function ZeroInfos(): (r: seq<GredInfo>)
    ensures |r| == MaxDps
  {
    seq(MaxDps, _ => ZeroInfo())
  }

  /** The VQ list walked into a zeroed table, when there is one and counters are shown. */
  function VqListWalk(tb: seq<Option<Attr>>, showStats: bool): (w: Option<VqsEnd>)
    requires |tb| == GredMax + 1
    ensures w.Some? ==> |w.value.infos| == MaxDps
  {
    if tb[GredVqList].Some? && showStats then Some(VqsWalk(ZeroInfos(), tb[GredVqList].value.payload)) else None
  }

  /** A dump whose setup and queue structures are long enough. */
  predicate Printable(tb: seq<Option<Attr>>)
  {
    |tb| == GredMax + 1 && tb[GredParms].Some? && tb[GredDps].Some?
    && |tb[GredDps].value.payload| >= SoptSize && |tb[GredParms].value.payload| >= QoptSize * MaxDps
  }

  /** What is printed for such a dump, given the outcome of the VQ list walk. */
  function ViewOf(tb: seq<Option<Attr>>, walk: Option<VqsEnd>, showStats: bool, showDetails: bool): View
    requires Printable(tb) && (walk.Some? ==> |walk.value.infos| == MaxDps)
  {
    var s := DecodeSopt(tb[GredDps].value.payload);
    var c := Context(MaxPWords(tb), if walk.Some? then Some(walk.value.infos) else None, showStats, showDetails);
    View(s.dps, s.defDp, s.grio != 0, LimitShown(tb), Rows(Qopts(tb[GredParms].value.payload), MaxDps, c))
  }

  function PrintSpec(opt: Option<seq<byte>>, showStats: bool, showDetails: bool): Printed
  {
    if opt.None? then NoOptions
    else
      var tb := ParseRtattr(opt.value, GredMax);
      if tb[GredParms].None? then Refused
      else if tb[GredDps].None? then Broken(DpsMissing)
      else if !Printable(tb) then Refused
      else
        var walk := VqListWalk(tb, showStats);
        if walk.Some? && walk.value.status.Stopped? then Broken(VqList(walk.value.status.hazard))
        else Shown(ViewOf(tb, walk, showStats, showDetails), if walk.Some? then walk.value.status.complaints else [])
  }

  /** gred_print_opt on the TCA_OPTIONS payload `opt` (None when the dump has none). */
  method GredPrintOpt(opt: Option<seq<byte>>, showStats: bool, showDetails: bool) returns (r: Printed)
    ensures r == PrintSpec(opt, showStats, showDetails)
  {
    if opt.None? {
      return NoOptions;
    }
    var tb := ParseRtattr(opt.value, GredMax);
    if tb[GredParms].None? {
      return Refused;
    }
    var maxP := MaxPWords(tb);
    var limit := LimitShown(tb);
    if tb[GredDps].None? {
      return Broken(DpsMissing);
    }
    var dps := tb[GredDps].value.payload;
    var parms := tb[GredParms].value.payload;
    if |dps| < SoptSize || |parms| < QoptSize * MaxDps {
      return Refused;
    }
    var infos := new GredInfo[MaxDps](_ => ZeroInfo());
    assert infos[..] == ZeroInfos();
    ghost var walk := VqListWalk(tb, showStats);
    var vqInfo := false;
    var complaints: seq<Complaint> := [];
    if tb[GredVqList].Some? && showStats {
      var status := ParseVqs(infos, tb[GredVqList].value.payload);
      assert walk == Some(VqsEnd(status, infos[..]));
      if status.Stopped? {
        return Broken(VqList(status.hazard));
      }
      complaints := status.complaints;
      vqInfo := true;
    }
    assert Printable(tb);
    var s := DecodeSopt(dps);
    var c := Context(maxP, if vqInfo then Some(infos[..]) else None, showStats, showDetails);
    var rows := ListRows(Qopts(parms), c);
    r := Shown(View(s.dps, s.defDp, s.grio != 0, limit, rows), complaints);
    assert r.view == ViewOf(tb, walk, showStats, showDetails);
  }

  /**
   * gred_print_opt refuses a dump without PARMS or with a structure too
   * short, and dereferences a missing DPS attribute; everything else is shown.
   */
  lemma PrintAcceptance(opt: seq<byte>, showStats: bool, showDetails: bool)
    ensures var tb := ParseRtattr(opt, GredMax);
      var r := PrintSpec(Some(opt), showStats, showDetails);
      && (r == Refused <==>
            tb[GredParms].None?
            || (tb[GredDps].Some?
                && (|tb[GredDps].value.payload| < SoptSize || |tb[GredParms].value.payload| < QoptSize * MaxDps)))
      && (r == Broken(DpsMissing) <==> tb[GredParms].Some? && tb[GredDps].None?)
      && (r.Shown? ==> tb[GredParms].Some? && tb[GredDps].Some?
                       && (r.view.limit.Some? <==> tb[GredLimit].Some? && |tb[GredLimit].value.payload| == 4))
  {
  }

  // ---------------------------------------------------------------------
  // Printing what the kernel dumps
  // ---------------------------------------------------------------------

  /** MAX_DPs queue structures laid out one after the other, as in TCA_GRED_PARMS. */
  function QoptTable(qs: seq<Qopt>): (r: seq<byte>)
    ensures |r| == QoptSize * |qs|
  {
    if qs == [] then [] else EncodeQopt(qs[0]) + QoptTable(qs[1..])
  }

  lemma {:induction false} QoptTableRead(qs: seq<Qopt>, i: nat, rest: seq<byte>)
    requires i < |qs|
    ensures DecodeQopt((QoptTable(qs) + rest)[QoptSize * i..]) == qs[i]
    decreases i
  {
    var b := QoptTable(qs) + rest;
    if i == 0 {
      assert b[QoptSize * 0..] == EncodeQopt(qs[0]) + (QoptTable(qs[1..]) + rest);
      QoptRoundTrip(qs[0], QoptTable(qs[1..]) + rest);
    } else {
      assert b[QoptSize * i..] == (QoptTable(qs[1..]) + rest)[QoptSize * (i - 1)..];
      QoptTableRead(qs[1..], i - 1, rest);
    }
  }

  /** The row printed without details or counters for a queue's structure. */
  function PlainRow(q: Qopt): Row
  {
    Row(q.dp, q.prio, q.limit, q.qthMin, q.qthMax, None, None)
  }

  /** The reference listing: the structures naming a queue below MAX_DPs, in order. */
  function PlainRows(qs: seq<Qopt>): seq<Row>
  {
    if qs == [] then []
    else PlainRows(qs[..|qs| - 1]) + (if qs[|qs| - 1].dp < MaxDps then [PlainRow(qs[|qs| - 1])] else [])
  }

  /** The PARMS payload of a dump decodes to the structures it was built from. */
  lemma TableDecodes(qs: seq<Qopt>)
    requires |qs| == MaxDps
    ensures Qopts(QoptTable(qs)) == qs
  {
    assert QoptTable(qs) + [] == QoptTable(qs);
    forall i | 0 <= i < MaxDps
      ensures Qopts(QoptTable(qs))[i] == qs[i]
    {
      QoptTableRead(qs, i, []);
    }
  }

  /** Without details or counters, the rows are the reference listing. */
  lemma {:induction false} PlainRowsUpTo(qs: seq<Qopt>, n: nat, c: Context)
    requires |qs| == MaxDps && n <= MaxDps && ContextOk(c)
    requires c.maxP.None? && c.infos.None? && !c.showStats && !c.showDetails
    ensures Rows(qs, n, c) == PlainRows(qs[..n])
  {
    if n > 0 {
      assert qs[..n][..n - 1] == qs[..n - 1];
      PlainRowsUpTo(qs, n - 1, c);
    }
  }

  /** The attributes of a dump as the kernel builds it: the queue structures, the setup, and the limit. */
  function DumpChildren(s: Sopt, qs: seq<Qopt>, limit: U32): (r: seq<Attr>)
    requires |qs| == MaxDps
    ensures AllEncodable(r)
  {
    [Attr(GredParms, QoptTable(qs)), Attr(GredDps, EncodeSopt(s)), Attr(GredLimit, Le32(limit))]
  }

  /** The attribute table of a dump carrying PARMS, DPS and LIMIT, in that order. */
  lemma DumpTable(children: seq<Attr>)
    requires |children| == 3 && AllEncodable(children)
    requires children[0].kind == GredParms && children[1].kind == GredDps && children[2].kind == GredLimit
    ensures var tb := ParseRtattr(Nest(TcaOptions, children).payload, GredMax);
      && tb[GredParms] == Some(children[0]) && tb[GredDps] == Some(children[1])
      && tb[GredLimit] == Some(children[2]) && tb[GredMaxP].None? && tb[GredVqList].None?
  {
    NestRoundTrip(TcaOptions, children);
    var tb := ParseRtattr(Nest(TcaOptions, children).payload, GredMax);
    assert tb == seq(GredMax + 1, t requires 0 <= t <= GredMax => FirstOf(children, t));
    FirstOfThree(children, GredParms as nat);
    FirstOfThree(children, GredDps as nat);
    FirstOfThree(children, GredLimit as nat);
    FirstOfThree(children, GredMaxP as nat);
    FirstOfThree(children, GredVqList as nat);
  }

  lemma FirstOfThree(children: seq<Attr>, t: nat)
    requires |children| == 3 && children[0].kind == 1 && children[1].kind == 3 && children[2].kind == 5
    ensures FirstOf(children, t) == if t == 1 then Some(children[0]) else if t == 3 then Some(children[1])
                                    else if t == 5 then Some(children[2]) else None
  {
    assert children[1..][1..] == [children[2]];
  }

  /**
   * Round trip: printing such a dump shows the setup and limit it carries
   * and one row for every structure that names a queue below MAX_DPs.
   */
  lemma ShownWithoutList(opt: seq<byte>, showStats: bool, showDetails: bool)
    requires Printable(ParseRtattr(opt, GredMax))
    requires ParseRtattr(opt, GredMax)[GredVqList].None? || !showStats
    ensures PrintSpec(Some(opt), showStats, showDetails)
            == Shown(ViewOf(ParseRtattr(opt, GredMax), None, showStats, showDetails), [])
  {
  }

  /** What is printed for a dump carrying PARMS, DPS and a one-word LIMIT, in that order. */
  lemma PrintThree(children: seq<Attr>)
    requires |children| == 3 && AllEncodable(children)
    requires children[0].kind == GredParms && children[1].kind == GredDps && children[2].kind == GredLimit
    requires |children[0].payload| >= QoptSize * MaxDps && |children[1].payload| >= SoptSize
    requires |children[2].payload| == 4
    ensures var s := DecodeSopt(children[1].payload);
      PrintSpec(Some(Nest(TcaOptions, children).payload), false, false)
      == Shown(View(s.dps, s.defDp, s.grio != 0, Some(ReadLe32(children[2].payload)),
                    Rows(Qopts(children[0].payload), MaxDps, Context(None, None, false, false))), [])
  {
    var payload := Nest(TcaOptions, children).payload;
    DumpTable(children);
    var tb := ParseRtattr(payload, GredMax);
    assert Printable(tb);
    ShownWithoutList(payload, false, false);
    assert MaxPWords(tb) == None;
    assert LimitShown(tb) == Some(ReadLe32(children[2].payload));
  }

  /** The three attributes of a dump read back as the values they were built from. */
  lemma DumpReads(s: Sopt, qs: seq<Qopt>, limit: U32)
    requires |qs| == MaxDps
    ensures var children := DumpChildren(s, qs, limit);
      && |children| == 3
      && children[0].kind == GredParms && children[1].kind == GredDps && children[2].kind == GredLimit
      && |children[0].payload| >= QoptSize * MaxDps && |children[1].payload| >= SoptSize
      && |children[2].payload| == 4
      && Qopts(children[0].payload) == qs
      && DecodeSopt(children[1].payload) == s
      && ReadLe32(children[2].payload) == limit
  {
    SoptRoundTrip(s, []);
    assert EncodeSopt(s) + [] == EncodeSopt(s);
    Le32RoundTrip(limit, []);
    assert Le32(limit) + [] == Le32(limit);
    TableDecodes(qs);
  }

  lemma PrintDump(s: Sopt, qs: seq<Qopt>, limit: U32)
    requires |qs| == MaxDps
    ensures PrintSpec(Some(Nest(TcaOptions, DumpChildren(s, qs, limit)).payload), false, false)
            == Shown(View(s.dps, s.defDp, s.grio != 0, Some(limit), PlainRows(qs)), [])
  {
    DumpReads(s, qs, limit);
    PrintThree(DumpChildren(s, qs, limit));
    PlainRowsUpTo(qs, MaxDps, Context(None, None, false, false));
    WholePrefix(qs);
  }

  lemma WholePrefix(qs: seq<Qopt>)
    ensures qs[..|qs|] == qs
  {
  }
}
