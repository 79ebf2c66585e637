/**
 * gred_parse_vqs (tc/q_gred.c): the walk over TCA_GRED_VQ_LIST that copies
 * each virtual queue's counters into a fixed table of MAX_DPs
 * tc_gred_info records, indexed by the queue number the entry names.
 *
 * The walk is modelled as written. Each round looks for the first
 * TCA_GRED_VQ_ENTRY anywhere in the remaining bytes, not only at the
 * cursor. It then advances by the raw length field of the attribute at
 * the cursor. A length of zero never advances, so C loops forever.
 * Nothing bounds the queue number before the table is written. The last
 * two hazards, plus a cursor one byte short of a length field, stop the
 * model with an explicit outcome.
 */
module GredVqs {
  import opened Types
  import opened Netlink
  import opened GredWire

  /** struct tc_gred_info: one queue's counters from the VQ list. */
  datatype GredInfo = GredInfo(
    bytes: U64, packets: U32, backlog: U32, probDrop: U32, probMark: U32,
    forcedDrop: U32, forcedMark: U32, pdrop: U32, other: U32)

  /** The zero-initialised record of `infos[MAX_DPs] = {}`. */
  function ZeroInfo(): GredInfo
  {
    GredInfo(0, 0, 0, 0, 0, 0, 0, 0, 0)
  }

  /** The attribute's value as rta_getattr_u32 reads it, or `current` when it is absent. */
  function StatOr(tb: seq<Option<Attr>>, t: nat, current: U32): U32
    requires t < |tb|
  {
    if tb[t].Some? then GetU32(tb[t].value.payload) else current
  }

  /**
   * The record after one entry: each counter present in the entry's table
   * is overwritten, the others keep their value. The 64-bit byte counter
   * receives the 32-bit value rta_getattr_u32 returns.
   */
  function ApplyStats(info: GredInfo, tb: seq<Option<Attr>>): (r: GredInfo)
    requires |tb| == VqMax + 1
    ensures r.bytes < Two32 || r.bytes == info.bytes
  {
    GredInfo(
      if tb[VqStatBytes].Some? then GetU32(tb[VqStatBytes].value.payload) else info.bytes,
      StatOr(tb, VqStatPackets as nat, info.packets),
      StatOr(tb, VqStatBacklog as nat, info.backlog),
      StatOr(tb, VqStatProbDrop as nat, info.probDrop),
      StatOr(tb, VqStatProbMark as nat, info.probMark),
      StatOr(tb, VqStatForcedDrop as nat, info.forcedDrop),
      StatOr(tb, VqStatForcedMark as nat, info.forcedMark),
      StatOr(tb, VqStatPdrop as nat, info.pdrop),
      StatOr(tb, VqStatOther as nat, info.other))
  }

  /** An entry carries at least one counter, so the table is written. */
  predicate AnyStat(tb: seq<Option<Attr>>)
    requires |tb| == VqMax + 1
  {
    exists t :: VqStatBytes <= t <= VqStatOther && tb[t].Some?
  }

  /** A table without counters leaves the record as it was. */
  lemma NoStatNoChange(info: GredInfo, tb: seq<Option<Attr>>)
    requires |tb| == VqMax + 1 && !AnyStat(tb)
    ensures ApplyStats(info, tb) == info
  {
    assert tb[VqStatBytes].None? && tb[VqStatPackets].None? && tb[VqStatBacklog].None?;
    assert tb[VqStatProbDrop].None? && tb[VqStatProbMark].None? && tb[VqStatForcedDrop].None?;
    assert tb[VqStatForcedMark].None? && tb[VqStatPdrop].None? && tb[VqStatOther].None?;
  }

  /** The two messages the walk prints on stderr for an entry it skips. */
  datatype Complaint = NoEntry | NoDp

  /** One round of the walk at the cursor. */
  datatype EntryEffect = Skipped(complaint: Complaint) | OutOfRange(dp: U32) | Applied(infos: seq<GredInfo>)

  function Entry(infos: seq<GredInfo>, rest: seq<byte>): (r: EntryEffect)
    requires |infos| == MaxDps
    ensures r.Applied? ==> |r.infos| == MaxDps
  {
    var tbEntry := ParseRtattr(rest, VqEntryMax);
    if tbEntry[VqEntry].None? then Skipped(NoEntry)
    else
      var tb := ParseRtattr(tbEntry[VqEntry].value.payload, VqMax);
      if tb[VqDp].None? then Skipped(NoDp)
      else
        var dp := GetU32(tb[VqDp].value.payload);
        if !AnyStat(tb) then Applied(infos)
        else if dp >= MaxDps then OutOfRange(dp)
        else Applied(infos[dp := ApplyStats(infos[dp], tb)])
  }

  /** Where the walk stops instead of finishing. */
  datatype VqsHazard =
    | LengthPastEnd          // one byte left: the length field is read past the list
    | Spins                  // a zero length field: the cursor never moves
    | DpOutOfRange(dp: U32)  // info[dp] written beyond the MAX_DPs records

  datatype VqsStatus = Walked(complaints: seq<Complaint>) | Stopped(hazard: VqsHazard)

  datatype VqsEnd = VqsEnd(status: VqsStatus, infos: seq<GredInfo>)

  /** The walk from the cursor, given the bytes from the cursor to the end of the list. */
  function VqsFrom(infos: seq<GredInfo>, rest: seq<byte>, complaints: seq<Complaint>): (r: VqsEnd)
    requires |infos| == MaxDps
    ensures |r.infos| == MaxDps
    decreases |rest|
  {
    if rest == [] then VqsEnd(Walked(complaints), infos)
    else if |rest| < 2 then VqsEnd(Stopped(LengthPastEnd), infos)
    else
      var len := ReadLe16(rest);
      if len == 0 then VqsEnd(Stopped(Spins), infos)
      else
        var next := if len < |rest| then rest[len..] else [];
        match Entry(infos, rest)
          case Skipped(c) => VqsFrom(infos, next, complaints + [c])
          case OutOfRange(dp) => VqsEnd(Stopped(DpOutOfRange(dp)), infos)
          case Applied(updated) => VqsFrom(updated, next, complaints)
  }

  function VqsWalk(infos: seq<GredInfo>, vqs: seq<byte>): (r: VqsEnd)
    requires |infos| == MaxDps
    ensures |r.infos| == MaxDps
  {
    VqsFrom(infos, vqs, [])
  }

  /** The bytes from `offset` on, or none once the cursor has passed the end. */
  function Rest(vqs: seq<byte>, offset: nat): seq<byte>
  {
    if offset < |vqs| then vqs[offset..] else []
  }

  /** The counters of one entry written into `info[dp]`, one field at a time. */
  method WriteStats(info: array<GredInfo>, dp: nat, tb: seq<Option<Attr>>)
    requires dp < info.Length && |tb| == VqMax + 1
    modifies info
    ensures info[..] == old(info[..])[dp := ApplyStats(old(info[dp]), tb)]
  {
    var cur := info[dp];
    cur := cur.(bytes := if tb[VqStatBytes].Some? then GetU32(tb[VqStatBytes].value.payload) else cur.bytes);
    cur := cur.(packets := StatOr(tb, VqStatPackets as nat, cur.packets));
    cur := cur.(backlog := StatOr(tb, VqStatBacklog as nat, cur.backlog));
    cur := cur.(probDrop := StatOr(tb, VqStatProbDrop as nat, cur.probDrop));
    cur := cur.(probMark := StatOr(tb, VqStatProbMark as nat, cur.probMark));
    cur := cur.(forcedDrop := StatOr(tb, VqStatForcedDrop as nat, cur.forcedDrop));
    cur := cur.(forcedMark := StatOr(tb, VqStatForcedMark as nat, cur.forcedMark));
    cur := cur.(pdrop := StatOr(tb, VqStatPdrop as nat, cur.pdrop));
    cur := cur.(other := StatOr(tb, VqStatOther as nat, cur.other));
    info[dp] := cur;
  }

  /**
   * One round of gred_parse_vqs at the cursor: the entry found in `rest`,
   * its table, its queue number, and the write into `info`.
   */
  method HandleEntry(info: array<GredInfo>, rest: seq<byte>) returns (effect: EntryEffect)
    requires info.Length == MaxDps
    modifies info
    ensures effect == Entry(old(info[..]), rest)
    ensures info[..] == if effect.Applied? then effect.infos else old(info[..])
  {
    var tbEntry := ParseRtattr(rest, VqEntryMax);
    if tbEntry[VqEntry].None? {
      return Skipped(NoEntry);
    }
    var tb := ParseRtattr(tbEntry[VqEntry].value.payload, VqMax);
    if tb[VqDp].None? {
      return Skipped(NoDp);
    }
    var dp := GetU32(tb[VqDp].value.payload);
    if AnyStat(tb) {
      if dp >= MaxDps {
        return OutOfRange(dp);
      }
      WriteStats(info, dp, tb);
    }
    effect := Applied(info[..]);
  }

  /** The bytes after the attribute at the cursor, as the next round sees them. */
  function After(rest: seq<byte>): seq<byte>
    requires |rest| >= 2
  {
    var len := ReadLe16(rest);
    if len < |rest| then rest[len..] else []
  }

  /** Where the walk stops before reading an entry. */
  lemma VqsStops(infos: seq<GredInfo>, rest: seq<byte>, complaints: seq<Complaint>)
    requires |infos| == MaxDps && rest != []
    ensures |rest| < 2 ==> VqsFrom(infos, rest, complaints) == VqsEnd(Stopped(LengthPastEnd), infos)
    ensures |rest| >= 2 && ReadLe16(rest) == 0 ==> VqsFrom(infos, rest, complaints) == VqsEnd(Stopped(Spins), infos)
  {
  }

  lemma RestAfter(vqs: seq<byte>, offset: nat)
    requires offset + 2 <= |vqs|
    ensures Rest(vqs, offset + ReadLe16(vqs[offset..])) == After(vqs[offset..])
  {
  }

  /** One round of the walk, unfolded. */
  lemma VqsStep(infos: seq<GredInfo>, rest: seq<byte>, complaints: seq<Complaint>)
    requires |infos| == MaxDps && |rest| >= 2 && ReadLe16(rest) != 0
    ensures var e := Entry(infos, rest);
      && (e.Skipped? ==> VqsFrom(infos, rest, complaints) == VqsFrom(infos, After(rest), complaints + [e.complaint]))
      && (e.OutOfRange? ==> VqsFrom(infos, rest, complaints) == VqsEnd(Stopped(DpOutOfRange(e.dp)), infos))
      && (e.Applied? ==> VqsFrom(infos, rest, complaints) == VqsFrom(e.infos, After(rest), complaints))
  {
  }

  /**
   * The round of gred_parse_vqs for the attribute at the cursor, whose
   * length field is readable and not zero: the table written, the walk
   * either stopped or continuing after the attribute.
   */
  method Round(info: array<GredInfo>, rest: seq<byte>, complaints: seq<Complaint>)
    returns (outOfRange: Option<U32>, complaints': seq<Complaint>)
    requires info.Length == MaxDps && |rest| >= 2 && ReadLe16(rest) != 0
    modifies info
    ensures outOfRange.Some? ==>
      VqsEnd(Stopped(DpOutOfRange(outOfRange.value)), info[..]) == VqsFrom(old(info[..]), rest, complaints)
    ensures outOfRange.None? ==>
      VqsFrom(info[..], After(rest), complaints') == VqsFrom(old(info[..]), rest, complaints)
  {
    VqsStep(info[..], rest, complaints);
    var effect := HandleEntry(info, rest);
    complaints' := complaints;
    outOfRange := None;
    if effect.OutOfRange? {
      outOfRange := Some(effect.dp);
    } else if effect.Skipped? {
      complaints' := complaints + [effect.complaint];
    }
  }

  /** gred_parse_vqs: the VQ list `vqs` walked into the table `info`. */
  method ParseVqs(info: array<GredInfo>, vqs: seq<byte>) returns (status: VqsStatus)
    requires info.Length == MaxDps
    modifies info
    ensures VqsEnd(status, info[..]) == VqsWalk(old(info[..]), vqs)
  {
    var offset: nat := 0;
    var complaints: seq<Complaint> := [];
    while offset < |vqs|
      invariant VqsFrom(info[..], Rest(vqs, offset), complaints) == VqsWalk(old(info[..]), vqs)
      decreases |vqs| - offset
    {
      var rest := vqs[offset..];
      assert Rest(vqs, offset) == rest;
      if |rest| < 2 {
        VqsStops(info[..], rest, complaints);
        return Stopped(LengthPastEnd);
      }
      var len := ReadLe16(rest);
      if len == 0 {
        VqsStops(info[..], rest, complaints);
        return Stopped(Spins);
      }
      RestAfter(vqs, offset);
      offset := offset + len;
      ghost var before, noted := info[..], complaints;
      assert VqsFrom(before, rest, noted) == VqsWalk(old(info[..]), vqs);
      var outOfRange;
      outOfRange, complaints := Round(info, rest, complaints);
      if outOfRange.Some? {
        return Stopped(DpOutOfRange(outOfRange.value));
      }
      assert Rest(vqs, offset) == After(rest);
      assert VqsFrom(info[..], After(rest), complaints) == VqsFrom(before, rest, noted);
    }
    assert Rest(vqs, offset) == [];
    status := Walked(complaints);
  }

  /** Every byte counter stays below 2^32: the walk only ever stores 32-bit values. */
  predicate BytesFit32(infos: seq<GredInfo>)
  {
    forall j :: 0 <= j < |infos| ==> infos[j].bytes < Two32
  }

  lemma {:induction false} WalkKeepsBytes32(infos: seq<GredInfo>, rest: seq<byte>, complaints: seq<Complaint>)
    requires |infos| == MaxDps && BytesFit32(infos)
    ensures BytesFit32(VqsFrom(infos, rest, complaints).infos)
    decreases |rest|
  {
    if |rest| >= 2 && ReadLe16(rest) != 0 {
      var len := ReadLe16(rest);
      var next := if len < |rest| then rest[len..] else [];
      match Entry(infos, rest)
        case Skipped(c) => WalkKeepsBytes32(infos, next, complaints + [c]);
        case OutOfRange(_) =>
        case Applied(updated) =>
          assert BytesFit32(updated);
          WalkKeepsBytes32(updated, next, complaints);
    }
  }

  /** Starting from the zeroed table, every byte counter the walk leaves fits in 32 bits. */
  lemma ZeroTableBytes32(vqs: seq<byte>)
    ensures BytesFit32(VqsWalk(seq(MaxDps, _ => ZeroInfo()), vqs).infos)
  {
    WalkKeepsBytes32(seq(MaxDps, _ => ZeroInfo()), vqs, []);
  }

  // ---------------------------------------------------------------------
  // The walk over a list the kernel encodes
  // ---------------------------------------------------------------------

  /** The attributes of one VQ entry fit in a nest. */
  predicate EntryEncodable(children: seq<Attr>)
  {
    AllEncodable(children) && HeaderLen + |WireAll(children)| < 0x1_0000
  }

  predicate EntriesEncodable(entries: seq<seq<Attr>>)
  {
    forall i :: 0 <= i < |entries| ==> EntryEncodable(entries[i])
  }

  /** Each entry's attributes wrapped in a TCA_GRED_VQ_ENTRY nest. */
  function EntryNests(entries: seq<seq<Attr>>): (r: seq<Attr>)
    requires EntriesEncodable(entries)
    ensures |r| == |entries| && AllEncodable(r)
    ensures forall i :: 0 <= i < |r| ==> r[i] == Nest(VqEntry, entries[i])
  {
    if entries == [] then [] else [Nest(VqEntry, entries[0])] + EntryNests(entries[1..])
  }

  /** The table parse_rtattr_nested builds from an entry's attributes. */
  function ChildTable(children: seq<Attr>): (tb: seq<Option<Attr>>)
    ensures |tb| == VqMax + 1
  {
    seq(VqMax + 1, t requires 0 <= t <= VqMax => FirstOf(children, t))
  }

  /** An entry names a queue, and one in range whenever it carries counters. */
  predicate EntryInRange(children: seq<Attr>)
  {
    var tb := ChildTable(children);
    tb[VqDp].Some? && (AnyStat(tb) ==> GetU32(tb[VqDp].value.payload) < MaxDps)
  }

  /** The reference meaning of one well-formed entry: its counters land in its queue's record. */
  function ApplyEntry(infos: seq<GredInfo>, children: seq<Attr>): (r: seq<GredInfo>)
    requires |infos| == MaxDps && EntryInRange(children)
    ensures |r| == MaxDps
  {
    var tb := ChildTable(children);
    if !AnyStat(tb) then infos
    else
      var dp := GetU32(tb[VqDp].value.payload);
      infos[dp := ApplyStats(infos[dp], tb)]
  }

  function ApplyEntries(infos: seq<GredInfo>, entries: seq<seq<Attr>>): (r: seq<GredInfo>)
    requires |infos| == MaxDps
    requires forall i :: 0 <= i < |entries| ==> EntryInRange(entries[i])
    ensures |r| == MaxDps
    decreases |entries|
  {
    if entries == [] then infos else ApplyEntries(ApplyEntry(infos, entries[0]), entries[1..])
  }

  /** parse_rtattr finds an entry at the cursor before anything after it. */
  lemma EntryAtCursor(n: Attr, rest: seq<byte>)
    requires Encodable(n) && n.kind == VqEntry
    ensures ParseRtattr(Wire(n) + rest, VqEntryMax)[VqEntry] == Some(n)
  {
    WalkWire(n, rest);
    FirstOfHead(n, Walk(rest));
  }

  /** parse_rtattr_nested on an entry's nest rebuilds the table of its attributes. */
  lemma NestTable(children: seq<Attr>)
    requires EntryEncodable(children)
    ensures ParseRtattr(Nest(VqEntry, children).payload, VqMax) == ChildTable(children)
  {
    NestRoundTrip(VqEntry, children);
  }

  /** The round at the cursor of an encoded entry handles exactly that entry. */
  lemma EntryOfNest(infos: seq<GredInfo>, children: seq<Attr>, rest: seq<byte>)
    requires |infos| == MaxDps && EntryEncodable(children) && EntryInRange(children)
    ensures Entry(infos, Wire(Nest(VqEntry, children)) + rest) == Applied(ApplyEntry(infos, children))
  {
    var n := Nest(VqEntry, children);
    EntryAtCursor(n, rest);
    NestTable(children);
  }

  /** An encoded entry at the cursor: one round applies it and moves past it. */
  lemma VqsHead(infos: seq<GredInfo>, children: seq<Attr>, tail: seq<byte>, complaints: seq<Complaint>)
    requires |infos| == MaxDps && EntryEncodable(children) && EntryInRange(children)
    ensures VqsFrom(infos, Wire(Nest(VqEntry, children)) + tail, complaints)
            == VqsFrom(ApplyEntry(infos, children), tail, complaints)
  {
    var n := Nest(VqEntry, children);
    var rest := Wire(n) + tail;
    ReadHeader(n, tail);
    assert ReadLe16(rest) == |Wire(n)|;
    assert After(rest) == tail;
    EntryOfNest(infos, children, tail);
    VqsStep(infos, rest, complaints);
  }

  /** parse_rtattr looks past a stray attribute at the cursor to the entry after it. */
  lemma EntryPastStray(stray: Attr, n: Attr, tail: seq<byte>)
    requires Encodable(stray) && stray.kind != VqEntry && Encodable(n) && n.kind == VqEntry
    ensures ParseRtattr(Wire(stray) + (Wire(n) + tail), VqEntryMax)[VqEntry] == Some(n)
  {
    var later := Wire(n) + tail;
    WalkWire(stray, later);
    WalkWire(n, tail);
    FirstOfHead(n, Walk(tail));
    assert ([stray] + ([n] + Walk(tail)))[1..] == [n] + Walk(tail);
  }

  /**
   * Each round parses the whole remaining list, not the attribute at the
   * cursor: a stray attribute at the cursor followed by an entry draws no
   * complaint, its round applies that later entry, and the entry's own
   * round applies it again.
   */
  lemma StrayAttributeUsesLaterEntry(infos: seq<GredInfo>, stray: Attr, children: seq<Attr>, tail: seq<byte>,
                                     complaints: seq<Complaint>)
    requires |infos| == MaxDps && Encodable(stray) && stray.kind != VqEntry && |stray.payload| % 4 == 0
    requires EntryEncodable(children) && EntryInRange(children)
    ensures var rest := Wire(stray) + (Wire(Nest(VqEntry, children)) + tail);
      && Entry(infos, rest) == Applied(ApplyEntry(infos, children))
      && VqsFrom(infos, rest, complaints)
         == VqsFrom(ApplyEntry(ApplyEntry(infos, children), children), tail, complaints)
  {
    var later := Wire(Nest(VqEntry, children)) + tail;
    StrayRound(infos, stray, children, tail);
    SkipHeader(stray, later);
    AppliedRound(infos, Wire(stray) + later, complaints, ApplyEntry(infos, children));
    VqsHead(ApplyEntry(infos, children), children, tail, complaints);
  }

  /** The length field of an attribute with an aligned payload moves the cursor past it. */
  lemma SkipHeader(a: Attr, rest: seq<byte>)
    requires Encodable(a) && |a.payload| % 4 == 0
    ensures |Wire(a) + rest| >= 2 && ReadLe16(Wire(a) + rest) != 0
    ensures After(Wire(a) + rest) == rest
  {
    ReadHeader(a, rest);
    assert ReadLe16(Wire(a) + rest) == |Wire(a)|;
    assert (Wire(a) + rest)[|Wire(a)|..] == rest;
  }

  /** A round that applies an entry continues after it from the updated table. */
  lemma AppliedRound(infos: seq<GredInfo>, rest: seq<byte>, complaints: seq<Complaint>, updated: seq<GredInfo>)
    requires |infos| == MaxDps && |rest| >= 2 && ReadLe16(rest) != 0
    requires Entry(infos, rest) == Applied(updated)
    ensures VqsFrom(infos, rest, complaints) == VqsFrom(updated, After(rest), complaints)
  {
    VqsStep(infos, rest, complaints);
  }

  /** The round at a stray attribute handles the entry after it. */
  lemma StrayRound(infos: seq<GredInfo>, stray: Attr, children: seq<Attr>, tail: seq<byte>)
    requires |infos| == MaxDps && Encodable(stray) && stray.kind != VqEntry
    requires EntryEncodable(children) && EntryInRange(children)
    ensures Entry(infos, Wire(stray) + (Wire(Nest(VqEntry, children)) + tail)) == Applied(ApplyEntry(infos, children))
  {
    EntryPastStray(stray, Nest(VqEntry, children), tail);
    NestTable(children);
  }

  /**
   * An encoded entry without TCA_GRED_VQ_DP at the cursor: its round
   * complains once and the walk goes on after it with the table untouched.
   */
  lemma NoDpHead(infos: seq<GredInfo>, children: seq<Attr>, tail: seq<byte>, complaints: seq<Complaint>)
    requires |infos| == MaxDps && EntryEncodable(children) && ChildTable(children)[VqDp].None?
    ensures VqsFrom(infos, Wire(Nest(VqEntry, children)) + tail, complaints)
            == VqsFrom(infos, tail, complaints + [NoDp])
  {
    var n := Nest(VqEntry, children);
    var rest := Wire(n) + tail;
    ReadHeader(n, tail);
    assert ReadLe16(rest) == |Wire(n)|;
    assert After(rest) == tail;
    EntryAtCursor(n, tail);
    NestTable(children);
    assert Entry(infos, rest) == Skipped(NoDp);
    VqsStep(infos, rest, complaints);
  }

  /**
   * Walking well-formed entries followed by any bytes applies the entries in
   * order, adds no complaint, and goes on with the bytes after them.
   */
  lemma {:induction false} VqsOfEntriesThen(infos: seq<GredInfo>, entries: seq<seq<Attr>>, tail: seq<byte>,
                                            complaints: seq<Complaint>)
    requires |infos| == MaxDps && EntriesEncodable(entries)
    requires forall i :: 0 <= i < |entries| ==> EntryInRange(entries[i])
    ensures VqsFrom(infos, WireAll(EntryNests(entries)) + tail, complaints)
            == VqsFrom(ApplyEntries(infos, entries), tail, complaints)
    decreases |entries|
  {
    if entries != [] {
      var nests := EntryNests(entries);
      assert nests[1..] == EntryNests(entries[1..]);
      WireAllCons(nests, tail);
      VqsHead(infos, entries[0], WireAll(nests[1..]) + tail, complaints);
      VqsOfEntriesThen(ApplyEntry(infos, entries[0]), entries[1..], tail, complaints);
    } else {
      assert WireAll(EntryNests(entries)) + tail == tail;
    }
  }

  /**
   * Robustness: well-formed entries around one entry without a queue
   * number are all applied, in order, and the walk ends with exactly one
   * complaint, about the entry it skipped.
   */
  lemma OneBadAmongGood(infos: seq<GredInfo>, before: seq<seq<Attr>>, bad: seq<Attr>, after: seq<seq<Attr>>)
    requires |infos| == MaxDps && EntriesEncodable(before) && EntriesEncodable(after)
    requires forall i :: 0 <= i < |before| ==> EntryInRange(before[i])
    requires forall i :: 0 <= i < |after| ==> EntryInRange(after[i])
    requires EntryEncodable(bad) && ChildTable(bad)[VqDp].None?
    ensures VqsWalk(infos, WireAll(EntryNests(before)) + (Wire(Nest(VqEntry, bad)) + WireAll(EntryNests(after))))
            == VqsEnd(Walked([NoDp]), ApplyEntries(ApplyEntries(infos, before), after))
  {
    var mid := ApplyEntries(infos, before);
    var rest := WireAll(EntryNests(after));
    VqsOfEntriesThen(infos, before, Wire(Nest(VqEntry, bad)) + rest, []);
    NoDpHead(mid, bad, rest, []);
    assert [] + [NoDp] == [NoDp];
    VqsOfEntries(mid, after, [NoDp]);
  }

  /**
   * Round trip: walking a list of encoded entries, each naming a queue in
   * range, applies the entries in order and complains about none of them.
   */
  lemma {:induction false} VqsOfEntries(infos: seq<GredInfo>, entries: seq<seq<Attr>>, complaints: seq<Complaint>)
    requires |infos| == MaxDps && EntriesEncodable(entries)
    requires forall i :: 0 <= i < |entries| ==> EntryInRange(entries[i])
    ensures VqsFrom(infos, WireAll(EntryNests(entries)), complaints)
            == VqsEnd(Walked(complaints), ApplyEntries(infos, entries))
    decreases |entries|
  {
    if entries != [] {
      var nests := EntryNests(entries);
      var n := nests[0];
      var tail := WireAll(nests[1..]);
      assert nests[1..] == EntryNests(entries[1..]);
      assert WireAll(nests) == Wire(n) + tail;
      VqsHead(infos, entries[0], tail, complaints);
      var updated := ApplyEntry(infos, entries[0]);
      VqsOfEntries(updated, entries[1..], complaints);
    } else {
      assert WireAll(EntryNests(entries)) == [];
    }
  }
}
