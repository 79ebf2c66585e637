/**
 * The GRED netlink vocabulary (linux/pkt_sched.h, linux/rtnetlink.h) and
 * the two fixed structures tc exchanges with the kernel, struct
 * tc_gred_sopt (12 bytes) and struct tc_gred_qopt (52 bytes), in the
 * little-endian layout of the host.
 */
module GredWire {
  import opened Types

  /** MAX_DPs: the number of virtual queues GRED supports. */
  const MaxDps: nat := 16

  /** TCA_OPTIONS of the traffic-control message. */
  const TcaOptions: U16 := 2

  // enum TCA_GRED_*
  const GredParms: U16 := 1
  const GredStab: U16 := 2
  const GredDps: U16 := 3
  const GredMaxP: U16 := 4
  const GredLimit: U16 := 5
  const GredVqList: U16 := 6
  const GredMax: nat := 6

  // enum TCA_GRED_VQ_ENTRY_*
  const VqEntry: U16 := 1
  const VqEntryMax: nat := 1

  // enum TCA_GRED_VQ_*
  const VqDp: U16 := 2
  const VqStatBytes: U16 := 3
  const VqStatPackets: U16 := 4
  const VqStatBacklog: U16 := 5
  const VqStatProbDrop: U16 := 6
  const VqStatProbMark: U16 := 7
  const VqStatForcedDrop: U16 := 8
  const VqStatForcedMark: U16 := 9
  const VqStatPdrop: U16 := 10
  const VqStatOther: U16 := 11
  const VqFlags: U16 := 12
  const VqMax: nat := 12

  const SoptSize: nat := 12
  const QoptSize: nat := 52

  /** struct tc_gred_sopt: the table-wide setup. */
  datatype Sopt = Sopt(dps: U32, defDp: U32, grio: byte, flags: byte)

  /** struct tc_gred_qopt: one virtual queue's parameters and counters. */
  datatype Qopt = Qopt(
    limit: U32, qthMin: U32, qthMax: U32, dp: U32,
    backlog: U32, qave: U32, forced: U32, early: U32, other: U32, pdrop: U32,
    wlog: byte, plog: byte, scellLog: byte, prio: byte,
    packets: U32, bytesin: U32)

  /** A zero-initialised tc_gred_qopt. */
  const ZeroQopt := Qopt(0, 0, 0, 0, 0, 0, 0, 0, 0, 0, 0, 0, 0, 0, 0, 0)

  /** Consecutive 32-bit little-endian words. */
  function Le32s(xs: seq<U32>): (r: seq<byte>)
    ensures |r| == 4 * |xs|
  {
    if xs == [] then [] else Le32(xs[0]) + Le32s(xs[1..])
  }

  /** The word at position `k` of an encoded sequence reads back as written. */
  lemma {:induction false} Le32sRead(xs: seq<U32>, k: nat, rest: seq<byte>)
    requires k < |xs|
    ensures ReadLe32((Le32s(xs) + rest)[4 * k..]) == xs[k]
    decreases k
  {
    var b := Le32s(xs) + rest;
    if k == 0 {
      assert b == Le32(xs[0]) + (Le32s(xs[1..]) + rest);
      Le32RoundTrip(xs[0], Le32s(xs[1..]) + rest);
    } else {
      assert b[4..] == Le32s(xs[1..]) + rest;
      assert b[4 * k..] == (Le32s(xs[1..]) + rest)[4 * (k - 1)..];
      Le32sRead(xs[1..], k - 1, rest);
    }
  }

  function EncodeSopt(s: Sopt): (r: seq<byte>)
    ensures |r| == SoptSize
  {
    Le32s([s.dps, s.defDp]) + [s.grio, s.flags] + Le16(0)
  }

  function DecodeSopt(p: seq<byte>): Sopt
    requires |p| >= SoptSize
  {
    Sopt(ReadLe32(p), ReadLe32(p[4..]), p[8], p[9])
  }

  /** Decoding the setup structure gives back what was encoded. */
  lemma SoptRoundTrip(s: Sopt, rest: seq<byte>)
    ensures DecodeSopt(EncodeSopt(s) + rest) == s
  {
    var words := [s.dps, s.defDp];
    var b := EncodeSopt(s) + rest;
    assert b == Le32s(words) + ([s.grio, s.flags] + Le16(0) + rest);
    Le32sRead(words, 0, [s.grio, s.flags] + Le16(0) + rest);
    Le32sRead(words, 1, [s.grio, s.flags] + Le16(0) + rest);
    assert b[4 * 0..] == b;
  }

  /** The ten leading words of tc_gred_qopt. */
  function HeadWords(q: Qopt): seq<U32>
  {
    [q.limit, q.qthMin, q.qthMax, q.dp, q.backlog, q.qave, q.forced, q.early, q.other, q.pdrop]
  }

  function EncodeQopt(q: Qopt): (r: seq<byte>)
    ensures |r| == QoptSize
  {
    Le32s(HeadWords(q)) + [q.wlog, q.plog, q.scellLog, q.prio] + Le32s([q.packets, q.bytesin])
  }

  function DecodeQopt(p: seq<byte>): Qopt
    requires |p| >= QoptSize
  {
    Qopt(ReadLe32(p), ReadLe32(p[4..]), ReadLe32(p[8..]), ReadLe32(p[12..]),
         ReadLe32(p[16..]), ReadLe32(p[20..]), ReadLe32(p[24..]), ReadLe32(p[28..]),
         ReadLe32(p[32..]), ReadLe32(p[36..]),
         p[40], p[41], p[42], p[43],
         ReadLe32(p[44..]), ReadLe32(p[48..]))
  }

  /** The ten leading words read back from their offsets. */
  lemma QoptHeadRead(q: Qopt, rest: seq<byte>)
    ensures var b := EncodeQopt(q) + rest;
      && ReadLe32(b) == q.limit && ReadLe32(b[4..]) == q.qthMin
      && ReadLe32(b[8..]) == q.qthMax && ReadLe32(b[12..]) == q.dp
      && ReadLe32(b[16..]) == q.backlog && ReadLe32(b[20..]) == q.qave
      && ReadLe32(b[24..]) == q.forced && ReadLe32(b[28..]) == q.early
      && ReadLe32(b[32..]) == q.other && ReadLe32(b[36..]) == q.pdrop
  {
    var head := HeadWords(q);
    var after := [q.wlog, q.plog, q.scellLog, q.prio] + Le32s([q.packets, q.bytesin]) + rest;
    var b := EncodeQopt(q) + rest;
    assert b == Le32s(head) + after;
    forall k | 0 <= k < 10
      ensures ReadLe32(b[4 * k..]) == head[k]
    {
      Le32sRead(head, k, after);
    }
    assert b[4 * 0..] == b;
    assert ReadLe32(b[4 * 1..]) == q.qthMin && ReadLe32(b[4 * 2..]) == q.qthMax;
    assert ReadLe32(b[4 * 3..]) == q.dp && ReadLe32(b[4 * 4..]) == q.backlog;
    assert ReadLe32(b[4 * 5..]) == q.qave && ReadLe32(b[4 * 6..]) == q.forced;
    assert ReadLe32(b[4 * 7..]) == q.early && ReadLe32(b[4 * 8..]) == q.other;
    assert ReadLe32(b[4 * 9..]) == q.pdrop;
  }

  /** The four byte fields and the two trailing words read back from their offsets. */
  lemma QoptTailRead(q: Qopt, rest: seq<byte>)
    ensures var b := EncodeQopt(q) + rest;
      && b[40] == q.wlog && b[41] == q.plog && b[42] == q.scellLog && b[43] == q.prio
      && ReadLe32(b[44..]) == q.packets && ReadLe32(b[48..]) == q.bytesin
  {
    var tail := [q.packets, q.bytesin];
    var b := EncodeQopt(q) + rest;
    assert b[40..44] == [q.wlog, q.plog, q.scellLog, q.prio];
    assert b[44..] == Le32s(tail) + rest;
    Le32sRead(tail, 0, rest);
    Le32sRead(tail, 1, rest);
    assert b[48..] == (Le32s(tail) + rest)[4 * 1..];
    assert (Le32s(tail) + rest)[4 * 0..] == Le32s(tail) + rest;
  }

  /** Decoding a queue's structure gives back what was encoded. */
  lemma QoptRoundTrip(q: Qopt, rest: seq<byte>)
    ensures DecodeQopt(EncodeQopt(q) + rest) == q
  {
    QoptHeadRead(q, rest);
    QoptTailRead(q, rest);
  }
}
