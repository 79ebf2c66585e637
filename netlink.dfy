/**
 * Netlink attributes on the wire: a 4-byte header (16-bit total length,
 * 16-bit type) followed by the payload, padded to a 4-byte boundary.
 *
 * The walk and the lookup below are the behaviour of the library helpers
 * the two front ends call (RTA_OK/RTA_NEXT and parse_rtattr of libnetlink,
 * mnl_attr_for_each of libmnl); an attribute is built with the layout that
 * addattr_l/mnl_attr_put write and a nest with addattr_nest/addattr_nest_end.
 */
module Netlink {
  import opened Types

  const HeaderLen: nat := 4

  /** RTA_ALIGN / MNL_ALIGN. */
  function Align4(n: nat): (r: nat)
    ensures r % 4 == 0 && n <= r < n + 4
  {
    (n + 3) / 4 * 4
  }

  /** One attribute: its raw 16-bit type field and its payload. */
  datatype Attr = Attr(kind: U16, payload: seq<byte>)

  /** The 16-bit length field can describe the attribute. */
  predicate Encodable(a: Attr)
  {
    HeaderLen + |a.payload| < 0x1_0000
  }

  predicate AllEncodable(attrs: seq<Attr>)
  {
    forall i :: 0 <= i < |attrs| ==> Encodable(attrs[i])
  }

  /** The bytes an attribute occupies in a message, padding included. */
  function Wire(a: Attr): (r: seq<byte>)
    requires Encodable(a)
    ensures |r| == Align4(HeaderLen + |a.payload|) && |r| % 4 == 0
  {
    Le16(HeaderLen + |a.payload|) + Le16(a.kind) + a.payload
      + Zeros(Align4(|a.payload|) - |a.payload|)
  }

  function WireAll(attrs: seq<Attr>): (r: seq<byte>)
    requires AllEncodable(attrs)
    ensures |r| % 4 == 0
  {
    if attrs == [] then [] else Wire(attrs[0]) + WireAll(attrs[1..])
  }

  /** A nested attribute: its payload is the concatenation of its children. */
  function Nest(kind: U16, children: seq<Attr>): (r: Attr)
    requires AllEncodable(children)
    ensures r.kind == kind && |r.payload| % 4 == 0
  {
    Attr(kind, WireAll(children))
  }

  /**
   * The attributes found by walking a buffer: an attribute is taken while
   * at least a header remains and its length field is at least a header
   * and at most what remains (RTA_OK); the walk then skips the aligned
   * length (RTA_NEXT). Whatever follows the first bad header is ignored.
   */
  function Walk(buf: seq<byte>): (r: seq<Attr>)
    decreases |buf|
  {
    if |buf| < HeaderLen then []
    else
      var len := ReadLe16(buf);
      if len < HeaderLen || len > |buf| then []
      else
        [Attr(ReadLe16(buf[2..]), buf[HeaderLen..len])]
          + (if Align4(len) >= |buf| then [] else Walk(buf[Align4(len)..]))
  }

  /** The first attribute of type `t` (parse_rtattr keeps the first one). */
  function FirstOf(attrs: seq<Attr>, t: nat): (r: Option<Attr>)
    ensures r.Some? ==> r.value in attrs && r.value.kind == t
    ensures r.None? <==> forall i :: 0 <= i < |attrs| ==> attrs[i].kind != t
  {
    if attrs == [] then None
    else if attrs[0].kind == t then Some(attrs[0])
    else FirstOf(attrs[1..], t)
  }

  /**
   * parse_rtattr(tb, max, buf, len): the table indexed by type, holding
   * the first attribute of each type up to `max`.
   */
  function ParseRtattr(buf: seq<byte>, max: nat): (tb: seq<Option<Attr>>)
    ensures |tb| == max + 1
  {
    var attrs := Walk(buf);
    seq(max + 1, t requires 0 <= t <= max => FirstOf(attrs, t))
  }

  lemma ReadHeader(a: Attr, rest: seq<byte>)
    requires Encodable(a)
    ensures var b := Wire(a) + rest;
      ReadLe16(b) == HeaderLen + |a.payload| && ReadLe16(b[2..]) == a.kind
  {
    var b := Wire(a) + rest;
    assert b == Le16(HeaderLen + |a.payload|) + (Le16(a.kind) + a.payload
      + Zeros(Align4(|a.payload|) - |a.payload|) + rest);
    Le16RoundTrip(HeaderLen + |a.payload|, Le16(a.kind) + a.payload
      + Zeros(Align4(|a.payload|) - |a.payload|) + rest);
    assert b[2..] == Le16(a.kind) + (a.payload
      + Zeros(Align4(|a.payload|) - |a.payload|) + rest);
    Le16RoundTrip(a.kind, a.payload + Zeros(Align4(|a.payload|) - |a.payload|) + rest);
  }

  /** Walking an encoded attribute recovers it and continues after it. */
  lemma WalkWire(a: Attr, rest: seq<byte>)
    requires Encodable(a)
    ensures Walk(Wire(a) + rest) == [a] + Walk(rest)
  {
    var b := Wire(a) + rest;
    var len := HeaderLen + |a.payload|;
    ReadHeader(a, rest);
    assert Align4(len) == |Wire(a)|;
    assert b[HeaderLen..len] == a.payload;
    if Align4(len) >= |b| {
      assert rest == [];
    } else {
      assert b[Align4(len)..] == rest;
    }
  }

  /** The encoding of a non-empty list is its head's encoding followed by the rest. */
  lemma WireAllCons(attrs: seq<Attr>, rest: seq<byte>)
    requires AllEncodable(attrs) && attrs != []
    ensures Encodable(attrs[0]) && AllEncodable(attrs[1..])
    ensures WireAll(attrs) + rest == Wire(attrs[0]) + (WireAll(attrs[1..]) + rest)
  {
  }

  /** One step of the round trip: an encoded head in front of bytes that walk back to `more`. */
  lemma WalkWireCons(a: Attr, tail: seq<byte>, more: seq<Attr>, rest: seq<byte>)
    requires Encodable(a)
    requires Walk(tail) == more + Walk(rest)
    ensures Walk(Wire(a) + tail) == [a] + more + Walk(rest)
  {
    WalkWire(a, tail);
    assert [a] + (more + Walk(rest)) == [a] + more + Walk(rest);
  }

  /** Round trip: walking the encoding of attributes gives them back. */
  lemma {:induction false} WalkWireAll(attrs: seq<Attr>, rest: seq<byte>)
    requires AllEncodable(attrs)
    ensures Walk(WireAll(attrs) + rest) == attrs + Walk(rest)
  {
    if attrs != [] {
      WireAllCons(attrs, rest);
      WalkWireAll(attrs[1..], rest);
      WalkWireCons(attrs[0], WireAll(attrs[1..]) + rest, attrs[1..], rest);
      assert attrs == [attrs[0]] + attrs[1..];
    } else {
      assert WireAll(attrs) + rest == rest;
    }
  }

  /** The children of a nest are recovered by walking its payload. */
  lemma NestRoundTrip(kind: U16, children: seq<Attr>)
    requires AllEncodable(children)
    ensures Walk(Nest(kind, children).payload) == children
  {
    WalkWireAll(children, []);
    assert WireAll(children) + [] == WireAll(children);
    assert children + [] == children;
  }

  /** The first attribute of a walk wins, whatever follows it. */
  lemma FirstOfHead(a: Attr, rest: seq<Attr>)
    ensures FirstOf([a] + rest, a.kind) == Some(a)
  {
  }

  lemma {:induction false} FirstOfAppend(xs: seq<Attr>, ys: seq<Attr>, t: nat)
    ensures FirstOf(xs + ys, t) == if FirstOf(xs, t).Some? then FirstOf(xs, t) else FirstOf(ys, t)
  {
    if xs != [] {
      assert (xs + ys)[0] == xs[0];
      assert (xs + ys)[1..] == xs[1..] + ys;
      FirstOfAppend(xs[1..], ys, t);
    } else {
      assert xs + ys == ys;
    }
  }
}
