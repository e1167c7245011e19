/** The transcript encoding: every item is written with its domain and both lengths. */
module Framing {
  import opened Party

  type Bytes = seq<Byte>

  const TWO_64: int := 0x1_0000_0000_0000_0000

  /** A domain and the data written under it. */
  datatype Frame = Frame(domain: Bytes, data: Bytes)

  // ------------------------------------------------------------------------ sizes

  function BigEndian(n: nat, k: nat): (r: Bytes)
    ensures |r| == k
  {
    if k == 0 then [] else BigEndian(n / 256, k - 1) + [n % 256]
  }

  function Power256(k: nat): (r: nat)
    ensures r > 0
  {
    if k == 0 then 1 else 256 * Power256(k - 1)
  }

  /** A byte string read as a number, the first byte the most significant. */
  function NumberOf(b: Bytes): (n: nat) {
    if |b| == 0 then 0 else 256 * NumberOf(b[..|b| - 1]) + b[|b| - 1]
  }

  /** The most significant byte comes first: read back, the bytes give the number. */
  lemma {:induction false} BigEndianReads(n: nat, k: nat)
    requires n < Power256(k)
    ensures NumberOf(BigEndian(n, k)) == n
  {
    if k != 0 {
      BigEndianReads(n / 256, k - 1);
      assert BigEndian(n, k)[..k - 1] == BigEndian(n / 256, k - 1);
    }
  }

  lemma {:induction false} BigEndianInjective(a: nat, b: nat, k: nat)
    requires a < Power256(k) && b < Power256(k) && BigEndian(a, k) == BigEndian(b, k)
    ensures a == b
  {
    if k != 0 {
      var x, y := BigEndian(a, k), BigEndian(b, k);
      assert x[k - 1] == a % 256 && y[k - 1] == b % 256;
      assert x[..k - 1] == BigEndian(a / 256, k - 1) && y[..k - 1] == BigEndian(b / 256, k - 1);
      BigEndianInjective(a / 256, b / 256, k - 1);
    }
  }

  lemma Power8()
    ensures Power256(8) == TWO_64
  {
  }

  /** PutUint64 of a length. */
  function Size(n: nat): (r: Bytes)
    ensures |r| == 8
  {
    BigEndian(n % TWO_64, 8)
  }

  lemma SizeInjective(a: nat, b: nat)
    requires a < TWO_64 && b < TWO_64 && Size(a) == Size(b)
    ensures a == b
  {
    hide Power256, BigEndian;
    Power8();
    BigEndianInjective(a, b, 8);
  }

  // ----------------------------------------------------------------------- frames

  /** (<domain_size><domain><data_size><data>) */
  function Encode(f: Frame): (r: Bytes) {
    [40] + Size(|f.domain|) + f.domain + Size(|f.data|) + f.data + [41]
  }

  function Stream(fs: seq<Frame>): (r: Bytes) {
    if |fs| == 0 then [] else Encode(fs[0]) + Stream(fs[1..])
  }

  predicate Small(f: Frame) {
    |f.domain| < TWO_64 && |f.data| < TWO_64
  }

  /** A length-prefixed string at the head of a stream can be read in one way only. */
  lemma SizedPrefix(a: Bytes, b: Bytes, r: Bytes, t: Bytes)
    requires |a| < TWO_64 && |b| < TWO_64 && Size(|a|) + a + r == Size(|b|) + b + t
    ensures a == b && r == t
  {
    hide Size;
    var x, y := Size(|a|) + a + r, Size(|b|) + b + t;
    assert x[..8] == Size(|a|) && y[..8] == Size(|b|);
    SizeInjective(|a|, |b|);
    assert x[8..8 + |a|] == a && y[8..8 + |b|] == b;
    assert x[8 + |a|..] == r && y[8 + |b|..] == t;
  }

  /** No frame is the beginning of another. */
  lemma FramePrefix(f: Frame, g: Frame, r: Bytes, t: Bytes)
    requires Small(f) && Small(g) && Encode(f) + r == Encode(g) + t
    ensures f == g && r == t
  {
    hide Size;
    var fr, gt := Size(|f.data|) + f.data + ([41] + r), Size(|g.data|) + g.data + ([41] + t);
    var x, y := Encode(f) + r, Encode(g) + t;
    assert x == [40] + (Size(|f.domain|) + f.domain + fr);
    assert y == [40] + (Size(|g.domain|) + g.domain + gt);
    assert x[1..] == Size(|f.domain|) + f.domain + fr && y[1..] == Size(|g.domain|) + g.domain + gt;
    SizedPrefix(f.domain, g.domain, fr, gt);
    SizedPrefix(f.data, g.data, [41] + r, [41] + t);
    assert ([41] + r)[1..] == r && ([41] + t)[1..] == t;
  }

  /** Equal streams come from equal lists of frames. */
  lemma {:induction false} UniquelyDecodable(fs: seq<Frame>, gs: seq<Frame>)
    requires (forall i :: 0 <= i < |fs| ==> Small(fs[i])) && forall i :: 0 <= i < |gs| ==> Small(gs[i])
    requires Stream(fs) == Stream(gs)
    ensures fs == gs
  {
    hide Encode, Small;
    if |fs| == 0 || |gs| == 0 {
      if |fs| != 0 {
        NotEmpty(fs[0], Stream(fs[1..]));
      } else if |gs| != 0 {
        NotEmpty(gs[0], Stream(gs[1..]));
      }
    } else {
      FramePrefix(fs[0], gs[0], Stream(fs[1..]), Stream(gs[1..]));
      UniquelyDecodable(fs[1..], gs[1..]);
      assert fs == [fs[0]] + fs[1..] && gs == [gs[0]] + gs[1..];
    }
  }

  lemma NotEmpty(f: Frame, r: Bytes)
    ensures |Encode(f) + r| > 0
  {
  }

  lemma {:induction false} StreamAppend(fs: seq<Frame>, gs: seq<Frame>)
    ensures Stream(fs + gs) == Stream(fs) + Stream(gs)
  {
    if |fs| == 0 {
      assert fs + gs == gs;
    } else {
      assert (fs + gs)[1..] == fs[1..] + gs;
      StreamAppend(fs[1..], gs);
    }
  }

  // --------------------------------------------------------------------- WriteAny

  /** An argument of WriteAny. None is a nil value, or a value whose writer returns an error. */
  datatype Item =
    | ByteSlice(bytes: Option<Bytes>)
    | BigInteger(gob: Option<Bytes>)
    | Writer(domain: Bytes, written: Option<Bytes>)
    | Marshaler(typeName: Bytes, marshaled: Option<Bytes>)
    | Unsupported

  const BYTES_DOMAIN: Bytes := [91, 93, 98, 121, 116, 101]
  const BIGINT_DOMAIN: Bytes := [98, 105, 103, 46, 73, 110, 116]

  function FrameOf(item: Item): (r: Option<Frame>) {
    match item
    case ByteSlice(Some(b)) => Some(Frame(BYTES_DOMAIN, b))
    case BigInteger(Some(b)) => Some(Frame(BIGINT_DOMAIN, b))
    case Writer(d, Some(b)) => Some(Frame(d, b))
    case Marshaler(n, Some(b)) => Some(Frame(n, b))
    case _ => None
  }

  /** The frames of the items before the first that cannot be written. */
  ghost function Framed(items: seq<Item>): seq<Frame> {
    if |items| == 0 || FrameOf(items[0]).None? then [] else [FrameOf(items[0]).value] + Framed(items[1..])
  }

  /** Appending one item after a list that could be written as a whole. */
  lemma {:induction false} FramedSnoc(items: seq<Item>, i: nat)
    requires i < |items| && forall k :: 0 <= k < i ==> FrameOf(items[k]).Some?
    ensures FrameOf(items[i]).Some? ==> Framed(items[..i + 1]) == Framed(items[..i]) + [FrameOf(items[i]).value]
    ensures FrameOf(items[i]).None? ==> Framed(items) == Framed(items[..i])
  {
    if i != 0 {
      FramedSnoc(items[1..], i - 1);
      assert items[..i + 1][1..] == items[1..][..i] && items[..i][1..] == items[1..][..i - 1];
    } else {
      assert items[..1][1..] == [];
    }
  }

  /** Byte slices and big integers never share a frame, and a frame determines which of them it holds. */
  lemma FrameDetermines(x: Item, y: Item)
    requires (x.ByteSlice? || x.BigInteger?) && (y.ByteSlice? || y.BigInteger?) && FrameOf(x).Some? && FrameOf(y).Some?
    ensures FrameOf(x) == FrameOf(y) <==> x == y
  {
    assert BYTES_DOMAIN[0] != BIGINT_DOMAIN[0];
  }

  /** When everything can be written, there is one frame for every item, in order, and none is skipped. */
  lemma {:induction false} FramedAll(items: seq<Item>)
    requires forall i :: 0 <= i < |items| ==> FrameOf(items[i]).Some?
    ensures |Framed(items)| == |items| && Skipping(items) == Framed(items)
    ensures forall i :: 0 <= i < |items| ==> Framed(items)[i] == FrameOf(items[i]).value
  {
    hide FrameOf;
    if |items| != 0 {
      FramedAll(items[1..]);
      assert forall i :: 0 < i < |items| ==> items[i] == items[1..][i - 1];
    }
  }

  /** A byte slice or an integer that can be written. */
  ghost predicate Plain(x: Item) {
    (x.ByteSlice? || x.BigInteger?) && FrameOf(x).Some? && Small(FrameOf(x).value)
  }

  /** What has been written determines every item that was written. */
  lemma WrittenDetermines(a: seq<Item>, b: seq<Item>)
    requires forall i :: 0 <= i < |a| ==> Plain(a[i])
    requires forall i :: 0 <= i < |b| ==> Plain(b[i])
    ensures Stream(Framed(a)) == Stream(Framed(b)) <==> a == b
    ensures Stream(Skipping(a)) == Stream(Skipping(b)) <==> a == b
  {
    hide FrameOf, Small, Stream;
    FramedAll(a);
    FramedAll(b);
    if Stream(Framed(a)) == Stream(Framed(b)) {
      UniquelyDecodable(Framed(a), Framed(b));
      forall i | 0 <= i < |a| ensures a[i] == b[i] {
        assert Framed(a)[i] == Framed(b)[i];
        FrameDetermines(a[i], b[i]);
      }
    }
  }

  const PREFIX: Bytes := [67, 77, 80, 45, 66, 76, 65, 75, 69]

  /** A running hash: everything written to it so far. */
  class Hash {
    var written: Bytes

    /** New: items that cannot be written are skipped, one by one. */
    constructor (items: seq<Item>)
      ensures written == PREFIX + Stream(Skipping(items))
    {
      hide Stream, FrameOf;
      written := PREFIX;
      new;
      assert PREFIX == PREFIX + Stream(Skipping(items[..0])) by { StreamNone(items); }
      for i := 0 to |items|
        invariant written == PREFIX + Stream(Skipping(items[..i]))
      {
        var ok := WriteAny([items[i]]);
        SkippingStep(items, i);
        StreamAppend(Skipping(items[..i]), Framed([items[i]]));
        assert PREFIX + Stream(Skipping(items[..i])) + Stream(Framed([items[i]])) ==
               PREFIX + (Stream(Skipping(items[..i])) + Stream(Framed([items[i]])));
      }
      assert items[..|items|] == items;
    }

    /** WriteAny: writes frames until the first item that cannot be written. */
    method WriteAny(items: seq<Item>) returns (ok: bool)
      modifies this
      ensures ok <==> forall i :: 0 <= i < |items| ==> FrameOf(items[i]).Some?
      ensures written == old(written) + Stream(Framed(items))
    {
      hide Encode;
      assert written == old(written) + Stream([]);
      for i := 0 to |items|
        invariant forall k :: 0 <= k < i ==> FrameOf(items[k]).Some?
        invariant written == old(written) + Stream(Framed(items[..i]))
      {
        FramedSnoc(items, i);
        var frame := FrameOf(items[i]);
        if frame.None? {
          return false;
        }
        WriteFrame(frame.value);
        StreamAppend(Framed(items[..i]), [frame.value]);
        assert Stream([frame.value]) == Encode(frame.value) + Stream([]);
      }
      assert items[..|items|] == items;
      return true;
    }

    method WriteFrame(f: Frame)
      modifies this
      ensures written == old(written) + Encode(f)
    {
      written := written + [40];
      written := written + Size(|f.domain|);
      written := written + f.domain;
      written := written + Size(|f.data|);
      written := written + f.data;
      written := written + [41];
    }
  }

  /** The frames of a list of items without those that cannot be written. */
  ghost function Skipping(items: seq<Item>): seq<Frame> {
    if |items| == 0 then [] else One(items[0]) + Skipping(items[1..])
  }

  function One(item: Item): (r: seq<Frame>) {
    var f := FrameOf(item);
    if f.Some? then [f.value] else []
  }

  lemma {:induction false} SkippingAppend(a: seq<Item>, b: seq<Item>)
    ensures Skipping(a + b) == Skipping(a) + Skipping(b)
  {
    if |a| == 0 {
      assert a + b == b;
    } else {
      assert (a + b)[1..] == a[1..] + b;
      SkippingAppend(a[1..], b);
    }
  }

  lemma SkippingStep(items: seq<Item>, i: nat)
    requires i < |items|
    ensures Skipping(items[..i + 1]) == Skipping(items[..i]) + Framed([items[i]])
  {
    hide FrameOf;
    assert items[..i + 1] == items[..i] + [items[i]];
    SkippingAppend(items[..i], [items[i]]);
    assert Skipping([items[i]]) == One(items[i]) + Skipping([]);
    assert Framed([items[i]]) == One(items[i]);
  }

  lemma StreamNone(items: seq<Item>)
    ensures PREFIX + Stream(Skipping(items[..0])) == PREFIX
  {
  }

  // ---------------------------------------------------------------- Message.Hash

  /** A message as it is hashed. None is a nil slice; an empty party name is not written. */
  datatype Wire = Wire(ssid: Option<Bytes>, from: Bytes, to: Bytes, protocol: Bytes, number: nat,
                       data: Option<Bytes>, broadcast: bool, verification: Option<Bytes>)

  const SSID: Bytes := [83, 83, 73, 68]
  const ID_DOMAIN: Bytes := [73, 68]
  const PROTOCOL: Bytes := [80, 114, 111, 116, 111, 99, 111, 108]
  const ROUND_NUMBER: Bytes := [82, 111, 117, 110, 100, 32, 78, 117, 109, 98, 101, 114]
  const CONTENT: Bytes := [67, 111, 110, 116, 101, 110, 116]
  const BROADCAST: Bytes := [66, 114, 111, 97, 100, 99, 97, 115, 116]
  const VERIFICATION: Bytes := BROADCAST + [86, 101, 114, 105, 102, 105, 99, 97, 116, 105, 111, 110]

  function IdItem(id: Bytes): (r: Item) {
    Writer(ID_DOMAIN, if |id| == 0 then None else Some(id))
  }

  /** The arguments of New in Message.Hash. */
  function Items(m: Wire): (r: seq<Item>) {
    [Writer(SSID, m.ssid), IdItem(m.from), IdItem(m.to), Writer(PROTOCOL, Some(m.protocol)),
     Writer(ROUND_NUMBER, Some(Size(m.number))), Writer(CONTENT, m.data),
     Writer(BROADCAST, Some([if m.broadcast then 1 else 0])), Writer(VERIFICATION, m.verification)]
  }

  /** The bytes that Message.Hash feeds to the hash function. */
  ghost function Preimage(m: Wire): Bytes {
    PREFIX + Stream(Skipping(Items(m)))
  }

  function Maybe(domain: Bytes, data: Option<Bytes>): (r: seq<Frame>) {
    if data.Some? then [Frame(domain, data.value)] else []
  }

  /** The names of sender and recipient that are not empty. */
  function Names(m: Wire): (r: seq<Frame>) {
    Maybe(ID_DOMAIN, IdItem(m.from).written) + Maybe(ID_DOMAIN, IdItem(m.to).written)
  }

  function AfterContent(m: Wire): (r: seq<Frame>) {
    [Frame(BROADCAST, [if m.broadcast then 1 else 0])] + Maybe(VERIFICATION, m.verification)
  }

  function AfterNames(m: Wire): (r: seq<Frame>) {
    [Frame(PROTOCOL, m.protocol), Frame(ROUND_NUMBER, Size(m.number))] + (Maybe(CONTENT, m.data) + AfterContent(m))
  }

  /** What is left of the items of a message when those that cannot be written are skipped. */
  function Frames(m: Wire): (r: seq<Frame>) {
    Maybe(SSID, m.ssid) + (Names(m) + AfterNames(m))
  }

  lemma SkippingCons(item: Item, rest: seq<Item>)
    ensures Skipping([item] + rest) == One(item) + Skipping(rest)
  {
    assert ([item] + rest)[1..] == rest;
  }

  lemma ContentFramed(m: Wire)
    ensures Skipping([Writer(CONTENT, m.data), Writer(BROADCAST, Some([if m.broadcast then 1 else 0])),
                      Writer(VERIFICATION, m.verification)]) == Maybe(CONTENT, m.data) + AfterContent(m)
  {
    var v := [Writer(VERIFICATION, m.verification)];
    var b := [Writer(BROADCAST, Some([if m.broadcast then 1 else 0]))] + v;
    SkippingCons(Writer(VERIFICATION, m.verification), []);
    assert v == [Writer(VERIFICATION, m.verification)] + [];
    SkippingCons(Writer(BROADCAST, Some([if m.broadcast then 1 else 0])), v);
    SkippingCons(Writer(CONTENT, m.data), b);
  }

  lemma NamesFramed(m: Wire)
    ensures Skipping(Items(m)[3..]) == AfterNames(m)
  {
    hide Size, Skipping;
    ContentFramed(m);
    var c := Items(m)[5..];
    assert c == [Writer(CONTENT, m.data), Writer(BROADCAST, Some([if m.broadcast then 1 else 0])),
                 Writer(VERIFICATION, m.verification)];
    var n := [Writer(ROUND_NUMBER, Some(Size(m.number)))] + c;
    SkippingCons(Writer(ROUND_NUMBER, Some(Size(m.number))), c);
    SkippingCons(Writer(PROTOCOL, Some(m.protocol)), n);
    assert Items(m)[3..] == [Writer(PROTOCOL, Some(m.protocol))] + n;
  }

  /** The items of a message that can be written are its frames. */
  lemma ItemsFramed(m: Wire)
    ensures Skipping(Items(m)) == Frames(m)
  {
    hide Size, Skipping, AfterNames;
    NamesFramed(m);
    var rest := Items(m)[3..];
    SkippingCons(IdItem(m.to), rest);
    SkippingCons(IdItem(m.from), [IdItem(m.to)] + rest);
    SkippingCons(Writer(SSID, m.ssid), [IdItem(m.from)] + ([IdItem(m.to)] + rest));
    assert Items(m) == [Writer(SSID, m.ssid)] + ([IdItem(m.from)] + ([IdItem(m.to)] + rest));
  }

  ghost predicate SmallWire(m: Wire) {
    && |m.from| < TWO_64 && |m.to| < TWO_64 && |m.protocol| < TWO_64 && m.number < TWO_64
    && (m.ssid.Some? ==> |m.ssid.value| < TWO_64)
    && (m.data.Some? ==> |m.data.value| < TWO_64)
    && (m.verification.Some? ==> |m.verification.value| < TWO_64)
  }

  lemma SmallFrames(m: Wire)
    requires SmallWire(m)
    ensures forall i :: 0 <= i < |Frames(m)| ==> Small(Frames(m)[i])
  {
    hide Size;
  }

  // --------------------------------------------------------------- determination

  /** The list does not begin with a frame of the domain. */
  predicate Avoids(fs: seq<Frame>, d: Bytes) {
    |fs| > 0 ==> fs[0].domain != d
  }

  /** An optional frame can be told from what follows when that has another domain. */
  lemma MaybeDetermined(d: Bytes, x: Option<Bytes>, y: Option<Bytes>, r: seq<Frame>, t: seq<Frame>)
    requires Maybe(d, x) + r == Maybe(d, y) + t && Avoids(r, d) && Avoids(t, d)
    ensures x == y && r == t
  {
    var a, b := Maybe(d, x) + r, Maybe(d, y) + t;
    assert a[|Maybe(d, x)|..] == r && b[|Maybe(d, y)|..] == t;
    assert x.Some? ==> a[0] == Frame(d, x.value);
    assert y.Some? ==> b[0] == Frame(d, y.value);
    assert x.None? ==> a == r;
    assert y.None? ==> b == t;
  }

  lemma ConsDetermined(f: Frame, g: Frame, r: seq<Frame>, t: seq<Frame>)
    requires [f] + r == [g] + t
    ensures f == g && r == t
  {
    assert ([f] + r)[0] == f && ([g] + t)[0] == g && ([f] + r)[1..] == r && ([g] + t)[1..] == t;
  }

  lemma AfterDetermined(a: Wire, b: Wire)
    requires AfterNames(a) == AfterNames(b) && a.number < TWO_64 && b.number < TWO_64
    ensures a.protocol == b.protocol && a.number == b.number && a.data == b.data
    ensures a.broadcast == b.broadcast && a.verification == b.verification
  {
    hide Size;
    var ra, rb := Maybe(CONTENT, a.data) + AfterContent(a), Maybe(CONTENT, b.data) + AfterContent(b);
    var na, nb := [Frame(ROUND_NUMBER, Size(a.number))] + ra, [Frame(ROUND_NUMBER, Size(b.number))] + rb;
    assert AfterNames(a) == [Frame(PROTOCOL, a.protocol)] + na && AfterNames(b) == [Frame(PROTOCOL, b.protocol)] + nb;
    ConsDetermined(Frame(PROTOCOL, a.protocol), Frame(PROTOCOL, b.protocol), na, nb);
    ConsDetermined(Frame(ROUND_NUMBER, Size(a.number)), Frame(ROUND_NUMBER, Size(b.number)), ra, rb);
    SizeInjective(a.number, b.number);
    MaybeDetermined(CONTENT, a.data, b.data, AfterContent(a), AfterContent(b));
    ConsDetermined(Frame(BROADCAST, [if a.broadcast then 1 else 0]), Frame(BROADCAST, [if b.broadcast then 1 else 0]),
                   Maybe(VERIFICATION, a.verification), Maybe(VERIFICATION, b.verification));
    assert [if a.broadcast then 1 else 0][0] == [if b.broadcast then 1 else 0][0];
    assert Maybe(VERIFICATION, a.verification) + [] == Maybe(VERIFICATION, b.verification) + [];
    MaybeDetermined(VERIFICATION, a.verification, b.verification, [], []);
  }

  /** Names are followed by a protocol frame, so the list of names is determined. */
  lemma NamesDetermined(a: Wire, b: Wire)
    requires Names(a) + AfterNames(a) == Names(b) + AfterNames(b)
    ensures Names(a) == Names(b) && AfterNames(a) == AfterNames(b)
  {
    hide Size;
    var x, y := Names(a) + AfterNames(a), Names(b) + AfterNames(b);
    var i, j := |Names(a)|, |Names(b)|;
    assert x[i].domain == PROTOCOL && y[j].domain == PROTOCOL;
    assert forall k :: 0 <= k < i ==> x[k].domain == ID_DOMAIN;
    assert forall k :: 0 <= k < j ==> y[k].domain == ID_DOMAIN;
    assert i == j;
    assert x[..i] == Names(a) && y[..j] == Names(b) && x[i..] == AfterNames(a) && y[j..] == AfterNames(b);
  }

  /** Everything but which of the two names was empty is determined by the preimage, and nothing more. */
  lemma PreimageDetermines(a: Wire, b: Wire)
    requires SmallWire(a) && SmallWire(b)
    ensures Preimage(a) == Preimage(b) <==>
            && a.ssid == b.ssid && Names(a) == Names(b) && a.protocol == b.protocol && a.number == b.number
            && a.data == b.data && a.broadcast == b.broadcast && a.verification == b.verification
  {
    hide Size, Stream, Skipping, Small;
    ItemsFramed(a);
    ItemsFramed(b);
    if Preimage(a) == Preimage(b) {
      assert Preimage(a)[|PREFIX|..] == Stream(Frames(a)) && Preimage(b)[|PREFIX|..] == Stream(Frames(b));
      SmallFrames(a);
      SmallFrames(b);
      UniquelyDecodable(Frames(a), Frames(b));
      FramesDetermine(a, b);
    }
  }

  lemma FramesDetermine(a: Wire, b: Wire)
    requires Frames(a) == Frames(b) && a.number < TWO_64 && b.number < TWO_64
    ensures a.ssid == b.ssid && Names(a) == Names(b) && a.protocol == b.protocol && a.number == b.number
    ensures a.data == b.data && a.broadcast == b.broadcast && a.verification == b.verification
  {
    hide Size;
    MaybeDetermined(SSID, a.ssid, b.ssid, Names(a) + AfterNames(a), Names(b) + AfterNames(b));
    NamesDetermined(a, b);
    AfterDetermined(a, b);
  }

  /** With a sender that is not empty, the preimage determines the message. */
  lemma HashPreimageInjective(a: Wire, b: Wire)
    requires SmallWire(a) && SmallWire(b) && |a.from| > 0 && |b.from| > 0 && Preimage(a) == Preimage(b)
    ensures a == b
  {
    hide Preimage;
    PreimageDetermines(a, b);
    assert Names(a)[0].data == a.from && Names(b)[0].data == b.from;
    assert |a.to| > 0 ==> Names(a)[1].data == a.to;
    assert |b.to| > 0 ==> Names(b)[1].data == b.to;
  }

  /** An empty sender breaks it: the recipient is then indistinguishable from a sender. */
  lemma EmptySenderCollides(m: Wire)
    requires |m.to| == 0 && |m.from| > 0 && SmallWire(m)
    ensures Preimage(m) == Preimage(m.(from := [], to := m.from)) && m != m.(from := [], to := m.from)
  {
    hide Preimage;
    PreimageDetermines(m, m.(from := [], to := m.from));
  }
}
