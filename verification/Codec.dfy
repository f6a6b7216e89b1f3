/** The wire format of the servers and what a byte stream in that format means.

    Two layouts share one parser.  `Tlv` is the layout of the logic servers: a 2-byte id, a 2-byte
    body length, then the body.  `Lv` is the layout of AsyncEchoServer2 and JsonServer: a 2-byte
    length, then the body.  Both 16-bit fields are signed and travel in network byte order.

    `Parse` says what a stream means and `Encode` how a frame is written; everything that the
    stateful classes do is proved against these two functions. */
module Codec {

  const MAX_LENGTH: nat := 2048

  type Byte = b: int | 0 <= b < 256
  type Short = v: int | -0x8000 <= v < 0x8000

  /** A message.  `Lv` frames carry no id; by convention theirs is 0. */
  datatype Packet = Packet(id: Short, body: seq<Byte>)

  /** A message whose body length fits the signed 16-bit length field. */
  type Frame = f: Packet | |f.body| < 0x8000 witness Packet(0, [])

  datatype Format = Tlv | Lv {
    function HeadLen(): (n: nat)
      ensures 2 <= n <= 4
    {
      if Tlv? then 4 else 2
    }
  }

  // ---------------------------------------------------------------- 16-bit fields

  /** The unsigned value of two bytes in network order. */
  function BigEndian(s: seq<Byte>, at: nat): nat
    requires at + 2 <= |s|
  {
    s[at] as int * 256 + s[at + 1] as int
  }

  /** The two bytes of a signed 16-bit value, most significant first. */
  function ToNetwork(v: Short): (bs: seq<Byte>)
    ensures |bs| == 2
  {
    var u := if v < 0 then v + 0x10000 else v;
    [u / 256, u % 256]
  }

  function FromNetwork(bs: seq<Byte>): Short
    requires |bs| == 2
  {
    var u := bs[0] as int * 256 + bs[1] as int;
    if u < 0x8000 then u else u - 0x10000
  }

  lemma NetworkOrderIsBigEndian(v: Short)
    ensures BigEndian(ToNetwork(v), 0) == v % 0x10000
  {}

  lemma NetworkOrderIsBijective(v: Short, bs: seq<Byte>)
    requires |bs| == 2
    ensures FromNetwork(ToNetwork(v)) == v
    ensures ToNetwork(FromNetwork(bs)) == bs
  {
    var u := bs[0] as int * 256 + bs[1] as int;
    assert u / 256 == bs[0] && u % 256 == bs[1];
  }

  // ---------------------------------------------------------------- encoding

  function Head(fmt: Format, id: Short, len: Short): (h: seq<Byte>)
    ensures |h| == fmt.HeadLen()
  {
    match fmt
    case Tlv => ToNetwork(id) + ToNetwork(len)
    case Lv => ToNetwork(len)
  }

  function Encode(fmt: Format, f: Frame): seq<Byte> {
    Head(fmt, f.id, |f.body|) + f.body
  }

  /** Byte for byte: the id, if there is one, then the body length, both in network order and two's
      complement, and then the body. */
  lemma WireLayout(f: Frame)
    ensures var tlv, lv := Encode(Tlv, f), Encode(Lv, f);
            && |tlv| == 4 + |f.body| && |lv| == 2 + |f.body|
            && BigEndian(tlv, 0) == f.id % 0x10000
            && BigEndian(tlv, 2) == BigEndian(lv, 0) == |f.body|
            && tlv[4..] == lv[2..] == f.body
  {
    var id, len := ToNetwork(f.id), ToNetwork(|f.body|);
    NetworkOrderIsBigEndian(f.id);
    NetworkOrderIsBigEndian(|f.body|);
    assert Encode(Tlv, f)[0] == id[0] && Encode(Tlv, f)[1] == id[1];
    assert Encode(Tlv, f)[2] == len[0] && Encode(Tlv, f)[3] == len[1];
    assert Encode(Lv, f)[0] == len[0] && Encode(Lv, f)[1] == len[1];
    assert Encode(Tlv, f)[4..] == f.body && Encode(Lv, f)[2..] == f.body;
  }

  function EncodeAll(fmt: Format, fs: seq<Frame>): seq<Byte> {
    if fs == [] then [] else Encode(fmt, fs[0]) + EncodeAll(fmt, fs[1..])
  }

  lemma {:induction false} EncodeAllAppend(fmt: Format, a: seq<Frame>, b: seq<Frame>)
    ensures EncodeAll(fmt, a + b) == EncodeAll(fmt, a) + EncodeAll(fmt, b)
  {
    if a == [] {
      assert a + b == b;
    } else {
      EncodeAllAppend(fmt, a[1..], b);
      assert (a + b)[1..] == a[1..] + b;
      Associative(Encode(fmt, a[0]), EncodeAll(fmt, a[1..]), EncodeAll(fmt, b));
    }
  }

  lemma Associative<T>(a: seq<T>, b: seq<T>, c: seq<T>)
    ensures (a + b) + c == a + (b + c)
  {}

  /** A buffer of which `m` bytes have been written behind `before`, and then `k` more. */
  lemma MoreOfABuffer<T>(before: seq<T>, buf: seq<T>, m: nat, k: nat)
    requires m + k <= |buf|
    ensures before + buf[..m] + buf[m..m + k] == before + buf[..m + k]
    ensures before <= before + buf[..m] <= before + buf[..m + k] <= before + buf
  {
    assert buf[..m] + buf[m..m + k] == buf[..m + k];
    Associative(before, buf[..m], buf[m..m + k]);
    assert before + buf == before + buf[..m + k] + buf[m + k..];
  }

  lemma EncodeAllOne(fmt: Format, f: Frame)
    ensures EncodeAll(fmt, [f]) == Encode(fmt, f)
  {
    assert [f][1..] == [];
  }

  lemma EncodeAllFirst(fmt: Format, f: Frame, fs: seq<Frame>)
    ensures EncodeAll(fmt, [f] + fs) == Encode(fmt, f) + EncodeAll(fmt, fs)
  {
    assert ([f] + fs)[1..] == fs;
  }

  lemma InThree<T>(s: seq<T>, i: nat, j: nat)
    requires i <= j <= |s|
    ensures s == s[..i] + s[i..j] + s[j..]
  {}

  // ---------------------------------------------------------------- parsing

  /** What a complete header asks for.  `Negative` is a decoded length below zero: the servers
      compare only with the upper bound and then size a buffer with it, which C++ leaves undefined. */
  datatype HeadVerdict = Refuse | Negative | Accept(id: Short, len: nat)

  function CheckHead(fmt: Format, h: seq<Byte>): (v: HeadVerdict)
    requires |h| == fmt.HeadLen()
    ensures v.Accept? ==> v.len <= MAX_LENGTH
  {
    var id: Short := if fmt.Tlv? then FromNetwork(h[..2]) else 0;
    var len := if fmt.Tlv? then FromNetwork(h[2..]) else FromNetwork(h);
    if id > MAX_LENGTH then Refuse
    else if len > MAX_LENGTH then Refuse
    else if len < 0 then Negative
    else Accept(id, len)
  }

  datatype Stop = NeedMore | Refused | NegativeLength

  /** The frames a stream holds, the bytes after the last of them, and why parsing ended there. */
  datatype Parsed = Parsed(frames: seq<Frame>, rest: seq<Byte>, stop: Stop) {
    function After(earlier: seq<Frame>): Parsed {
      Parsed(earlier + frames, rest, stop)
    }
  }

  function Parse(fmt: Format, s: seq<Byte>): Parsed
    decreases |s|
  {
    var n := fmt.HeadLen();
    if |s| < n then Parsed([], s, NeedMore)
    else
      match CheckHead(fmt, s[..n])
      case Refuse => Parsed([], s, Refused)
      case Negative => Parsed([], s, NegativeLength)
      case Accept(id, len) =>
        if |s| < n + len then Parsed([], s, NeedMore)
        else Parse(fmt, s[n + len..]).After([Packet(id, s[n..n + len])])
  }

  /** A frame the receiving side takes: id at most MAX_LENGTH (negative ids included) and body
      length at most MAX_LENGTH. */
  predicate Legal(fmt: Format, f: Frame) {
    && |f.body| <= MAX_LENGTH
    && (if fmt.Tlv? then f.id <= MAX_LENGTH else f.id == 0)
  }

  /** An `Lv` frame has no id to lose. */
  predicate Shaped(fmt: Format, f: Frame) {
    fmt.Lv? ==> f.id == 0
  }

  /** The limits byte for byte: length and id 2048 are taken, 2049 refused, and 0xFFFF is minus one,
      a legal id and no legal length. */
  lemma Limits()
    ensures CheckHead(Lv, [8, 0]) == Accept(0, 2048) && CheckHead(Lv, [8, 1]) == Refuse
    ensures CheckHead(Tlv, [8, 0, 8, 0]) == Accept(2048, 2048)
    ensures CheckHead(Tlv, [8, 1, 0, 0]) == CheckHead(Tlv, [0, 0, 8, 1]) == Refuse
    ensures CheckHead(Tlv, [255, 255, 0, 0]) == Accept(-1, 0) && CheckHead(Lv, [255, 255]) == Negative
  {
    assert [8, 0, 8, 0][..2] == [8, 0] && [8, 0, 8, 0][2..] == [8, 0];
    assert [8, 1, 0, 0][..2] == [8, 1];
    assert [0, 0, 8, 1][..2] == [0, 0] && [0, 0, 8, 1][2..] == [8, 1];
    assert [255, 255, 0, 0][..2] == [255, 255] && [255, 255, 0, 0][2..] == [0, 0];
  }

  lemma HeadFieldsAreReadBack(fmt: Format, id: Short, len: Short)
    requires fmt.Lv? ==> id == 0
    ensures CheckHead(fmt, Head(fmt, id, len)) ==
            if id > MAX_LENGTH || len > MAX_LENGTH then Refuse
            else if len < 0 then Negative else Accept(id, len)
  {
    NetworkOrderIsBijective(id, ToNetwork(id));
    NetworkOrderIsBijective(len, ToNetwork(len));
    if fmt.Tlv? {
      var h := Head(fmt, id, len);
      assert h[..2] == ToNetwork(id);
      assert h[2..] == ToNetwork(len);
    }
  }

  lemma AcceptedHeadIsItsEncoding(fmt: Format, h: seq<Byte>)
    requires |h| == fmt.HeadLen() && CheckHead(fmt, h).Accept?
    ensures var v := CheckHead(fmt, h); Head(fmt, v.id, v.len) == h
    ensures fmt.Lv? ==> CheckHead(fmt, h).id == 0
  {
    if fmt.Tlv? {
      NetworkOrderIsBijective(0, h[..2]);
      NetworkOrderIsBijective(0, h[2..]);
      assert h == h[..2] + h[2..];
    } else {
      NetworkOrderIsBijective(0, h);
    }
  }

  // ---------------------------------------------------------------- encoding then parsing

  /** One encoded frame in front of any bytes: a legal frame is recognised and parsing goes on
      behind it; any other frame is refused at its header. */
  lemma ParseEncoded(fmt: Format, f: Frame, t: seq<Byte>)
    requires Shaped(fmt, f)
    ensures Legal(fmt, f) ==> Parse(fmt, Encode(fmt, f) + t) == Parse(fmt, t).After([f])
    ensures !Legal(fmt, f) ==>
              Parse(fmt, Encode(fmt, f) + t) == Parsed([], Encode(fmt, f) + t, Refused)
  {
    var n, len := fmt.HeadLen(), |f.body|;
    var s := Encode(fmt, f) + t;
    HeadFieldsAreReadBack(fmt, f.id, len);
    assert s[..n] == Head(fmt, f.id, len);
    assert s[n..n + len] == f.body;
    assert s[n + len..] == t;
  }

  /** The legal frames in front of the first one that is not. */
  function LegalPrefix(fmt: Format, fs: seq<Frame>): seq<Frame> {
    if fs == [] || !Legal(fmt, fs[0]) then [] else [fs[0]] + LegalPrefix(fmt, fs[1..])
  }

  /** Round trip, in full generality: whatever list of frames is written, exactly its legal prefix
      is read back; the stream is read to its end if and only if every frame is legal, and is
      refused otherwise. */
  lemma {:induction false} RoundTrip(fmt: Format, fs: seq<Frame>)
    requires forall f <- fs :: Shaped(fmt, f)
    ensures var p := Parse(fmt, EncodeAll(fmt, fs));
            && p.frames == LegalPrefix(fmt, fs)
            && ((p.frames == fs && p.rest == [] && p.stop == NeedMore) <==> (forall f <- fs :: Legal(fmt, f)))
            && (p.stop == Refused <==> exists f <- fs :: !Legal(fmt, f))
  {
    if fs != [] {
      var tail := EncodeAll(fmt, fs[1..]);
      ParseEncoded(fmt, fs[0], tail);
      RoundTrip(fmt, fs[1..]);
      assert fs == [fs[0]] + fs[1..];
      assert forall f :: f in fs <==> f == fs[0] || f in fs[1..];
      if !Legal(fmt, fs[0]) {
        assert Encode(fmt, fs[0]) + tail != [];
      }
    }
  }

  // ---------------------------------------------------------------- parsing then encoding

  /** Parsing loses nothing: the frames, written again, followed by the rest, are the stream; and
      every frame is one the encoder would have been allowed to write. */
  lemma {:induction false} ParseThenEncode(fmt: Format, s: seq<Byte>)
    ensures EncodeAll(fmt, Parse(fmt, s).frames) + Parse(fmt, s).rest == s
    ensures forall f <- Parse(fmt, s).frames :: Legal(fmt, f)
    decreases |s|
  {
    ParseTail(fmt, s);
    if Parse(fmt, s).frames != [] {
      var n := fmt.HeadLen();
      var h := s[..n];
      var v := CheckHead(fmt, h);
      var body, tail := s[n..n + v.len], s[n + v.len..];
      ParseStep(fmt, s);
      hide Parse, CheckHead, Encode, Legal, EncodeAll;
      InThree(s, n, n + v.len);
      FrameFound(fmt, h, body);
      ParseThenEncode(fmt, tail);
      EncodeAllFirst(fmt, Packet(v.id, body), Parse(fmt, tail).frames);
      Associative(h + body, EncodeAll(fmt, Parse(fmt, tail).frames), Parse(fmt, tail).rest);
    }
  }

  /** The frames of a stream are the only way to read it: any split of the stream into encoded
      legal frames and a tail holding no frame is the one `Parse` finds. */
  lemma {:induction false} ParseIsTheOnlyReading(fmt: Format, fs: seq<Frame>, tail: seq<Byte>)
    requires forall f <- fs :: Legal(fmt, f)
    requires Parse(fmt, tail).frames == []
    ensures Parse(fmt, EncodeAll(fmt, fs) + tail) == Parse(fmt, tail).After(fs)
  {
    if fs == [] {
      assert EncodeAll(fmt, fs) + tail == tail;
    } else {
      var f, others := fs[0], fs[1..];
      assert Legal(fmt, f) && Shaped(fmt, f) && fs == [f] + others;
      hide Parse, Encode, EncodeAll, Legal, CheckHead;
      ParseIsTheOnlyReading(fmt, others, tail);
      EncodeAllFirst(fmt, f, others);
      ParseEncoded(fmt, f, EncodeAll(fmt, others) + tail);
      Associative(Encode(fmt, f), EncodeAll(fmt, others), tail);
      AfterTwice(Parse(fmt, tail), others, [f]);
    }
  }

  // ---------------------------------------------------------------- chunks

  /** One step of `Parse`: a whole accepted frame in front. */
  lemma ParseStep(fmt: Format, s: seq<Byte>)
    requires |s| >= fmt.HeadLen() && CheckHead(fmt, s[..fmt.HeadLen()]).Accept?
    requires |s| >= fmt.HeadLen() + CheckHead(fmt, s[..fmt.HeadLen()]).len
    ensures var n, v := fmt.HeadLen(), CheckHead(fmt, s[..fmt.HeadLen()]);
            Parse(fmt, s) == Parse(fmt, s[n + v.len..]).After([Packet(v.id, s[n..n + v.len])])
  {}

  lemma InFront<T>(a: seq<T>, b: seq<T>, i: nat, j: nat)
    requires i <= j <= |a|
    ensures (a + b)[..i] == a[..i] && (a + b)[i..j] == a[i..j] && (a + b)[j..] == a[j..] + b
  {}

  /** The same with more bytes behind it. */
  lemma ParseStepInFront(fmt: Format, a: seq<Byte>, b: seq<Byte>)
    requires |a| >= fmt.HeadLen() && CheckHead(fmt, a[..fmt.HeadLen()]).Accept?
    requires |a| >= fmt.HeadLen() + CheckHead(fmt, a[..fmt.HeadLen()]).len
    ensures var n, v := fmt.HeadLen(), CheckHead(fmt, a[..fmt.HeadLen()]);
            Parse(fmt, a + b) == Parse(fmt, a[n + v.len..] + b).After([Packet(v.id, a[n..n + v.len])])
  {
    hide Parse, CheckHead;
    var n := fmt.HeadLen();
    InFront(a, b, n, n + CheckHead(fmt, a[..n]).len);
    ParseStep(fmt, a + b);
  }

  /** Parsing resumes: an unfinished stream is continued from its rest, and a stream that was
      refused stays refused at the same header whatever follows. */
  lemma {:induction false} ParseResumes(fmt: Format, a: seq<Byte>, b: seq<Byte>)
    ensures var p := Parse(fmt, a);
            match p.stop
            case NeedMore => Parse(fmt, a + b) == Parse(fmt, p.rest + b).After(p.frames)
            case _ => Parse(fmt, a + b) == Parsed(p.frames, p.rest + b, p.stop)
    decreases |a|
  {
    var n := fmt.HeadLen();
    if |a| >= n && CheckHead(fmt, a[..n]).Accept? && |a| >= n + CheckHead(fmt, a[..n]).len {
      var v := CheckHead(fmt, a[..n]);
      var tail, f: Frame := a[n + v.len..], Packet(v.id, a[n..n + v.len]);
      ParseStep(fmt, a);
      ParseStepInFront(fmt, a, b);
      hide Parse, CheckHead;
      ParseResumes(fmt, tail, b);
      AfterTwice(Parse(fmt, Parse(fmt, tail).rest + b), Parse(fmt, tail).frames, [f]);
    } else {
      assert |a| >= n ==> (a + b)[..n] == a[..n];
      ParseTail(fmt, a);
      ParseTail(fmt, a + b);
      hide Parse, CheckHead;
    }
  }

  lemma AfterTwice(p: Parsed, later: seq<Frame>, earlier: seq<Frame>)
    ensures p.After(later).After(earlier) == p.After(earlier + later)
  {
    assert earlier + (later + p.frames) == (earlier + later) + p.frames;
  }

  /** The rest holds no further frame. */
  lemma {:induction false} RestHoldsNoFrame(fmt: Format, s: seq<Byte>)
    ensures var p := Parse(fmt, s); Parse(fmt, p.rest) == Parsed([], p.rest, p.stop)
    decreases |s|
  {
    var n := fmt.HeadLen();
    if |s| >= n && CheckHead(fmt, s[..n]).Accept? && |s| >= n + CheckHead(fmt, s[..n]).len {
      RestHoldsNoFrame(fmt, s[n + CheckHead(fmt, s[..n]).len..]);
    }
  }

  /** A stream that begins like an unfinished one and, behind it, with frames and a tail. */
  lemma ParseContinues(fmt: Format, a: seq<Byte>, b: seq<Byte>, fs: seq<Frame>, tail: seq<Byte>)
    requires Parse(fmt, a).stop == NeedMore
    requires Parse(fmt, a).rest + b == EncodeAll(fmt, fs) + tail
    requires forall f <- fs :: Legal(fmt, f)
    requires Parse(fmt, tail).frames == []
    ensures Parse(fmt, a + b) == Parse(fmt, tail).After(Parse(fmt, a).frames + fs)
  {
    ParseResumes(fmt, a, b);
    ParseIsTheOnlyReading(fmt, fs, tail);
    AfterTwice(Parse(fmt, tail), fs, Parse(fmt, a).frames);
  }

  /** The header of `s` is not complete, or the body it announces is not. */
  predicate Unfinished(fmt: Format, s: seq<Byte>) {
    var n := fmt.HeadLen();
    |s| >= n ==> CheckHead(fmt, s[..n]).Accept? && |s| < n + CheckHead(fmt, s[..n]).len
  }

  predicate StartsWith(fmt: Format, s: seq<Byte>, v: HeadVerdict) {
    |s| >= fmt.HeadLen() && CheckHead(fmt, s[..fmt.HeadLen()]) == v
  }

  /** The three ways a stream can hold no frame. */
  lemma ParseTail(fmt: Format, s: seq<Byte>)
    ensures Parse(fmt, s) == Parsed([], s, NeedMore) <==> Unfinished(fmt, s)
    ensures Parse(fmt, s) == Parsed([], s, Refused) <==> StartsWith(fmt, s, Refuse)
    ensures Parse(fmt, s) == Parsed([], s, NegativeLength) <==> StartsWith(fmt, s, Negative)
  {}

  /** An accepted header and its body are the encoding of a legal frame. */
  lemma FrameFound(fmt: Format, h: seq<Byte>, body: seq<Byte>)
    requires |h| == fmt.HeadLen() && CheckHead(fmt, h).Accept? && |body| == CheckHead(fmt, h).len
    ensures var f: Frame := Packet(CheckHead(fmt, h).id, body); Legal(fmt, f) && Encode(fmt, f) == h + body
  {
    AcceptedHeadIsItsEncoding(fmt, h);
    HeadFieldsAreReadBack(fmt, CheckHead(fmt, h).id, |body|);
  }

  lemma OneMoreFrame(fmt: Format, whole: seq<Byte>, fs: seq<Frame>, f: Frame, tail: seq<Byte>)
    requires whole == EncodeAll(fmt, fs) + (Encode(fmt, f) + tail)
    requires Legal(fmt, f) && forall f <- fs :: Legal(fmt, f)
    ensures whole == EncodeAll(fmt, fs + [f]) + tail
    ensures forall g <- fs + [f] :: Legal(fmt, g)
  {
    EncodeAllAppend(fmt, fs, [f]);
    EncodeAllOne(fmt, f);
    Associative(EncodeAll(fmt, fs), Encode(fmt, f), tail);
  }

  function Concat(chunks: seq<seq<Byte>>): seq<Byte> {
    if chunks == [] then [] else Concat(chunks[..|chunks| - 1]) + chunks[|chunks| - 1]
  }

  /** What a reader that is fed chunk by chunk computes: it keeps only the rest of what it has
      seen and reads nothing more once it has stopped. */
  function FeedAll(fmt: Format, chunks: seq<seq<Byte>>): Parsed {
    if chunks == [] then Parsed([], [], NeedMore)
    else
      var p := FeedAll(fmt, chunks[..|chunks| - 1]);
      if p.stop != NeedMore then p
      else Parse(fmt, p.rest + chunks[|chunks| - 1]).After(p.frames)
  }

  /** Chunking independence: however a stream is cut, feeding the pieces yields the frames and the
      reason to stop of the whole stream, and, while it is unfinished, its unparsed rest. */
  lemma {:induction false} ChunkingIndependence(fmt: Format, chunks: seq<seq<Byte>>)
    ensures var p, q := FeedAll(fmt, chunks), Parse(fmt, Concat(chunks));
            && p.frames == q.frames
            && p.stop == q.stop
            && (q.stop == NeedMore ==> p.rest == q.rest)
  {
    if chunks != [] {
      var m := |chunks| - 1;
      ChunkingIndependence(fmt, chunks[..m]);
      ParseResumes(fmt, Concat(chunks[..m]), chunks[m]);
    }
  }

  /** Frames written by the encoder, cut in any way and fed piece by piece, are read back one for
      one with nothing left over, if and only if they are all legal. */
  lemma RoundTripInAnyChunking(fmt: Format, fs: seq<Frame>, chunks: seq<seq<Byte>>)
    requires forall f <- fs :: Shaped(fmt, f)
    requires Concat(chunks) == EncodeAll(fmt, fs)
    ensures FeedAll(fmt, chunks).frames == LegalPrefix(fmt, fs)
    ensures FeedAll(fmt, chunks) == Parsed(fs, [], NeedMore) <==> forall f <- fs :: Legal(fmt, f)
  {
    ChunkingIndependence(fmt, chunks);
    RoundTrip(fmt, fs);
  }
}
