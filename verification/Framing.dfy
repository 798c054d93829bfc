/** WebSocket frames of section 5.2 of RFC 6455: the smoke test's writer and its
    reader, which takes the stream in whatever pieces `recv` returns. */
module Framing {
  import opened Base

  type Bytes = seq<Byte>

  /** `struct.pack` of a k-byte unsigned integer in network order. */
  function BigEndian(n: nat, k: nat): (r: Bytes)
    ensures |r| == k
  {
    if k == 0 then [] else BigEndian(n / 256, k - 1) + [n % 256]
  }

  function FromBigEndian(s: Bytes): nat
  {
    if s == [] then 0 else FromBigEndian(s[..|s| - 1]) * 256 + s[|s| - 1]
  }

  lemma {:induction false} BigEndianInverts(n: nat, k: nat)
    requires n < Pow256(k)
    ensures FromBigEndian(BigEndian(n, k)) == n
  {
    if k > 0 {
      BigEndianInverts(n / 256, k - 1);
      assert BigEndian(n, k)[..k - 1] == BigEndian(n / 256, k - 1);
    }
  }

  lemma {:induction false} FromBigEndianBound(s: Bytes)
    ensures FromBigEndian(s) < Pow256(|s|)
  {
    if s != [] { FromBigEndianBound(s[..|s| - 1]); }
  }

  // ---- the writer ----

  const MAX_PAYLOAD: nat := 0x1_0000_0000_0000_0000

  function Header(opcode: nat, n: nat): Bytes
    requires n < MAX_PAYLOAD
  {
    [0x80 + opcode % 16]
    + if n < 126 then [n] else if n < 65_536 then [126] + BigEndian(n, 2) else [127] + BigEndian(n, 8)
  }

  function Encoded(opcode: nat, payload: Bytes): Bytes
    requires |payload| < MAX_PAYLOAD
  {
    Header(opcode, |payload|) + payload
  }

  class Sender {
    var sent: Bytes

    method WsSend(payload: Bytes, opcode: nat)
      requires |payload| < MAX_PAYLOAD
      modifies this
      ensures sent == old(sent) + Encoded(opcode, payload)
    {
      var header: Bytes := [];
      header := header + [0x80 + opcode % 16];
      var n := |payload|;
      if n < 126 {
        header := header + [n];
      } else if n < 65_536 {
        header := header + [126];
        header := header + BigEndian(n, 2);
      } else {
        header := header + [127];
        header := header + BigEndian(n, 8);
      }
      assert header == Header(opcode, n);
      sent := sent + (header + payload);
    }
  }

  /** The layout of section 5.2 of RFC 6455: final fragment, no reserved bits, no
      mask; the length in seven bits, or 126 and two octets, or 127 and eight,
      the most significant first. */
  lemma FrameLayout(opcode: nat, payload: Bytes)
    requires |payload| < MAX_PAYLOAD
    ensures var n, first := |payload|, 128 + opcode % 16;
      && (n <= 125 ==> Encoded(opcode, payload) == [first, n] + payload)
      && (126 <= n <= 65_535 ==> Encoded(opcode, payload) == [first, 126, n / 256, n % 256] + payload)
      && (n >= 65_536 ==>
        && Encoded(opcode, payload)[..10] == [first, 127] + BigEndian(n / 0x1_0000, 6) + [n / 256 % 256, n % 256]
        && Encoded(opcode, payload)[10..] == payload)
  {
    var n := |payload|;
    assert BigEndian(n, 2) == [n / 256 % 256, n % 256] by { assert BigEndian(n / 256, 1) == [n / 256 % 256]; }
    if n >= 65_536 {
      assert n / 256 / 256 == n / 0x1_0000;
      assert BigEndian(n / 256, 7) == BigEndian(n / 256 / 256, 6) + [n / 256 % 256];
      assert BigEndian(n, 8) == BigEndian(n / 256, 7) + [n % 256];
    }
  }

  // ---- masking ----

  /** Exclusive or of the low k bits. */
  function XorBits(a: nat, b: nat, k: nat): nat
  {
    if k == 0 then 0 else (a % 2 + b % 2) % 2 + 2 * XorBits(a / 2, b / 2, k - 1)
  }

  function Pow2(k: nat): nat { if k == 0 then 1 else 2 * Pow2(k - 1) }

  lemma {:induction false} XorBound(a: nat, b: nat, k: nat)
    ensures XorBits(a, b, k) < Pow2(k)
  {
    if k > 0 { XorBound(a / 2, b / 2, k - 1); }
  }

  lemma BitTwice(a: nat, b: nat)
    ensures ((a % 2 + b % 2) % 2 + b % 2) % 2 == a % 2
  {
  }

  lemma Halves(bit: nat, x: nat)
    requires bit < 2
    ensures (bit + 2 * x) / 2 == x && (bit + 2 * x) % 2 == bit
  {
  }

  lemma {:induction false} XorTwice(a: nat, b: nat, k: nat)
    requires a < Pow2(k)
    ensures XorBits(XorBits(a, b, k), b, k) == a
  {
    if k > 0 {
      var x := XorBits(a / 2, b / 2, k - 1);
      XorTwice(a / 2, b / 2, k - 1);
      BitTwice(a, b);
      Halves((a % 2 + b % 2) % 2, x);
      assert a == a % 2 + 2 * (a / 2);
    }
  }

  lemma Pow2Is256()
    ensures Pow2(8) == 256
  {
    assert Pow2(4) == 16;
  }

  function XorByte(a: Byte, b: Byte): Byte
  {
    Pow2Is256();
    XorBound(a, b, 8);
    XorBits(a, b, 8)
  }

  lemma {:induction false} XorBitsMean(a: nat, b: nat, k: nat)
    ensures XorBits(a, b, k) == XorBits(b, a, k) && XorBits(a, a, k) == 0
    ensures a < Pow2(k) ==> XorBits(a, 0, k) == a
  {
    if k > 0 {
      XorBitsMean(a / 2, b / 2, k - 1);
      assert a == a % 2 + 2 * (a / 2);
    }
  }

  /** Octets combine like exclusive or: symmetric, zero changes nothing, equal
      ones cancel. */
  lemma XorByteMeans(a: Byte, b: Byte)
    ensures XorByte(a, b) == XorByte(b, a) && XorByte(a, 0) == a && XorByte(a, a) == 0
  {
    Pow2Is256();
    XorBitsMean(a, b, 8);
  }

  /** Section 5.3 of RFC 6455: octet i is combined with mask octet i modulo 4. */
  function Masked(data: Bytes, mask: Bytes): Bytes
    requires |mask| == 4
  {
    seq(|data|, i requires 0 <= i < |data| => XorByte(data[i], mask[i % 4]))
  }

  lemma MaskingTwiceIsIdentity(data: Bytes, mask: Bytes)
    requires |mask| == 4
    ensures Masked(Masked(data, mask), mask) == data
  {
    Pow2Is256();
    forall i | 0 <= i < |data| ensures Masked(Masked(data, mask), mask)[i] == data[i] {
      XorTwice(data[i], mask[i % 4], 8);
    }
  }

  // ---- what a stream says, however it is cut into pieces ----

  datatype Frame = Frame(opcode: nat, payload: Bytes)

  function LengthField(len7: nat): nat { if len7 == 126 then 2 else if len7 == 127 then 8 else 0 }

  /** Everything before the payload: opcode, mask octets (or none), payload
      length, and where the payload starts. */
  datatype Prefix = Prefix(opcode: nat, mask: Bytes, length: nat, at: nat)

  function ReadPrefix(s: Bytes): Option<Prefix>
  {
    if |s| < 2 then None
    else
      var ext := LengthField(s[1] % 128);
      var maskLen := if s[1] >= 128 then 4 else 0;
      if |s| < 2 + ext + maskLen then None
      else Some(Prefix(s[0] % 16, s[2 + ext..2 + ext + maskLen],
        if ext == 0 then s[1] % 128 else FromBigEndian(s[2..2 + ext]), 2 + ext + maskLen))
  }

  function Unmasked(data: Bytes, mask: Bytes): Bytes { if |mask| == 4 then Masked(data, mask) else data }

  /** The first frame of a stream and what follows it. */
  function Parse(s: Bytes): Option<(Frame, Bytes)>
  {
    match ReadPrefix(s)
    case None => None
    case Some(p) =>
      if |s| < p.at + p.length then None
      else Some((Frame(p.opcode, Unmasked(s[p.at..p.at + p.length], p.mask)), s[p.at + p.length..]))
  }

  class Peer {
    var incoming: Bytes  // what recv has not returned yet
    var broken: bool     // recv raised OSError

    /** Any non-empty piece of at most n bytes, or nothing at end of stream. */
    method Recv(n: nat) returns (chunk: Option<Bytes>)
      requires n > 0
      modifies this
      ensures chunk.None? <==> broken
      ensures chunk.Some? ==> old(incoming) == chunk.value + incoming && |chunk.value| <= n
      ensures chunk.Some? ==> (chunk.value == [] <==> old(incoming) == [])
    {
      broken := *;
      if broken {
        return None;
      }
      if incoming == [] {
        return Some([]);
      }
      var k :| 1 <= k <= n && k <= |incoming|;
      chunk := Some(incoming[..k]);
      incoming := incoming[k..];
    }

    method RecvExact(n: nat) returns (r: Option<Bytes>)
      modifies this
      ensures r.Some? ==> n <= |old(incoming)| && r.value == old(incoming)[..n] && incoming == old(incoming)[n..]
      ensures r.None? ==> broken || |old(incoming)| < n
    {
      var buf: Bytes := [];
      while |buf| < n
        invariant |buf| <= n && old(incoming) == buf + incoming
        decreases n - |buf|
      {
        var chunk := Recv(n - |buf|);
        if chunk.None? || chunk.value == [] {
          return None;
        }
        buf := buf + chunk.value;
      }
      return Some(buf);
    }

    /** The extended length field, if the 7-bit length announces one. */
    method ReadLength(len7: nat) returns (length: Option<nat>)
      requires len7 < 128
      modifies this
      ensures length.Some? ==>
        var ext := LengthField(len7);
        && ext <= |old(incoming)| && incoming == old(incoming)[ext..]
        && length.value == if ext == 0 then len7 else FromBigEndian(old(incoming)[..ext])
      ensures length.None? ==> broken || |old(incoming)| < LengthField(len7)
    {
      if len7 == 126 {
        var ext := RecvExact(2);
        return if ext.None? then None else Some(FromBigEndian(ext.value));
      } else if len7 == 127 {
        var ext := RecvExact(8);
        return if ext.None? then None else Some(FromBigEndian(ext.value));
      }
      assert incoming[0..] == incoming;
      return Some(len7);
    }

    method ReadIf(wanted: bool, n: nat) returns (r: Option<Bytes>)
      modifies this
      ensures r.Some? ==>
        var k := if wanted then n else 0;
        k <= |old(incoming)| && r.value == old(incoming)[..k] && incoming == old(incoming)[k..]
      ensures r.None? ==> wanted && (broken || |old(incoming)| < n)
    {
      if wanted {
        r := RecvExact(n);
      } else {
        assert incoming[0..] == incoming;
        r := Some([]);
      }
    }

    method ReadFramePrefix() returns (r: Option<Prefix>)
      modifies this
      ensures r.Some? ==> ReadPrefix(old(incoming)) == r && r.value.at <= |old(incoming)| && incoming == old(incoming)[r.value.at..]
      ensures r.None? ==> broken || ReadPrefix(old(incoming)) == None
    {
      ghost var s := incoming;
      var hdr := RecvExact(2);
      if hdr.None? {
        return None;
      }
      var masked := hdr.value[1] >= 128;
      var length := ReadLength(hdr.value[1] % 128);
      if length.None? {
        return None;
      }
      var ext := LengthField(hdr.value[1] % 128);
      SliceOfRest(s, 2, ext);
      var mask := ReadIf(masked, 4);
      if mask.None? {
        return None;
      }
      var m := if masked then 4 else 0;
      SliceOfRest(s, 2 + ext, m);
      return Some(Prefix(hdr.value[0] % 16, mask.value, length.value, 2 + ext + m));
    }

    /** Whatever the pieces, an unbroken read returns the stream's first frame. */
    method WsReadFrame() returns (r: Option<Frame>)
      modifies this
      ensures r.Some? ==> Parse(old(incoming)) == Some((r.value, incoming))
      ensures r.None? ==> broken || Parse(old(incoming)) == None
    {
      ghost var s := incoming;
      var p := ReadFramePrefix();
      if p.None? {
        return None;
      }
      var data := ReadIf(p.value.length != 0, p.value.length);
      if data.None? {
        return None;
      }
      SliceOfRest(s, p.value.at, p.value.length);
      return Some(Frame(p.value.opcode, Unmasked(data.value, p.value.mask)));
    }
  }

  /** The frames up to and including the first close. */
  function UpToClose(frames: seq<Frame>): seq<Frame>
  {
    if frames == [] then []
    else [frames[0]] + if frames[0].opcode == 8 then [] else UpToClose(frames[1..])
  }

  lemma {:induction false} NothingAfterNoClose(frames: seq<Frame>)
    requires forall f :: f in frames ==> f.opcode != 8
    ensures UpToClose(frames) == frames
  {
    if frames != [] { NothingAfterNoClose(frames[1..]); }
  }

  lemma UpToCloseStep(frame: Frame, more: seq<Frame>, next: seq<Frame>)
    requires next != [] && next[0] == frame && next[1..] == more
    ensures UpToClose(next) == if frame.opcode == 8 then [frame] else [frame] + UpToClose(more)
  {
  }

  lemma Regroup<T>(a: seq<T>, b: seq<T>, c: seq<T>)
    ensures a + (b + c) == a + b + c && a + b <= a + b + c
  {
  }

  lemma CloseStep(read: seq<Frame>, frame: Frame, more: seq<Frame>, all: seq<Frame>)
    requires read + UpToClose([frame] + more) == all
    ensures read + [frame] <= all
    ensures if frame.opcode == 8 then read + [frame] == all else read + [frame] + UpToClose(more) == all
  {
    UpToCloseStep(frame, more, [frame] + more);
    Regroup(read, [frame], UpToClose(more));
  }

  lemma ParseShrinks(s: Bytes)
    ensures Parse(s).Some? ==> |Parse(s).value.1| < |s|
    ensures Parse(s).None? ==> ParseAll(s) == []
  {
  }

  /** The client loop's reads: frames until the stream ends, breaks or closes, in
      as many pieces as it likes. `sent` is what was written, frame by frame. */
  method ReadFrames(peer: Peer, ghost sent: seq<Frame>) returns (frames: seq<Frame>)
    requires (forall f :: f in sent ==> |f.payload| < MAX_PAYLOAD && f.opcode < 16) && peer.incoming == SendAll(sent)
    modifies peer
    ensures frames <= UpToClose(sent)
    ensures !peer.broken ==> frames == UpToClose(sent)
    ensures !peer.broken && (forall f :: f in sent ==> f.opcode != 8) ==> frames == sent
  {
    frames := [];
    StreamRoundTrip(sent);
    if forall f :: f in sent ==> f.opcode != 8 { NothingAfterNoClose(sent); }
    ghost var pending := sent;
    while true
      invariant pending == ParseAll(peer.incoming) && frames + UpToClose(pending) == UpToClose(sent)
      decreases |peer.incoming|
    {
      ghost var s := peer.incoming;
      ParseShrinks(s);
      var frame := peer.WsReadFrame();
      if frame.None? {
        return;
      }
      ParseAllStep(s, frame.value, peer.incoming);
      pending := ParseAll(peer.incoming);
      CloseStep(frames, frame.value, pending, UpToClose(sent));
      frames := frames + [frame.value];
      if frame.value.opcode == 8 {
        return;
      }
    }
  }

  lemma SliceOfRest(s: Bytes, a: nat, n: nat)
    requires a + n <= |s|
    ensures s[a..][..n] == s[a..a + n] && s[a..][n..] == s[a + n..]
  {
  }

  // ---- they undo each other ----

  lemma HeaderParts(opcode: nat, n: nat)
    requires n < MAX_PAYLOAD
    ensures var h := Header(opcode, n);
      var ext := LengthField(h[1]);
      && |h| == 2 + ext && h[0] % 16 == opcode % 16 && h[1] < 128
      && n == if ext == 0 then h[1] else FromBigEndian(h[2..])
  {
    PowersOf256();
    var h := Header(opcode, n);
    if 126 <= n < 65_536 {
      BigEndianInverts(n, 2);
      assert h[2..] == BigEndian(n, 2);
    } else if n >= 65_536 {
      BigEndianInverts(n, 8);
      assert h[2..] == BigEndian(n, 8);
    }
  }

  /** A frame with the mask bit set and its four mask octets. */
  function EncodedMasked(opcode: nat, mask: Bytes, payload: Bytes): Bytes
    requires |mask| == 4 && |payload| < MAX_PAYLOAD
  {
    HeaderParts(opcode, |payload|);
    var h := Header(opcode, |payload|);
    h[1 := h[1] + 128] + mask + Masked(payload, mask)
  }

  /** A stream that begins with a header, mask, and payload that fit together. */
  lemma ParseParts(h: Bytes, mask: Bytes, data: Bytes, rest: Bytes)
    requires |h| >= 2 && |h| == 2 + LengthField(h[1] % 128)
    requires |data| == if LengthField(h[1] % 128) == 0 then h[1] % 128 else FromBigEndian(h[2..])
    requires |mask| == if h[1] >= 128 then 4 else 0
    ensures Parse(h + mask + data + rest) == Some((Frame(h[0] % 16, Unmasked(data, mask)), rest))
  {
    FourParts(h, mask, data, rest);
    assert ReadPrefix(h + mask + data + rest) == Some(Prefix(h[0] % 16, mask, |data|, |h| + |mask|));
  }

  lemma FourParts(a: Bytes, b: Bytes, c: Bytes, d: Bytes)
    requires |a| >= 2
    ensures var s := a + b + c + d;
      && s[0] == a[0] && s[1] == a[1] && s[2..|a|] == a[2..] && s[|a|..|a| + |b|] == b
      && s[|a| + |b|..|a| + |b| + |c|] == c && s[|a| + |b| + |c|..] == d
  {
  }

  lemma ParseEncoded(opcode: nat, payload: Bytes, rest: Bytes)
    requires |payload| < MAX_PAYLOAD
    ensures Parse(Encoded(opcode, payload) + rest) == Some((Frame(opcode % 16, payload), rest))
  {
    var h := Header(opcode, |payload|);
    HeaderParts(opcode, |payload|);
    ParseParts(h, [], payload, rest);
    assert h + [] + payload + rest == Encoded(opcode, payload) + rest;
  }

  lemma ParseMasked(opcode: nat, mask: Bytes, payload: Bytes, rest: Bytes)
    requires |mask| == 4 && |payload| < MAX_PAYLOAD
    ensures Parse(EncodedMasked(opcode, mask, payload) + rest) == Some((Frame(opcode % 16, payload), rest))
  {
    var h := Header(opcode, |payload|);
    HeaderParts(opcode, |payload|);
    MaskingTwiceIsIdentity(payload, mask);
    assert h[1 := h[1] + 128][2..] == h[2..];
    ParseParts(h[1 := h[1] + 128], mask, Masked(payload, mask), rest);
  }

  function ParseAll(s: Bytes): seq<Frame>
    decreases |s|
  {
    match Parse(s)
    case None => []
    case Some((frame, rest)) => [frame] + ParseAll(rest)
  }

  function SendAll(frames: seq<Frame>): Bytes
    requires forall f :: f in frames ==> |f.payload| < MAX_PAYLOAD
  {
    if frames == [] then [] else Encoded(frames[0].opcode, frames[0].payload) + SendAll(frames[1..])
  }

  /** Reading everything that was sent yields the same frames in order. */
  lemma {:induction false} StreamRoundTrip(frames: seq<Frame>)
    requires forall f :: f in frames ==> |f.payload| < MAX_PAYLOAD && f.opcode < 16
    ensures ParseAll(SendAll(frames)) == frames
  {
    if frames != [] {
      FirstParsed(frames);
      ParseAllStep(SendAll(frames), frames[0], SendAll(frames[1..]));
      StreamRoundTrip(frames[1..]);
      assert frames == [frames[0]] + frames[1..];
    }
  }

  lemma FirstParsed(frames: seq<Frame>)
    requires frames != [] && forall f :: f in frames ==> |f.payload| < MAX_PAYLOAD && f.opcode < 16
    ensures Parse(SendAll(frames)) == Some((frames[0], SendAll(frames[1..])))
  {
    ParseFrame(frames[0], SendAll(frames[1..]));
  }

  lemma ParseFrame(frame: Frame, rest: Bytes)
    requires |frame.payload| < MAX_PAYLOAD && frame.opcode < 16
    ensures Parse(Encoded(frame.opcode, frame.payload) + rest) == Some((frame, rest))
  {
    ParseEncoded(frame.opcode, frame.payload, rest);
    assert frame.opcode % 16 == frame.opcode;
  }

  lemma ParseAllStep(s: Bytes, frame: Frame, rest: Bytes)
    requires Parse(s) == Some((frame, rest))
    ensures ParseAll(s) == [frame] + ParseAll(rest)
  {
  }

  /** The writer's header is the shortest: no unmasked frame that reads as this
      payload spends fewer bytes before it. */
  lemma ShortestHeader(s: Bytes)
    requires Parse(s).Some? && s[1] < 128
    ensures var (frame, rest) := Parse(s).value;
      |frame.payload| < MAX_PAYLOAD && |Header(frame.opcode, |frame.payload|)| <= |s| - |frame.payload| - |rest|
  {
    PowersOf256();
    var ext := LengthField(s[1]);
    FromBigEndianBound(s[2..2 + ext]);
    HeaderParts(s[0] % 16, |Parse(s).value.0.payload|);
  }
}
