/** The wire path: length frames, the size-prefixed compression envelope, and both receivers. */
module Wire {
  import opened Prelude

  const MAX_LEN := 65536
  const RECEIVE_BUFFER := 2048

  // ----- network byte order -----

  function Big4(n: int): seq<Byte>
    requires 0 <= n < 0x1_0000_0000
  {
    [n / 0x100 / 0x100 / 0x100, n / 0x100 / 0x100 % 0x100, n / 0x100 % 0x100, n % 0x100]
  }

  function Read4(b: seq<Byte>): nat
    requires |b| >= 4
  {
    ((b[0] as int * 0x100 + b[1]) * 0x100 + b[2]) * 0x100 + b[3]
  }

  lemma ReadsBack(n: int, rest: seq<Byte>)
    requires 0 <= n < 0x1_0000_0000
    ensures |Big4(n)| == 4 && Read4(Big4(n) + rest) == n
  {
  }

  // ----- cryptography and compression, as far as they matter here -----

  /** AES and LZ4 as functions; `decompress` gets the announced size. */
  datatype Codec = Codec(encrypt: seq<Byte> -> seq<Byte>, decrypt: seq<Byte> -> Option<seq<Byte>>,
                         compress: seq<Byte> -> seq<Byte>, decompress: (seq<Byte>, nat) -> Option<seq<Byte>>)

  /** The padded length of an AES-CBC ciphertext. */
  function PaddedLen(n: nat): nat {
    16 * (n / 16 + 1)
  }

  ghost predicate Inverse(c: Codec) {
    && (forall x :: c.decrypt(c.encrypt(x)) == Some(x))
    && (forall x :: |c.encrypt(x)| == PaddedLen(|x|))
    && (forall x :: x != [] ==> c.decompress(c.compress(x), |x|) == Some(x))
  }

  // A codec with these laws: it only pads, as PKCS#7 does.

  function Padded(x: seq<Byte>): seq<Byte> {
    x + seq(16 - |x| % 16, _ => 16 - |x| % 16)
  }

  function Unpadded(y: seq<Byte>): Option<seq<Byte>> {
    if y == [] || y[|y| - 1] > |y| then None else Some(y[..|y| - y[|y| - 1]])
  }

  function PaddingCodec(): Codec {
    Codec(x => Padded(x), y => Unpadded(y), x => x, (z, _) => Some(z))
  }

  lemma PaddingIsInverse()
    ensures Inverse(PaddingCodec())
  {
    var c := PaddingCodec();
    forall x ensures c.decrypt(c.encrypt(x)) == Some(x) && |c.encrypt(x)| == PaddedLen(|x|) {
      assert Padded(x)[..|x|] == x;
    }
  }

  /** SerializePacketRaw: encrypt, then compress behind the size of what was compressed. */
  function Sealed(c: Codec, plain: seq<Byte>): seq<Byte>
    requires |c.encrypt(plain)| < 0x1_0000_0000
  {
    Big4(|c.encrypt(plain)|) + c.compress(c.encrypt(plain))
  }

  /** SocketServer::send and the client's Send*: a length in front. */
  function Frame(payload: seq<Byte>): seq<Byte>
    requires |payload| < 0x1_0000_0000
  {
    Big4(|payload|) + payload
  }

  // ----- the client's receiver -----

  /** What OnReceive does with one complete frame: hand it on, pass over it, or drop the buffer. */
  datatype Verdict = Deliver(plain: seq<Byte>) | Skip | Abort

  function Judge(c: Codec, payload: seq<Byte>): Verdict {
    if |payload| < 4 then Skip else Opened(c, payload[4..], Read4(payload))
  }

  /** The payload behind its announced size. */
  function Opened(c: Codec, packed: seq<Byte>, size: nat): Verdict {
    if size <= 0 || size > MAX_LEN then Abort
    else
      var unpacked := c.decompress(packed, size);
      if unpacked.None? then Skip
      else
        var plain := c.decrypt(unpacked.value);
        if plain.None? then Skip else if |plain.value| < 2 then Abort else Deliver(plain.value)
  }

  type Judgement = seq<Byte> -> Verdict

  /** One parse of a buffer: what was handled, what is left, how much was consumed by whole frames,
      and whether the buffer was dropped. */
  datatype Parsed = Parsed(handled: seq<seq<Byte>>, rest: seq<Byte>, consumed: nat, dropped: bool)

  function Output(v: Verdict): seq<seq<Byte>> {
    if v.Deliver? then [v.plain] else []
  }

  /** A parse that goes on as `t` after handling `before` in `n` bytes. */
  function Then(before: seq<seq<Byte>>, n: nat, t: Parsed): Parsed {
    Parsed(before + t.handled, t.rest, n + t.consumed, t.dropped)
  }

  /** The front of a buffer: an incomplete frame, a reason to drop everything, or one whole frame. */
  datatype Front = Wait | Drop | Take(output: seq<seq<Byte>>, size: nat)

  function Look(buf: seq<Byte>, judge: Judgement): (f: Front)
    ensures f.Take? ==> 5 <= f.size <= |buf|
  {
    if |buf| < 4 then Wait
    else
      var len := Read4(buf);
      if len <= 0 || len > MAX_LEN then Drop
      else if |buf| < 4 + len then Wait
      else
        var verdict := judge(buf[4..4 + len]);
        if verdict.Abort? then Drop else Take(Output(verdict), 4 + len)
  }

  function Parse(buf: seq<Byte>, judge: Judgement): Parsed
    decreases |buf|
  {
    match Look(buf, judge)
    case Wait => Parsed([], buf, 0, false)
    case Drop => Parsed([], [], 0, true)
    case Take(output, size) => Then(output, size, Parse(buf[size..], judge))
  }

  /** More bytes behind change nothing about a front that was already decided. */
  lemma LookAppend(a: seq<Byte>, b: seq<Byte>, judge: Judgement)
    requires !Look(a, judge).Wait?
    ensures Look(a + b, judge) == Look(a, judge)
  {
    var len := Read4(a);
    assert Read4(a + b) == len;
    if |a| >= 4 + len {
      assert (a + b)[4..4 + len] == a[4..4 + len];
    }
  }

  lemma ThenThen(x: seq<seq<Byte>>, m: nat, y: seq<seq<Byte>>, n: nat, t: Parsed)
    ensures Then(x, m, Then(y, n, t)) == Then(x + y, m + n, t)
  {
    AppendAssociates(x, y, t.handled);
  }

  /** The parse of `whole` from offset `o` on, having handled `before`. */
  function Resumed(whole: seq<Byte>, o: nat, before: seq<seq<Byte>>, judge: Judgement): Parsed
    requires o <= |whole|
  {
    Then(before, o, Parse(whole[o..], judge))
  }

  lemma ResumedStart(whole: seq<Byte>, judge: Judgement)
    ensures Resumed(whole, 0, [], judge) == Parse(whole, judge)
  {
    assert whole[0..] == whole;
    assert [] + Parse(whole, judge).handled == Parse(whole, judge).handled;
  }

  lemma ResumedNext(whole: seq<Byte>, o: nat, before: seq<seq<Byte>>, f: Front, judge: Judgement)
    requires o <= |whole| && f == Look(whole[o..], judge) && f.Take?
    ensures o + f.size <= |whole|
    ensures Resumed(whole, o, before, judge) == Resumed(whole, o + f.size, before + f.output, judge)
  {
    assert whole[o..][f.size..] == whole[o + f.size..];
    ThenThen(before, o, f.output, f.size, Parse(whole[o + f.size..], judge));
  }

  lemma ResumedEnd(whole: seq<Byte>, o: nat, before: seq<seq<Byte>>, judge: Judgement)
    requires o <= |whole| && !Look(whole[o..], judge).Take?
    ensures var dropped := Look(whole[o..], judge).Drop?;
      Resumed(whole, o, before, judge) == Parsed(before, if dropped then [] else whole[o..], o, dropped)
  {
    assert before + [] == before;
  }

  class Receiver {
    var Buffer: seq<Byte>
    var handled: seq<seq<Byte>>

    constructor ()
      ensures Buffer == [] && handled == []
    {
      Buffer, handled := [], [];
    }

    /** Appends the pending datagrams, handles every complete frame, removes the processed bytes.
        `fault` is the removal of more bytes than the buffer still has, after a drop. */
    method OnReceive(datagrams: seq<seq<Byte>>, judge: Judgement) returns (fault: bool)
      modifies this
      ensures var r := Parse(old(Buffer) + Joined(datagrams), judge);
        && handled == old(handled) + r.handled
        && (fault <==> r.dropped && r.consumed > 0)
        && (!fault ==> Buffer == r.rest)
    {
      ghost var start := Buffer;
      for i := 0 to |datagrams|
        invariant Buffer == start + Joined(datagrams[..i]) && handled == old(handled)
      {
        assert datagrams[..i + 1][..i] == datagrams[..i];
        AppendAssociates(start, Joined(datagrams[..i]), datagrams[i]);
        Buffer := Buffer + datagrams[i];
      }
      assert datagrams[..|datagrams|] == datagrams;
      fault := Process(judge);
    }

    method Process(judge: Judgement) returns (fault: bool)
      modifies this
      ensures var r := Parse(old(Buffer), judge);
        && handled == old(handled) + r.handled
        && (fault <==> r.dropped && r.consumed > 0)
        && (!fault ==> Buffer == r.rest)
    {
      var Offset := Consume(judge);
      fault := Offset > |Buffer|;
      if Offset > 0 && !fault {
        Buffer := Buffer[Offset..];
      }
    }

    /** The parse loop: hands on frame by frame, and empties the buffer on a frame it cannot trust. */
    method Consume(judge: Judgement) returns (Offset: nat)
      modifies this
      ensures Offset <= |old(Buffer)|
      ensures var r := Parse(old(Buffer), judge);
        && handled == old(handled) + r.handled && Offset == r.consumed
        && Buffer == (if r.dropped then [] else old(Buffer))
        && r.rest == if r.dropped then [] else old(Buffer)[Offset..]
    {
      var buf := Buffer;
      ghost var start, before, r := handled, [], Resumed(buf, 0, [], judge);
      ResumedStart(buf, judge);
      Offset := 0;
      while |buf| - Offset >= 4
        invariant handled == start + before && Buffer == buf && Offset <= |buf|
        invariant r == Resumed(buf, Offset, before, judge)
        decreases |buf| - Offset
      {
        var front := Look(buf[Offset..], judge);
        if !front.Take? {
          break;
        }
        ResumedNext(buf, Offset, before, front, judge);
        AppendAssociates(start, before, front.output);
        before := before + front.output;
        handled := handled + front.output;
        Offset := Offset + front.size;
      }
      ResumedEnd(buf, Offset, before, judge);
      if Look(buf[Offset..], judge).Drop? {
        Buffer := [];
      }
    }
  }

  function Joined(chunks: seq<seq<Byte>>): seq<Byte> {
    if chunks == [] then [] else Joined(chunks[..|chunks| - 1]) + chunks[|chunks| - 1]
  }

  // ----- chunking does not matter -----

  /** For all byte strings: parsing what is left of `a` with `b` behind it continues the parse of
      a + b, unless the buffer was dropped. */
  lemma {:induction false} ParseContinues(a: seq<Byte>, b: seq<Byte>, judge: Judgement)
    ensures var r := Parse(a, judge);
      Parse(a + b, judge) == if r.dropped then r else Then(r.handled, r.consumed, Parse(r.rest + b, judge))
    decreases |a|
  {
    var f := Look(a, judge);
    if f.Take? {
      LookAppend(a, b, judge);
      assert (a + b)[f.size..] == a[f.size..] + b;
      ParseContinues(a[f.size..], b, judge);
      var q := Parse(a[f.size..], judge);
      if !q.dropped {
        ThenThen(f.output, f.size, q.handled, q.consumed, Parse(q.rest + b, judge));
      }
    } else if f.Drop? {
      LookAppend(a, b, judge);
    }
  }

  /** One OnReceive call after another. */
  function Feed(buf: seq<Byte>, chunks: seq<seq<Byte>>, judge: Judgement): (seq<seq<Byte>>, seq<Byte>) {
    if chunks == [] then ([], buf)
    else
      var (handled, rest) := Feed(buf, chunks[..|chunks| - 1], judge);
      var r := Parse(rest + chunks[|chunks| - 1], judge);
      (handled + r.handled, r.rest)
  }

  lemma FeedStep(buf: seq<Byte>, chunks: seq<seq<Byte>>, chunk: seq<Byte>, judge: Judgement)
    ensures var f, g := Feed(buf, chunks, judge), Feed(buf, chunks + [chunk], judge);
      var r := Parse(f.1 + chunk, judge);
      g.0 == f.0 + r.handled && g.1 == r.rest
  {
    assert (chunks + [chunk])[..|chunks|] == chunks;
  }

  /** For every byte stream the parser does not drop, and every way to cut it into calls: the same
      payloads are handled in the same order and the same bytes are left. */
  lemma {:induction false} ChunkingIrrelevant(chunks: seq<seq<Byte>>, judge: Judgement)
    requires !Parse(Joined(chunks), judge).dropped
    ensures Feed([], chunks, judge) == (Parse(Joined(chunks), judge).handled, Parse(Joined(chunks), judge).rest)
    decreases |chunks|
  {
    if chunks != [] {
      var init, last := chunks[..|chunks| - 1], chunks[|chunks| - 1];
      ParseContinues(Joined(init), last, judge);
      ChunkingIrrelevant(init, judge);
    }
  }

  const BAD: seq<Byte> := [0, 0, 0, 0]

  lemma BadDrops(more: seq<Byte>, judge: Judgement)
    ensures Parse(BAD + more, judge) == Parsed([], [], 0, true)
  {
    assert Read4(BAD + more) == 0;
  }

  lemma FeedOne(chunk: seq<Byte>, judge: Judgement)
    ensures Feed([], [chunk], judge) == (Parse(chunk, judge).handled, Parse(chunk, judge).rest)
  {
    var none: seq<seq<Byte>> := [];
    FeedStep([], none, chunk, judge);
    assert none + [chunk] == [chunk] && [] + chunk == chunk;
    assert none + Parse(chunk, judge).handled == Parse(chunk, judge).handled;
  }

  /** A drop makes chunking matter: a bad length in front of a frame loses the frame if both arrive
      in one call and only itself otherwise. */
  lemma DropDependsOnChunks(p: seq<Byte>, judge: Judgement)
    requires 1 <= |p| <= MAX_LEN && judge(p).Deliver?
    ensures Feed([], [BAD + Frame(p)], judge).0 == []
    ensures Feed([], [BAD, Frame(p)], judge).0 == [judge(p).plain]
  {
    BadDrops(Frame(p), judge);
    FeedOne(BAD + Frame(p), judge);
    BadDrops([], judge);
    assert BAD + [] == BAD;
    FeedOne(BAD, judge);
    FeedStep([], [BAD], Frame(p), judge);
    assert [BAD] + [Frame(p)] == [BAD, Frame(p)];
    FrameAlone(p, judge);
    assert [] + Frame(p) == Frame(p);
  }

  lemma FrameAlone(p: seq<Byte>, judge: Judgement)
    requires 1 <= |p| <= MAX_LEN && judge(p).Deliver?
    ensures Parse(Frame(p), judge).handled == [judge(p).plain]
  {
    LookFrame(p, [], judge);
    assert Frame(p) + [] == Frame(p);
  }

  // ----- streams of frames -----

  /** What the client makes of any non-empty frame. */
  lemma LookWhole(p: seq<Byte>, more: seq<Byte>, judge: Judgement)
    requires 1 <= |p| < 0x1_0000_0000
    ensures Look(Frame(p) + more, judge)
         == if |p| > MAX_LEN || judge(p).Abort? then Drop else Take(Output(judge(p)), 4 + |p|)
    ensures (Frame(p) + more)[4 + |p|..] == more
  {
    ReadsBack(|p|, p + more);
    AppendAssociates(Big4(|p|), p, more);
    assert (Frame(p) + more)[4..4 + |p|] == p;
  }

  lemma LookFrame(p: seq<Byte>, more: seq<Byte>, judge: Judgement)
    requires 1 <= |p| <= MAX_LEN && !judge(p).Abort?
    ensures Look(Frame(p) + more, judge) == Take(Output(judge(p)), 4 + |p|)
    ensures (Frame(p) + more)[4 + |p|..] == more
  {
    LookWhole(p, more, judge);
  }

  lemma LookCutFrame(p: seq<Byte>, n: nat, judge: Judgement)
    requires 1 <= |p| <= MAX_LEN && n < |Frame(p)|
    ensures Look(Frame(p)[..n], judge).Wait? && Frame(p)[..n] < Frame(p)
  {
    if n >= 4 {
      ReadsBack(|p|, p[..n - 4]);
      assert Frame(p)[..n] == Big4(|p|) + p[..n - 4];
    }
  }

  ghost predicate Sendable(ps: seq<seq<Byte>>, judge: Judgement) {
    forall p :: p in ps ==> 1 <= |p| <= MAX_LEN && !judge(p).Abort?
  }

  function Stream(ps: seq<seq<Byte>>): seq<Byte>
    requires forall p :: p in ps ==> |p| < 0x1_0000_0000
  {
    if ps == [] then [] else Frame(ps[0]) + Stream(ps[1..])
  }

  function Delivered(ps: seq<seq<Byte>>, judge: Judgement): seq<seq<Byte>> {
    if ps == [] then []
    else Output(judge(ps[0])) + Delivered(ps[1..], judge)
  }

  /** `n` bytes of the stream are its first `k` frames and a proper prefix of the next. */
  ghost predicate CutsAt(ps: seq<seq<Byte>>, n: nat, k: nat, judge: Judgement)
    requires (forall p :: p in ps ==> |p| < 0x1_0000_0000) && n <= |Stream(ps)|
  {
    var r := Parse(Stream(ps)[..n], judge);
    && k <= |ps| && !r.dropped && r.handled == Delivered(ps[..k], judge)
    && Stream(ps)[..n] == Stream(ps[..k]) + r.rest
    && if k < |ps| then r.rest < Frame(ps[k]) else r.rest == []
  }

  /** Cut a stream of frames anywhere: exactly the decodable payloads of the complete frames have
      been handled, in order, and what is left is a proper prefix of the next frame. */
  lemma {:induction false} CutStream(ps: seq<seq<Byte>>, n: nat, judge: Judgement) returns (k: nat)
    requires Sendable(ps, judge) && n <= |Stream(ps)|
    ensures CutsAt(ps, n, k, judge)
    decreases |ps|
  {
    if ps == [] {
      k := 0;
    } else {
      assert ps[0] in ps;
      if n < |Frame(ps[0])| {
        k := 0;
        CutHead(ps, n, judge);
      } else {
        var j := CutStream(ps[1..], n - |Frame(ps[0])|, judge);
        k := j + 1;
        CutTail(ps, n, j, judge);
      }
    }
  }

  lemma CutHead(ps: seq<seq<Byte>>, n: nat, judge: Judgement)
    requires Sendable(ps, judge) && ps != [] && n < |Frame(ps[0])|
    ensures n <= |Stream(ps)| && CutsAt(ps, n, 0, judge)
  {
    assert ps[0] in ps;
    LookCutFrame(ps[0], n, judge);
    assert Stream(ps)[..n] == Frame(ps[0])[..n];
  }

  lemma CutTail(ps: seq<seq<Byte>>, n: nat, j: nat, judge: Judgement)
    requires Sendable(ps, judge) && ps != [] && |Frame(ps[0])| <= n <= |Stream(ps)|
    requires CutsAt(ps[1..], n - |Frame(ps[0])|, j, judge)
    ensures CutsAt(ps, n, j + 1, judge)
  {
    assert ps[0] in ps;
    var cut := Stream(ps[1..])[..n - |Frame(ps[0])|];
    ParseHead(ps, n, judge);
    TakeMore(ps, j, judge);
    AppendAssociates(Frame(ps[0]), Stream(ps[1..][..j]), Parse(cut, judge).rest);
  }

  lemma ParseHead(ps: seq<seq<Byte>>, n: nat, judge: Judgement)
    requires Sendable(ps, judge) && ps != [] && |Frame(ps[0])| <= n <= |Stream(ps)|
    ensures var cut := Stream(ps[1..])[..n - |Frame(ps[0])|];
      && Stream(ps)[..n] == Frame(ps[0]) + cut
      && Parse(Stream(ps)[..n], judge) == Then(Output(judge(ps[0])), |Frame(ps[0])|, Parse(cut, judge))
  {
    assert ps[0] in ps;
    var cut := Stream(ps[1..])[..n - |Frame(ps[0])|];
    assert Stream(ps)[..n] == Frame(ps[0]) + cut;
    LookFrame(ps[0], cut, judge);
  }

  lemma TakeMore(ps: seq<seq<Byte>>, j: nat, judge: Judgement)
    requires j < |ps| && forall p :: p in ps ==> |p| < 0x1_0000_0000
    ensures Stream(ps[..j + 1]) == Frame(ps[0]) + Stream(ps[1..][..j])
    ensures Delivered(ps[..j + 1], judge) == Output(judge(ps[0])) + Delivered(ps[1..][..j], judge)
  {
    var was := ps[..j + 1];
    assert was[0] == ps[0] && was[1..] == ps[1..][..j];
  }

  /** The whole stream, however it is cut into calls: every decodable payload once, in order. */
  lemma StreamArrives(ps: seq<seq<Byte>>, chunks: seq<seq<Byte>>, judge: Judgement)
    requires Sendable(ps, judge) && Joined(chunks) == Stream(ps)
    ensures Feed([], chunks, judge) == (Delivered(ps, judge), [])
  {
    var k := CutStream(ps, |Stream(ps)|, judge);
    assert Stream(ps)[..|Stream(ps)|] == Stream(ps);
    if k < |ps| {
      assert ps == ps[..k] + ps[k..];
      StreamAppend(ps[..k], ps[k..]);
    } else {
      assert ps[..k] == ps;
    }
    ChunkingIrrelevant(chunks, judge);
  }

  lemma {:induction false} StreamAppend(a: seq<seq<Byte>>, b: seq<seq<Byte>>)
    requires forall p :: p in a + b ==> |p| < 0x1_0000_0000
    ensures Stream(a + b) == Stream(a) + Stream(b)
    decreases |a|
  {
    if a == [] {
      assert a + b == b;
    } else {
      assert (a + b)[1..] == a[1..] + b && a[0] in a + b;
      StreamAppend(a[1..], b);
      AppendAssociates(Frame(a[0]), Stream(a[1..]), Stream(b));
    }
  }

  // ----- what a drop loses -----

  /** `s` is whole frames, `ps`, and then `tail`, which starts with a length or a frame the client does
      not accept. */
  ghost predicate SpoiledAt(s: seq<Byte>, ps: seq<seq<Byte>>, tail: seq<Byte>, judge: Judgement) {
    Sendable(ps, judge) && s == Stream(ps) + tail && Look(tail, judge).Drop?
  }

  ghost predicate Spoiled(s: seq<Byte>, judge: Judgement) {
    exists ps, tail :: SpoiledAt(s, ps, tail, judge)
  }

  /** A first frame that is taken is the frame of an acceptable payload. */
  lemma TakeIsFrame(s: seq<Byte>, judge: Judgement) returns (p: seq<Byte>)
    requires Look(s, judge).Take?
    ensures 1 <= |p| <= MAX_LEN && !judge(p).Abort?
    ensures s == Frame(p) + s[Look(s, judge).size..] && Look(s, judge) == Take(Output(judge(p)), 4 + |p|)
  {
    p := s[4..4 + Read4(s)];
    BigOfRead(s);
    assert s == s[..4] + p + s[4 + |p|..];
  }

  lemma BigOfRead(b: seq<Byte>)
    requires |b| >= 4
    ensures Read4(b) < 0x1_0000_0000 && Big4(Read4(b)) == b[..4]
  {
    var n, high := Read4(b), b[0] as int * 0x100 + b[1];
    assert n / 0x100 == high * 0x100 + b[2] && n % 0x100 == b[3] as int;
    assert n / 0x100 / 0x100 == high;
  }

  /** A dropped parse is some whole frames, all handled, in front of what is not accepted. */
  lemma {:induction false} DropPeels(s: seq<Byte>, judge: Judgement) returns (ps: seq<seq<Byte>>, tail: seq<Byte>)
    requires Parse(s, judge).dropped
    ensures SpoiledAt(s, ps, tail, judge)
    decreases |s|
  {
    ps, tail := [], s;
    if Look(s, judge).Take? {
      var p := TakeIsFrame(s, judge);
      var more := s[Look(s, judge).size..];
      ps, tail := DropPeels(more, judge);
      AppendAssociates(Frame(p), Stream(ps), tail);
      ps := [p] + ps;
      assert ps[0] == p;
    }
  }

  /** And the other way round: frames in front are handled, the rest is gone. */
  lemma {:induction false} DropParses(s: seq<Byte>, ps: seq<seq<Byte>>, tail: seq<Byte>, judge: Judgement)
    requires SpoiledAt(s, ps, tail, judge)
    ensures Parse(s, judge) == Parsed(Delivered(ps, judge), [], |Stream(ps)|, true)
    decreases |ps|
  {
    if ps == [] {
      assert s == tail;
    } else {
      var more := Stream(ps[1..]) + tail;
      assert ps[0] in ps;
      AppendAssociates(Frame(ps[0]), Stream(ps[1..]), tail);
      LookFrame(ps[0], more, judge);
      DropParses(more, ps[1..], tail, judge);
    }
  }

  /** The client drops its buffer exactly when, behind whole frames, it holds a length or a frame it
      does not accept. */
  lemma DroppedIff(s: seq<Byte>, judge: Judgement)
    ensures Parse(s, judge).dropped <==> Spoiled(s, judge)
  {
    if Parse(s, judge).dropped {
      var ps, tail := DropPeels(s, judge);
    }
    forall ps, tail | SpoiledAt(s, ps, tail, judge) ensures Parse(s, judge).dropped {
      DropParses(s, ps, tail, judge);
    }
  }

  /** The removal after a drop goes beyond the buffer exactly when at least one whole frame stands in
      front of a length or a frame the client does not accept. */
  lemma FaultIff(buf: seq<Byte>, judge: Judgement)
    ensures Parse(buf, judge).dropped && Parse(buf, judge).consumed > 0
       <==> exists ps, tail :: SpoiledAt(buf, ps, tail, judge) && ps != []
  {
    if Parse(buf, judge).dropped && Parse(buf, judge).consumed > 0 {
      var ps, tail := DropPeels(buf, judge);
      DropParses(buf, ps, tail, judge);
    }
    forall ps, tail | SpoiledAt(buf, ps, tail, judge) && ps != []
      ensures Parse(buf, judge).dropped && Parse(buf, judge).consumed > 0
    {
      DropParses(buf, ps, tail, judge);
    }
  }

  /** However the stream is cut into calls, the same payloads are handled and the same bytes left. */
  ghost predicate CutsAgree(s: seq<Byte>, judge: Judgement) {
    forall chunks :: Joined(chunks) == s ==> Feed([], chunks, judge) == (Parse(s, judge).handled, Parse(s, judge).rest)
  }

  /** At least one byte follows the length or frame that makes the client drop its buffer. */
  ghost predicate BytesAfterDrop(s: seq<Byte>, judge: Judgement) {
    s != [] && Spoiled(s[..|s| - 1], judge)
  }

  lemma FeedTwo(a: seq<Byte>, b: seq<Byte>, judge: Judgement)
    ensures Joined([a, b]) == a + b
    ensures Feed([], [a, b], judge).1 == Parse(Parse(a, judge).rest + b, judge).rest
  {
    var none: seq<seq<Byte>> := [];
    assert [a, b][..1] == [a] && [a][..0] == none && [a] + [b] == [a, b];
    assert Joined([a]) == Joined(none) + a;
    assert [] + a == a;
    FeedOne(a, judge);
    FeedStep([], [a], b, judge);
  }

  /** Cut before the last byte, a stream that was dropped earlier leaves that byte. */
  lemma CutBeforeLast(init: seq<Byte>, last: Byte, judge: Judgement)
    requires Parse(init, judge).dropped
    ensures Joined([init, [last]]) == init + [last]
    ensures Feed([], [init, [last]], judge).1 == [last] && Parse(init + [last], judge).rest == []
  {
    FeedTwo(init, [last], judge);
    ParseContinues(init, [last], judge);
    DroppedRest(init, judge);
    assert [] + [last] == [last];
  }

  lemma {:induction false} DroppedRest(s: seq<Byte>, judge: Judgement)
    ensures Parse(s, judge).dropped ==> Parse(s, judge).rest == []
    decreases |s|
  {
    if Look(s, judge).Take? {
      DroppedRest(s[Look(s, judge).size..], judge);
    }
  }

  /** Only the last byte of `s` makes the client drop it. */
  ghost predicate DropsAtEnd(s: seq<Byte>, judge: Judgement) {
    Parse(s, judge).dropped && s != [] && !Parse(s[..|s| - 1], judge).dropped
  }

  lemma EarlierCutKeeps(a: seq<Byte>, last: seq<Byte>, judge: Judgement)
    requires last != [] && DropsAtEnd(a + last, judge)
    ensures !Parse(a, judge).dropped
  {
    var mid := last[..|last| - 1];
    assert (a + last)[..|a + last| - 1] == a + mid;
    ParseContinues(a, mid, judge);
  }

  /** A stream that is dropped with its last byte and not before, cut in any way. */
  lemma {:induction false} DroppedAtEnd(chunks: seq<seq<Byte>>, judge: Judgement)
    requires DropsAtEnd(Joined(chunks), judge)
    ensures Feed([], chunks, judge) == (Parse(Joined(chunks), judge).handled, [])
    decreases |chunks|
  {
    var init, last := chunks[..|chunks| - 1], chunks[|chunks| - 1];
    var a := Joined(init);
    assert Joined(chunks) == a + last;
    DroppedRest(a + last, judge);
    if last == [] {
      assert a + last == a;
      DroppedAtEnd(init, judge);
      assert Parse(a, judge).handled + [] == Parse(a, judge).handled;
    } else {
      EarlierCutKeeps(a, last, judge);
      ParseContinues(a, last, judge);
      ChunkingIrrelevant(init, judge);
    }
  }

  /** When the way the bytes are cut into calls cannot matter: exactly when nothing follows the length
      or frame that makes the client drop its buffer, in particular when there is none. */
  lemma CutsAgreeIff(s: seq<Byte>, judge: Judgement)
    ensures CutsAgree(s, judge) <==> !BytesAfterDrop(s, judge)
  {
    if s != [] { DroppedIff(s[..|s| - 1], judge); }
    if BytesAfterDrop(s, judge) {
      var init, last := s[..|s| - 1], s[|s| - 1];
      assert s == init + [last];
      CutBeforeLast(init, last, judge);
    } else {
      forall chunks | Joined(chunks) == s
        ensures Feed([], chunks, judge) == (Parse(s, judge).handled, Parse(s, judge).rest)
      {
        if Parse(s, judge).dropped {
          DroppedRest(s, judge);
          DroppedAtEnd(chunks, judge);
        } else {
          ChunkingIrrelevant(chunks, judge);
        }
      }
    }
  }

  // ----- the server's receiver -----

  /** DeserializePacketRaw and the header check of the packet handler. */
  function Unsealed(c: Codec, payload: seq<Byte>): Option<seq<Byte>> {
    if |payload| < 4 then None
    else
      var unpacked := c.decompress(payload[4..], Read4(payload));
      if unpacked.None? then None
      else
        var plain := c.decrypt(unpacked.value);
        if plain.None? || |plain.value| < 2 then None else plain
  }

  /** doRead and the packet handler on one datagram: the plain packet, or nothing. */
  function ServerReceive(c: Codec, datagram: seq<Byte>): Option<seq<Byte>> {
    var data := if |datagram| > RECEIVE_BUFFER then datagram[..RECEIVE_BUFFER] else datagram;
    if |data| < 4 || |data| < 4 + Read4(data) then None else Unsealed(c, data[4..4 + Read4(data)])
  }

  // ----- round trips -----

  /** The ciphertext always fits the buffer that encrypt reserves, and is never empty. */
  lemma CiphertextFits(c: Codec, plain: seq<Byte>)
    requires Inverse(c)
    ensures 16 <= |c.encrypt(plain)| <= |plain| + 16
  {
  }

  /** Packets the server may send: with a header, and within both of the client's limits. */
  ghost predicate Fits(c: Codec, plain: seq<Byte>) {
    && 2 <= |plain| && PaddedLen(|plain|) <= MAX_LEN
    && 4 + |c.compress(c.encrypt(plain))| <= MAX_LEN
  }

  /** What the client does with a payload it cannot use: it drops its buffer for a size it does not accept and
      for a packet without a header, and passes over what is too short or cannot be opened. */
  lemma JudgeIs(c: Codec, payload: seq<Byte>)
    ensures |payload| < 4 ==> Judge(c, payload) == Skip
    ensures |payload| >= 4 ==>
      var size, packed := Read4(payload), payload[4..];
      && (size == 0 || size > 65536 ==> Judge(c, payload) == Abort)
      && (1 <= size <= 65536 ==>
            && (c.decompress(packed, size) == None ==> Judge(c, payload) == Skip)
            && (forall sealed :: c.decompress(packed, size) == Some(sealed) ==>
                  && (c.decrypt(sealed) == None ==> Judge(c, payload) == Skip)
                  && (forall plain :: c.decrypt(sealed) == Some(plain) ==>
                        Judge(c, payload) == if |plain| < 2 then Abort else Deliver(plain))))
  {
  }

  /** What the client makes of the payload of a whole frame. */
  lemma JudgeSealed(c: Codec, plain: seq<Byte>)
    requires Inverse(c) && |plain| < 0x8000_0000
    ensures |c.encrypt(plain)| < 0x1_0000_0000
    ensures Judge(c, Sealed(c, plain)) == if |plain| >= 2 && PaddedLen(|plain|) <= MAX_LEN then Deliver(plain) else Abort
  {
    OpenedSealed(c, plain);
    SealedParts(c, plain);
  }

  /** Server to client: the frame of a packet at the front of the buffer is taken, and the packet handed
      on unchanged, exactly when the packet has a header, its ciphertext stays within the size the
      client accepts, and so does the compressed payload; otherwise the client drops its buffer. */
  lemma ClientReceivesIff(c: Codec, plain: seq<Byte>, more: seq<Byte>)
    requires Inverse(c) && |plain| < 0x8000_0000 && |c.compress(c.encrypt(plain))| < 0x8000_0000
    ensures |c.encrypt(plain)| < 0x1_0000_0000
    ensures Look(Frame(Sealed(c, plain)) + more, q => Judge(c, q))
         == if Fits(c, plain) then Take([plain], 8 + |c.compress(c.encrypt(plain))|) else Drop
  {
    JudgeSealed(c, plain);
    SealedParts(c, plain);
    LookWhole(Sealed(c, plain), more, q => Judge(c, q));
  }

  lemma SealedParts(c: Codec, plain: seq<Byte>)
    requires |c.encrypt(plain)| < 0x1_0000_0000
    ensures |Sealed(c, plain)| >= 4 && Read4(Sealed(c, plain)) == |c.encrypt(plain)|
    ensures Sealed(c, plain)[4..] == c.compress(c.encrypt(plain))
  {
    ReadsBack(|c.encrypt(plain)|, c.compress(c.encrypt(plain)));
  }

  lemma OpenedSealed(c: Codec, plain: seq<Byte>)
    requires Inverse(c)
    ensures Opened(c, c.compress(c.encrypt(plain)), |c.encrypt(plain)|)
         == if |plain| >= 2 && PaddedLen(|plain|) <= MAX_LEN then Deliver(plain) else Abort
  {
    CiphertextFits(c, plain);
  }

  lemma FrameThenBad(p: seq<Byte>, judge: Judgement)
    requires 1 <= |p| <= MAX_LEN && !judge(p).Abort?
    ensures Parse(Frame(p) + BAD, judge) == Parsed(Output(judge(p)), [], 4 + |p|, true)
  {
    LookFrame(p, BAD, judge);
    BadDrops([], judge);
    assert BAD + [] == BAD && Output(judge(p)) + [] == Output(judge(p));
  }

  /** It does happen: a sealed packet and a bad length in one receive call. */
  lemma FaultHappens() returns (c: Codec, buf: seq<Byte>)
    ensures Inverse(c)
    ensures Parse(buf, q => Judge(c, q)).dropped && Parse(buf, q => Judge(c, q)).consumed > |Parse(buf, q => Judge(c, q)).rest|
    ensures Parse(buf, q => Judge(c, q)).handled == [[0, 0]]
  {
    c := PaddingCodec();
    PaddingIsInverse();
    var plain: seq<Byte> := [0, 0];
    JudgeSealed(c, plain);
    SealedParts(c, plain);
    assert |Sealed(c, plain)| == 20;
    buf := Frame(Sealed(c, plain)) + BAD;
    FrameThenBad(Sealed(c, plain), q => Judge(c, q));
  }

  function SealAll(c: Codec, plains: seq<seq<Byte>>): seq<seq<Byte>>
    requires forall p :: p in plains ==> |c.encrypt(p)| < 0x1_0000_0000
  {
    seq(|plains|, i requires 0 <= i < |plains| => assert plains[i] in plains; Sealed(c, plains[i]))
  }

  ghost predicate Passes(c: Codec, plain: seq<Byte>) {
    && |c.encrypt(plain)| < 0x1_0000_0000
    && 1 <= |Sealed(c, plain)| <= MAX_LEN && Judge(c, Sealed(c, plain)) == Deliver(plain)
  }

  lemma FittingDelivered(c: Codec, plain: seq<Byte>)
    requires Inverse(c) && Fits(c, plain)
    ensures Passes(c, plain)
  {
    JudgeSealed(c, plain);
  }

  // A codec whose compression adds bytes, as LZ4 does on data it cannot compress.

  function Widened(x: seq<Byte>): seq<Byte> {
    x + seq(256, _ => 0)
  }

  function Narrowed(z: seq<Byte>, n: nat): Option<seq<Byte>> {
    if n <= |z| then Some(z[..n]) else None
  }

  function WideCodec(): Codec {
    Codec(x => Padded(x), y => Unpadded(y), x => Widened(x), (z, n) => Narrowed(z, n))
  }

  lemma WideIsInverse()
    ensures Inverse(WideCodec())
  {
    PaddingIsInverse();
    forall x ensures Narrowed(Widened(x), |x|) == Some(x) {
      assert Widened(x)[..|x|] == x;
    }
    forall x ensures WideCodec().decrypt(WideCodec().encrypt(x)) == Some(x) && |WideCodec().encrypt(x)| == PaddedLen(|x|) {
      assert PaddingCodec().decrypt(PaddingCodec().encrypt(x)) == Some(x);
    }
  }

  /** The frame limit is one of its own: a packet whose ciphertext is small enough for the client, and
      whose payload it would hand on, is dropped for the length of its frame. */
  lemma FrameLimitBinds(plain: seq<Byte>, more: seq<Byte>)
    requires |plain| == 65400
    ensures Inverse(WideCodec()) && |WideCodec().encrypt(plain)| < MAX_LEN
    ensures Judge(WideCodec(), Sealed(WideCodec(), plain)) == Deliver(plain)
    ensures |Sealed(WideCodec(), plain)| < 0x1_0000_0000
    ensures Look(Frame(Sealed(WideCodec(), plain)) + more, q => Judge(WideCodec(), q)).Drop?
  {
    var c := WideCodec();
    WideIsInverse();
    JudgeSealed(c, plain);
    assert |c.compress(c.encrypt(plain))| == 65408 + 256;
    SealedParts(c, plain);
    ClientReceivesIff(c, plain, more);
  }

  lemma SealedArrive(c: Codec, plains: seq<seq<Byte>>)
    requires forall p :: p in plains ==> |c.encrypt(p)| < 0x1_0000_0000
    requires forall p :: p in plains ==> Passes(c, p)
    ensures Sendable(SealAll(c, plains), q => Judge(c, q)) && Delivered(SealAll(c, plains), q => Judge(c, q)) == plains
  {
    var judge := q => Judge(c, q);
    var ps := SealAll(c, plains);
    forall i | 0 <= i < |plains| ensures 1 <= |ps[i]| <= MAX_LEN && judge(ps[i]) == Deliver(plains[i]) {
      assert plains[i] in plains;
      assert Passes(c, plains[i]);
    }
    DeliveredAll(ps, plains, judge);
  }

  /** End to end: every sequence of fitting packets, encrypted, compressed, framed and cut in any way
      across the client's receive calls, arrives unchanged and in order, and nothing is left over. */
  lemma PacketsArrive(c: Codec, plains: seq<seq<Byte>>, chunks: seq<seq<Byte>>)
    requires Inverse(c) && forall p :: p in plains ==> Fits(c, p)
    ensures forall p :: p in plains ==> |c.encrypt(p)| < 0x1_0000_0000
    ensures forall q :: q in SealAll(c, plains) ==> |q| < 0x1_0000_0000
    ensures Joined(chunks) == Stream(SealAll(c, plains)) ==> Feed([], chunks, q => Judge(c, q)) == (plains, [])
  {
    forall p | p in plains ensures Passes(c, p) {
      FittingDelivered(c, p);
    }
    SealedArrive(c, plains);
    if Joined(chunks) == Stream(SealAll(c, plains)) {
      StreamArrives(SealAll(c, plains), chunks, q => Judge(c, q));
    }
  }

  lemma SkippedFrame(p: seq<Byte>, more: seq<Byte>, judge: Judgement)
    requires 1 <= |p| <= MAX_LEN && judge(p).Skip?
    ensures Parse(Frame(p) + more, judge).handled == Parse(more, judge).handled
  {
    LookFrame(p, more, judge);
    assert [] + Parse(more, judge).handled == Parse(more, judge).handled;
  }

  lemma OneCall(ps: seq<seq<Byte>>, judge: Judgement)
    requires Sendable(ps, judge)
    ensures Parse(Stream(ps), judge).handled == Delivered(ps, judge)
  {
    var s := Stream(ps);
    var none: seq<seq<Byte>> := [];
    assert [s][..0] == none && Joined(none) + s == s;
    StreamArrives(ps, [s], judge);
    FeedOne(s, judge);
  }

  /** A frame that cannot be opened is passed over, and the packets behind it still arrive. */
  lemma GarbageIsPassedOver(c: Codec, p: seq<Byte>, plains: seq<seq<Byte>>)
    requires Inverse(c) && (forall q :: q in plains ==> Fits(c, q)) && 1 <= |p| <= MAX_LEN
    requires |p| < 4 || (1 <= Read4(p) <= MAX_LEN && c.decompress(p[4..], Read4(p)) == None)
    ensures forall q :: q in plains ==> |c.encrypt(q)| < 0x1_0000_0000
    ensures forall q :: q in SealAll(c, plains) ==> |q| < 0x1_0000_0000
    ensures Parse(Frame(p) + Stream(SealAll(c, plains)), q => Judge(c, q)).handled == plains
  {
    forall q | q in plains ensures Passes(c, q) {
      FittingDelivered(c, q);
    }
    SealedArrive(c, plains);
    JudgeIs(c, p);
    OneCall(SealAll(c, plains), q => Judge(c, q));
    SkippedFrame(p, Stream(SealAll(c, plains)), q => Judge(c, q));
  }

  lemma {:induction false} DeliveredAll(ps: seq<seq<Byte>>, plains: seq<seq<Byte>>, judge: Judgement)
    requires |ps| == |plains| && forall i :: 0 <= i < |ps| ==> judge(ps[i]) == Deliver(plains[i])
    ensures Delivered(ps, judge) == plains
    decreases |ps|
  {
    if ps != [] {
      DeliveredAll(ps[1..], plains[1..], judge);
      assert plains == [plains[0]] + plains[1..];
    }
  }

  /** Client to server: one datagram per packet arrives unchanged exactly when the packet has a
      header and the datagram fits the server's receive buffer. */
  lemma ServerReceivesIff(c: Codec, plain: seq<Byte>)
    requires Inverse(c) && |plain| < 0x8000_0000 && |c.compress(c.encrypt(plain))| < 0x8000_0000
    ensures |c.encrypt(plain)| < 0x1_0000_0000
    ensures ServerReceive(c, Frame(Sealed(c, plain)))
         == if |plain| >= 2 && |Frame(Sealed(c, plain))| <= RECEIVE_BUFFER then Some(plain) else None
  {
    UnsealedSealed(c, plain);
    var sealed := Sealed(c, plain);
    if |Frame(sealed)| <= RECEIVE_BUFFER {
      DatagramKept(c, sealed);
    } else {
      DatagramCut(c, sealed);
    }
  }

  /** The server reads one frame of a datagram: bytes behind it do not matter. */
  lemma ServerIgnoresTail(c: Codec, payload: seq<Byte>, more: seq<Byte>)
    requires 4 + |payload| + |more| <= RECEIVE_BUFFER
    ensures ServerReceive(c, Frame(payload) + more) == ServerReceive(c, Frame(payload))
  {
    ReadsBack(|payload|, payload + more);
    ReadsBack(|payload|, payload);
    AppendAssociates(Big4(|payload|), payload, more);
    assert (Frame(payload) + more)[4..4 + |payload|] == payload == Frame(payload)[4..4 + |payload|];
  }

  /** A payload that cannot be opened, or opens to less than a header, is no packet. */
  lemma ServerReceivesNothing(c: Codec, payload: seq<Byte>)
    requires 4 + |payload| <= RECEIVE_BUFFER
    ensures |payload| < 4 || c.decompress(payload[4..], Read4(payload)) == None ==> ServerReceive(c, Frame(payload)) == None
    ensures forall sealed :: |payload| >= 4 && c.decompress(payload[4..], Read4(payload)) == Some(sealed) ==>
      && (c.decrypt(sealed) == None ==> ServerReceive(c, Frame(payload)) == None)
      && (forall plain :: c.decrypt(sealed) == Some(plain) ==>
            ServerReceive(c, Frame(payload)) == if |plain| < 2 then None else Some(plain))
  {
    DatagramKept(c, payload);
  }

  lemma UnsealedSealed(c: Codec, plain: seq<Byte>)
    requires Inverse(c) && |plain| < 0x8000_0000
    ensures |c.encrypt(plain)| < 0x1_0000_0000
    ensures Unsealed(c, Sealed(c, plain)) == if |plain| >= 2 then Some(plain) else None
  {
    CiphertextFits(c, plain);
    SealedParts(c, plain);
  }

  lemma DatagramKept(c: Codec, sealed: seq<Byte>)
    requires |sealed| < 0x1_0000_0000 && |Frame(sealed)| <= RECEIVE_BUFFER
    ensures ServerReceive(c, Frame(sealed)) == Unsealed(c, sealed)
  {
    ReadsBack(|sealed|, sealed);
    assert Frame(sealed)[4..4 + |sealed|] == sealed;
  }

  lemma DatagramCut(c: Codec, sealed: seq<Byte>)
    requires |sealed| < 0x1_0000_0000 && |Frame(sealed)| > RECEIVE_BUFFER
    ensures ServerReceive(c, Frame(sealed)) == None
  {
    ReadsBack(|sealed|, sealed[..RECEIVE_BUFFER - 4]);
    assert Frame(sealed)[..RECEIVE_BUFFER] == Big4(|sealed|) + sealed[..RECEIVE_BUFFER - 4];
  }
}
