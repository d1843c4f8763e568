/**
 The wire format: a payload behind its length as four big-endian bytes.
 `Decode` is the reader run until it fails; `ReadFrame` and `EncodeFrame` are
 the operations on a stream and on a buffer.
 */
module Frames {
  import opened Bytes
  import opened Wrappers

  const LENGTH_PREFIX_SIZE: nat := 4
  const MAX_FRAME_SIZE: nat := 8 * 1024 * 1024

  datatype FrameError = TooLarge(size: nat) | UnexpectedEof

  // ---- the length prefix ----

  function BigEndian(n: nat): (s: Bytes)
    requires n < 0x1_0000_0000
    ensures |s| == LENGTH_PREFIX_SIZE && FromBigEndian(s) == n
    ensures n == s[0] as nat * 0x100_0000 + s[1] as nat * 0x1_0000 + s[2] as nat * 0x100 + s[3] as nat
  {
    var high, low := n / 0x1_0000, n % 0x1_0000;
    [(high / 0x100) as byte, (high % 0x100) as byte, (low / 0x100) as byte, (low % 0x100) as byte]
  }

  function FromBigEndian(s: Bytes): nat
    requires |s| == LENGTH_PREFIX_SIZE
  {
    s[0] as nat * 0x100_0000 + s[1] as nat * 0x1_0000 + s[2] as nat * 0x100 + s[3] as nat
  }

  lemma BigEndianOf(s: Bytes)
    requires |s| == LENGTH_PREFIX_SIZE
    ensures FromBigEndian(s) < 0x1_0000_0000 && BigEndian(FromBigEndian(s)) == s
  {
    var n := FromBigEndian(s);
    assert n / 0x100_0000 == s[0] as int;
    assert n / 0x1_0000 == s[0] as int * 0x100 + s[1] as int;
    assert n / 0x100 == s[0] as int * 0x1_0000 + s[1] as int * 0x100 + s[2] as int;
  }

  // ---- streams of frames ----

  predicate Fits(payload: Bytes) {
    |payload| <= MAX_FRAME_SIZE
  }

  function Frame(payload: Bytes): Bytes
    requires Fits(payload)
  {
    BigEndian(|payload|) + payload
  }

  predicate AllFit(ps: seq<Bytes>) {
    forall p <- ps :: Fits(p)
  }

  function Stream(ps: seq<Bytes>): Bytes
    requires AllFit(ps)
  {
    if ps == [] then [] else Frame(ps[0]) + Stream(ps[1..])
  }

  /** What the next read of one frame does, and what is left in the stream. */
  function ReadNext(s: Bytes): (Result<Bytes, FrameError>, Bytes) {
    if |s| < LENGTH_PREFIX_SIZE then (Err(UnexpectedEof), [])
    else
      var length, rest := FromBigEndian(s[..4]), s[4..];
      if length > MAX_FRAME_SIZE then (Err(TooLarge(length)), rest)
      else if |rest| < length then (Err(UnexpectedEof), [])
      else (Ok(rest[..length]), rest[length..])
  }

  /** All frames a reader gets out of `s`, and the error that ends it. */
  function Decode(s: Bytes): (seq<Bytes>, FrameError)
    decreases |s|
  {
    match ReadNext(s)
    case (Err(e), _) => ([], e)
    case (Ok(p), rest) => var (ps, e) := Decode(rest); ([p] + ps, e)
  }

  lemma ReadBack(p: Bytes, rest: Bytes)
    requires Fits(p)
    ensures ReadNext(Frame(p) + rest) == (Ok(p), rest)
  {
    var s := Frame(p) + rest;
    assert s[..4] == BigEndian(|p|) && s[4..] == p + rest;
  }

  lemma DecodeFrame(p: Bytes, rest: Bytes)
    requires Fits(p)
    ensures Decode(Frame(p) + rest) == ([p] + Decode(rest).0, Decode(rest).1)
  {
    ReadBack(p, rest);
  }

  lemma StreamCons(ps: seq<Bytes>, rest: Bytes)
    requires AllFit(ps) && ps != []
    ensures Stream(ps) + rest == Frame(ps[0]) + (Stream(ps[1..]) + rest)
  {
  }

  /** Frames are read back one by one, whatever follows them. */
  lemma {:induction false} DecodeStream(ps: seq<Bytes>, rest: Bytes)
    requires AllFit(ps)
    ensures Decode(Stream(ps) + rest) == (ps + Decode(rest).0, Decode(rest).1)
  {
    var ds := Decode(rest).0;
    if ps == [] {
      assert Stream(ps) + rest == rest && ps + ds == ds;
    } else {
      var more := Stream(ps[1..]) + rest;
      calc {
        Decode(Stream(ps) + rest);
        { StreamCons(ps, rest); }
        Decode(Frame(ps[0]) + more);
        { DecodeFrame(ps[0], more); }
        ([ps[0]] + Decode(more).0, Decode(more).1);
        { DecodeStream(ps[1..], rest); }
        ([ps[0]] + (ps[1..] + ds), Decode(rest).1);
        { assert [ps[0]] + (ps[1..] + ds) == ps + ds; }
        (ps + ds, Decode(rest).1);
      }
    }
  }

  /** The whole list comes back, and the reader stops at the end of the stream. */
  lemma RoundTrip(ps: seq<Bytes>)
    requires AllFit(ps)
    ensures Decode(Stream(ps)) == (ps, UnexpectedEof)
  {
    DecodeStream(ps, []);
    assert Stream(ps) + [] == Stream(ps) && ps + [] == ps;
  }

  lemma DecodeShort(p: Bytes, k: nat)
    requires Fits(p) && k < |Frame(p)|
    ensures Decode(Frame(p)[..k]) == ([], UnexpectedEof)
  {
    if k >= 4 {
      assert Frame(p)[..k][..4] == BigEndian(|p|);
    }
  }

  /** `n` frames are complete in the first `k` bytes of the stream, and no more. */
  ghost predicate Complete(ps: seq<Bytes>, k: nat, n: nat)
    requires AllFit(ps)
  {
    n < |ps| && |Stream(ps[..n])| <= k < |Stream(ps[..n + 1])|
  }

  /** The cut is inside the first frame. */
  lemma CutFirst(ps: seq<Bytes>, k: nat)
    requires AllFit(ps) && ps != [] && k < |Frame(ps[0])|
    ensures Complete(ps, k, 0) && Decode(Stream(ps)[..k]) == ([], UnexpectedEof)
  {
    assert Stream(ps) == Frame(ps[0]) + Stream(ps[1..]);
    assert Stream(ps)[..k] == Frame(ps[0])[..k];
    DecodeShort(ps[0], k);
    StreamPrefix(ps, 0);
  }

  /** The cut is behind the first frame: what holds of the rest holds of all. */
  lemma CutLater(ps: seq<Bytes>, k: nat, m: nat)
    requires AllFit(ps) && ps != [] && |Frame(ps[0])| <= k < |Stream(ps)|
    requires Complete(ps[1..], k - |Frame(ps[0])|, m)
    ensures Complete(ps, k, m + 1)
    ensures Stream(ps)[..k] == Frame(ps[0]) + Stream(ps[1..])[..k - |Frame(ps[0])|]
  {
    assert Stream(ps) == Frame(ps[0]) + Stream(ps[1..]);
    StreamPrefix(ps, m);
    StreamPrefix(ps, m + 1);
  }

  /**
   Cutting the stream anywhere yields exactly the frames that are complete in
   what is left, and then an end-of-stream error; never a wrong frame.
   */
  lemma {:induction false} Truncation(ps: seq<Bytes>, k: nat) returns (n: nat)
    requires AllFit(ps) && k < |Stream(ps)|
    ensures Complete(ps, k, n)
    ensures Decode(Stream(ps)[..k]) == (ps[..n], UnexpectedEof)
  {
    var p := ps[0];
    if k < |Frame(p)| {
      n := 0;
      CutFirst(ps, k);
    } else {
      var rest := Stream(ps[1..])[..k - |Frame(p)|];
      assert |Stream(ps)| == |Frame(p)| + |Stream(ps[1..])|;
      var m := Truncation(ps[1..], k - |Frame(p)|);
      n := m + 1;
      CutLater(ps, k, m);
      DecodeFrame(p, rest);
      assert [p] + ps[1..][..m] == ps[..n];
    }
  }

  lemma StreamPrefix(ps: seq<Bytes>, n: nat)
    requires AllFit(ps) && n < |ps|
    ensures |Stream(ps[..n + 1])| == |Frame(ps[0])| + |Stream(ps[1..][..n])|
  {
    assert ps[..n + 1][1..] == ps[1..][..n];
  }

  lemma ReadIsFrame(s: Bytes)
    requires ReadNext(s).0.Ok?
    ensures var (r, rest) := ReadNext(s); Fits(r.value) && s == Frame(r.value) + rest
  {
    var (r, rest) := ReadNext(s);
    BigEndianOf(s[..4]);
    assert s == s[..4] + s[4..];
    assert s[4..] == r.value + rest;
  }

  /** Conversely, nothing else decodes to that list: what was read is an encoded prefix of the stream. */
  lemma {:induction false} DecodedIsEncoded(s: Bytes)
    ensures AllFit(Decode(s).0) && Stream(Decode(s).0) <= s
    decreases |s|
  {
    var (r, rest) := ReadNext(s);
    if r.Ok? {
      ReadIsFrame(s);
      DecodedIsEncoded(rest);
      var ps := Decode(rest).0;
      assert ([r.value] + ps)[1..] == ps;
      StreamCons([r.value] + ps, []);
    }
  }

  /** Appending a frame to a stream of frames. */
  lemma {:induction false} StreamAppend(ps: seq<Bytes>, p: Bytes)
    requires AllFit(ps) && Fits(p)
    ensures AllFit(ps + [p]) && Stream(ps + [p]) == Stream(ps) + Frame(p)
  {
    if ps == [] {
      assert ps + [p] == [p] && [p][1..] == [];
      assert Stream([p]) == Frame(p) + Stream([]);
    } else {
      StreamAppend(ps[1..], p);
      assert (ps + [p])[1..] == ps[1..] + [p];
    }
  }

  // ---- the operations ----

  method EncodeFrame(payload: Bytes) returns (r: Result<Bytes, FrameError>)
    ensures Fits(payload) ==> r == Ok(Frame(payload))
    ensures !Fits(payload) ==> r == Err(TooLarge(|payload|))
  {
    if |payload| > MAX_FRAME_SIZE {
      return Err(TooLarge(|payload|));
    }
    var frame: Bytes := [];
    frame := frame + BigEndian(|payload|);
    frame := frame + payload;
    assert frame == Frame(payload);
    return Ok(frame);
  }

  /** A connected stream: `data` is everything the peer has sent or will send. */
  class Reader {
    var data: Bytes

    constructor (data: Bytes)
      ensures this.data == data
    {
      this.data := data;
    }

    method ReadExact(n: nat) returns (r: Option<Bytes>)
      modifies this
      ensures n <= |old(data)| ==> r == Some(old(data)[..n]) && data == old(data)[n..]
      ensures n > |old(data)| ==> r == None && data == []
    {
      if n <= |data| {
        r := Some(data[..n]);
        data := data[n..];
      } else {
        r := None;
        data := [];
      }
    }

    method ReadFrame() returns (r: Result<Bytes, FrameError>)
      modifies this
      ensures (r, data) == ReadNext(old(data))
      // The first four bytes, most significant first, are the length; it is checked before anything is read.
      ensures |old(data)| < 4 ==> r == Err(UnexpectedEof) && data == []
      ensures |old(data)| >= 4 ==>
                var s := old(data);
                var n := s[0] as nat * 0x100_0000 + s[1] as nat * 0x1_0000 + s[2] as nat * 0x100 + s[3] as nat;
                && (n > MAX_FRAME_SIZE ==> r == Err(TooLarge(n)) && data == s[4..])
                && (|s| - 4 < n <= MAX_FRAME_SIZE ==> r == Err(UnexpectedEof) && data == [])
                && (n <= MAX_FRAME_SIZE && n <= |s| - 4 ==> r == Ok(s[4..4 + n]) && data == s[4 + n..])
    {
      var prefix := ReadExact(LENGTH_PREFIX_SIZE);
      if prefix.None? {
        return Err(UnexpectedEof);
      }
      var length := FromBigEndian(prefix.value);
      if length > MAX_FRAME_SIZE {
        return Err(TooLarge(length));
      }
      ghost var s := old(data);
      assert length <= |s| - 4 ==> s[4..][..length] == s[4..4 + length] && s[4..][length..] == s[4 + length..];
      var payload := ReadExact(length);
      if payload.None? {
        return Err(UnexpectedEof);
      }
      return Ok(payload.value);
    }

    /** Reading until it fails. */
    method ReadAll() returns (ps: seq<Bytes>, end: FrameError)
      modifies this
      ensures (ps, end) == Decode(old(data))
    {
      ps := [];
      assert ps + Decode(data).0 == Decode(data).0;
      while true
        invariant Decode(old(data)) == (ps + Decode(data).0, Decode(data).1)
        decreases |data|
      {
        var r := ReadFrame();
        match r {
          case Err(e) =>
            assert ps + [] == ps;
            return ps, e;
          case Ok(p) =>
            assert ps + ([p] + Decode(data).0) == (ps + [p]) + Decode(data).0;
            ps := ps + [p];
        }
      }
    }
  }
}
