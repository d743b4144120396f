/** The discovery controller's receive buffer: how the bytes of a connection become PDUs. */
module Framing {
  newtype Byte = x: int | 0 <= x < 0x100

  type Bytes = seq<Byte>

  /** The common header: type, flags, header length, data offset, and the length of the whole PDU. */
  const HEADER_LENGTH := 8

  const SQ_HEAD_MAX := 128

  /** The length field, the last four bytes of the header, low byte first. */
  function PackageLength(b: Bytes): nat
    requires |b| >= HEADER_LENGTH
  {
    b[4] as nat + 0x100 * (b[5] as nat) + 0x1_0000 * (b[6] as nat) + 0x100_0000 * (b[7] as nat)
  }

  /** The bytes of a 32-bit number, low byte first. */
  function LittleEndian(n: nat): (b: Bytes)
    requires n < 0x1_0000_0000
    ensures |b| == 4
  {
    [(n % 256) as Byte, (n / 256 % 256) as Byte, (n / 65536 % 256) as Byte, (n / 16777216) as Byte]
  }

  /** A header of eight bytes that ends in the bytes of a number says that length, whatever else it says and whatever
      comes after it. */
  lemma LengthInHeader(first: Bytes, n: nat, more: Bytes)
    requires |first| == 4 && n < 0x1_0000_0000
    ensures PackageLength(first + LittleEndian(n) + more) == n
    ensures HasPdu(first + LittleEndian(n) + more) <==> n <= 8 + |more|
  {
    var b := first + LittleEndian(n) + more;
    assert b[4] == LittleEndian(n)[0] && b[5] == LittleEndian(n)[1] && b[6] == LittleEndian(n)[2]
             && b[7] == LittleEndian(n)[3];
  }

  /** Whole PDUs one after the other are split into just those PDUs. */
  lemma {:induction false} WholePdusAreSplit(pdus: seq<Bytes>)
    requires forall i | 0 <= i < |pdus| :: |pdus[i]| >= 8 && |pdus[i]| < 0x1_0000_0000
    requires forall i | 0 <= i < |pdus| :: pdus[i][4..8] == LittleEndian(|pdus[i]|)
    ensures Split(Concat(pdus)) == Frames(pdus, [], false)
  {
    if pdus != [] {
      var p, rest := pdus[0], Concat(pdus[1..]);
      WholePdusAreSplit(pdus[1..]);
      assert p == p[..4] + LittleEndian(|p|) + p[8..];
      LengthInHeader(p[..4], |p|, p[8..]);
      HeaderStays(p, rest);
      assert (p + rest)[..|p|] == p && (p + rest)[|p|..] == rest;
      assert [p] + pdus[1..] == pdus;
    }
  }

  lemma HeaderStays(a: Bytes, b: Bytes)
    requires |a| >= HEADER_LENGTH
    ensures PackageLength(a + b) == PackageLength(a)
  {
  }

  predicate HasPdu(b: Bytes) {
    |b| >= HEADER_LENGTH && |b| >= PackageLength(b)
  }

  /** The next PDU has length zero: taking it off leaves the buffer as it is. */
  predicate Stuck(b: Bytes) {
    |b| >= HEADER_LENGTH && PackageLength(b) == 0
  }

  /** What a receive comes to: all PDUs handled and the rest kept, or a PDU of length zero in front. */
  datatype Frames = Frames(pdus: seq<Bytes>, rest: Bytes, stuck: bool)

  /** The PDUs of a byte stream. */
  function Split(b: Bytes): Frames
    decreases |b|
  {
    if Stuck(b) then Frames([], b, true)
    else if !HasPdu(b) then Frames([], b, false)
    else
      var n := PackageLength(b);
      var f := Split(b[n..]);
      f.(pdus := [b[..n]] + f.pdus)
  }

  function Concat(pdus: seq<Bytes>): Bytes {
    if pdus == [] then [] else pdus[0] + Concat(pdus[1..])
  }

  /** Nothing is lost, nothing is made up: the PDUs and the rest, put together, are the input. */
  lemma {:induction false} SplitKeepsBytes(b: Bytes)
    ensures var f := Split(b); Concat(f.pdus) + f.rest == b
    decreases |b|
  {
    if !Stuck(b) && HasPdu(b) {
      var n := PackageLength(b);
      SplitKeepsBytes(b[n..]);
      var f := Split(b[n..]);
      assert Split(b).pdus[1..] == f.pdus;
      assert b == b[..n] + b[n..];
    }
  }

  /** Every PDU has the length its header says, and what is left over is no whole PDU. */
  lemma {:induction false} SplitIsWellFormed(b: Bytes)
    ensures var f := Split(b);
            && (forall i | 0 <= i < |f.pdus| ::
                  |f.pdus[i]| >= HEADER_LENGTH ==> |f.pdus[i]| == PackageLength(f.pdus[i]))
            && (forall i | 0 <= i < |f.pdus| :: |f.pdus[i]| > 0)
            && (if f.stuck then Stuck(f.rest) else !HasPdu(f.rest))
    decreases |b|
  {
    if !Stuck(b) && HasPdu(b) {
      var n := PackageLength(b);
      SplitIsWellFormed(b[n..]);
    }
  }

  function Then(f: Frames, g: Frames): Frames {
    Frames(f.pdus + g.pdus, g.rest, g.stuck)
  }

  lemma Regroup(a: seq<Bytes>, b: seq<Bytes>, c: seq<Bytes>)
    ensures a + (b + c) == (a + b) + c
  {
  }

  lemma SplitAfterFirst(a: Bytes, b: Bytes)
    requires HasPdu(a) && !Stuck(a)
    ensures var n := PackageLength(a);
            var f := Split(a[n..] + b);
            Split(a + b) == f.(pdus := [a[..n]] + f.pdus)
  {
    var n := PackageLength(a);
    HeaderStays(a, b);
    assert (a + b)[..n] == a[..n] && (a + b)[n..] == a[n..] + b;
  }

  /** Bytes that arrive later only continue what was left over. */
  lemma {:induction false} SplitContinues(a: Bytes, b: Bytes)
    requires !Split(a).stuck
    ensures Split(a + b) == Then(Split(a), Split(Split(a).rest + b))
    decreases |a|
  {
    if HasPdu(a) {
      var n := PackageLength(a);
      SplitAfterFirst(a, b);
      SplitContinues(a[n..], b);
      Regroup([a[..n]], Split(a[n..]).pdus, Split(Split(a).rest + b).pdus);
    } else {
      assert [] + Split(a + b).pdus == Split(a + b).pdus;
    }
  }

  /** The stream after several receives. A stuck connection handles nothing more. */
  function Receives(chunks: seq<Bytes>): Frames {
    if chunks == [] then Frames([], [], false)
    else
      var f := Receives(chunks[..|chunks| - 1]);
      if f.stuck then f.(rest := f.rest + chunks[|chunks| - 1])
      else Then(f, Split(f.rest + chunks[|chunks| - 1]))
  }

  lemma {:induction false} StuckStays(a: Bytes, b: Bytes)
    requires Split(a).stuck
    ensures Split(a + b) == Split(a).(rest := Split(a).rest + b)
    decreases |a|
  {
    if Stuck(a) {
      HeaderStays(a, b);
    } else {
      SplitAfterFirst(a, b);
      StuckStays(a[PackageLength(a)..], b);
    }
  }

  lemma ConcatLast(chunks: seq<Bytes>)
    requires chunks != []
    ensures Concat(chunks) == Concat(chunks[..|chunks| - 1]) + chunks[|chunks| - 1]
  {
    if |chunks| > 1 {
      ConcatLast(chunks[1..]);
      assert chunks[1..][..|chunks| - 2] == chunks[..|chunks| - 1][1..];
      assert chunks[..|chunks| - 1][0] == chunks[0];
    }
  }

  /** Framing does not depend on how the stream is cut into receives: the PDUs handled and the bytes left over
      are those of one receive of everything. */
  lemma {:induction false} ChunksDoNotMatter(chunks: seq<Bytes>)
    ensures Receives(chunks) == Split(Concat(chunks))
  {
    if chunks != [] {
      var init, last := chunks[..|chunks| - 1], chunks[|chunks| - 1];
      ConcatLast(chunks);
      ChunksDoNotMatter(init);
      if Split(Concat(init)).stuck {
        StuckStays(Concat(init), last);
      } else {
        SplitContinues(Concat(init), last);
      }
    }
  }

  /** The queue head after a number of PDUs, counted from 1 to the maximum and round again. */
  function Head(pdus: nat): nat {
    if pdus == 0 then 0 else (pdus - 1) % SQ_HEAD_MAX + 1
  }

  lemma HeadStep(pdus: nat)
    ensures Head(pdus + 1) == if Head(pdus) + 1 > SQ_HEAD_MAX then 1 else Head(pdus) + 1
    ensures pdus > 0 ==> 1 <= Head(pdus) <= 128 && Head(pdus) % 128 == pdus % 128
  {
  }

  class Connection {
    var recvBuffer: Bytes
    var sqHeadPtr: nat
    /** The PDUs handled so far. */
    var handled: seq<Bytes>
    var stuck: bool

    constructor ()
      ensures Valid([])
    {
      recvBuffer, sqHeadPtr, handled, stuck := [], 0, [], false;
    }

    /** The connection after the receives `chunks`. */
    ghost predicate Valid(chunks: seq<Bytes>)
      reads this
    {
      Frames(handled, recvBuffer, stuck) == Receives(chunks) && sqHeadPtr == Head(|handled|)
    }

    /** One receive: appends to the buffer and takes whole PDUs off its front. With a length field of zero the
        source takes empty PDUs off without end; here the connection is then marked as stuck. */
    method Receive(ghost chunks: seq<Bytes>, message: Bytes)
      requires Valid(chunks)
      modifies this
      ensures Valid(chunks + [message])
      ensures Frames(handled, recvBuffer, stuck) == Receives(chunks + [message]) && sqHeadPtr == Head(|handled|)
    {
      recvBuffer := recvBuffer + message;
      assert (chunks + [message])[..|chunks + [message]| - 1] == chunks;
      if stuck { return; }
      ghost var before, all := handled, recvBuffer;
      while true
        invariant Then(Frames(handled, [], false), Split(recvBuffer)) == Then(Frames(before, [], false), Split(all))
        invariant !stuck && sqHeadPtr == Head(|handled|)
        decreases |recvBuffer|
      {
        if |recvBuffer| < HEADER_LENGTH { break; }
        var packageLength := PackageLength(recvBuffer);
        if |recvBuffer| < packageLength { break; }
        if packageLength == 0 {
          stuck := true;
          break;
        }
        var data := recvBuffer[..packageLength];
        Regroup(handled, [data], Split(recvBuffer[packageLength..]).pdus);
        recvBuffer := recvBuffer[packageLength..];
        HeadStep(|handled|);
        sqHeadPtr := sqHeadPtr + 1;
        if sqHeadPtr > SQ_HEAD_MAX { sqHeadPtr := 1; }
        handled := handled + [data];
      }
      assert handled + [] == handled;
    }
  }

  /** After any receives the connection has handled the PDUs of the whole stream and keeps the rest, and the queue
      head counts them. */
  lemma StreamDecides(handled: seq<Bytes>, rest: Bytes, stuck: bool, chunks: seq<Bytes>)
    requires Frames(handled, rest, stuck) == Receives(chunks)
    ensures Frames(handled, rest, stuck) == Split(Concat(chunks)) && Concat(handled) + rest == Concat(chunks)
  {
    ChunksDoNotMatter(chunks);
    SplitKeepsBytes(Concat(chunks));
  }
}
