/**
 The message-granular input ring buffer of the data link layer.

 Messages are stored contiguously: length byte, target address, identifier and
 data, padded to an even size. A message that does not fit behind the write
 index is preceded by a wrap marker (an impossible length byte) that accounts
 for the rest of the buffer.
 */
module Ring {
  import opened Bytes

  const MARKER: byte := 0xFF
  const OVERHEAD: nat := 2

  /**
   count: DLL_ucCharactersInRxMessageBuffer, rd: DLL_ucRxNextCharacterToRead,
   wr: DLL_ucRxMessageToWrite, off: DLL_ucRxCharToWrite,
   taken: DLL_ucDataLengthOfReceivedMessage.
   */
  datatype Ring = Ring(buf: seq<byte>, count: byte, rd: byte, wr: byte, off: byte, taken: byte)

  // ---------------------------------------------------------------- operations

  /** Room for a wrap marker is claimed when the announced frame does not fit behind wr. */
  function Wrap(n: nat, r: Ring, counter: byte): (w: Ring)
    requires |r.buf| == n && r.wr <= n
  {
    if counter > n - r.wr then
      if n - r.wr > 0 then
        r.(buf := r.buf[r.wr as int := MARKER], count := Low8(r.count + (n - r.wr)), wr := 0)
      else
        r.(wr := 0)
    else
      r
  }

  /** The two bytes received so far are stored, or overflow is reported. */
  function Open(n: nat, r: Ring, counter: byte, address: byte): (Ring, bool)
    requires |r.buf| == n && r.wr <= n && OVERHEAD < n < 128
    requires counter <= 1 || (4 <= counter <= n && counter <= n - r.wr)
  {
    if r.count > n - OVERHEAD || Low8(counter - OVERHEAD) > n - r.wr then
      (r.(off := 0), true)
    else
      (r.(buf := r.buf[r.wr as int := Low8(counter - OVERHEAD)][r.wr + 1 := address], off := 2), false)
  }

  /**
   Start of a frame for this node; a counter below 2 is the wrapped one of a frame that announces 254 or 255 bytes.
   */
  function Begin(n: nat, r: Ring, counter: byte, address: byte): (Ring, bool)
    requires |r.buf| == n && r.wr <= n && OVERHEAD < n < 128
    requires counter <= 1 || 4 <= counter <= n
  {
    Open(n, Wrap(n, r, counter), counter, address)
  }

  /** One identifier or data byte. */
  function Put(n: nat, r: Ring, b: byte): (Ring, bool)
    requires |r.buf| == n && (r.wr + r.off < n || r.count + r.off >= n)
  {
    if r.count + r.off >= n then
      (r, true)
    else
      (r.(buf := r.buf[r.wr + r.off := b], off := Low8(r.off + 1)), false)
  }

  /** Padding before a message is counted in. */
  function Align(r: Ring): Ring {
    r.(off := Low8(Even(r.off)))
  }

  /** A complete message becomes visible to the reader. */
  function Commit(r: Ring): Ring {
    var a := Align(r);
    a.(count := Low8(a.count + a.off), wr := Low8(a.wr + a.off))
  }

  /** DLL_ptReceiveMessage: true when a message starts at rd of the new state. */
  function Receive(n: nat, r: Ring): (Ring, bool)
    requires |r.buf| == n && r.rd < n < 256
  {
    if r.count == 0 then
      (r, false)
    else if r.buf[r.rd] == MARKER then
      var s := r.(count := Low8(r.count - (n - r.rd)), rd := 0);
      if s.count != 0 then (s.(taken := s.buf[0]), true) else (s, false)
    else
      (r.(taken := r.buf[r.rd]), true)
  }

  /** DLL_vReleaseDataFromReceivedMessage. */
  function Release(n: nat, r: Ring): Ring
  {
    var size := Low8(Even(Low8(r.taken + OVERHEAD)));
    if r.count >= size then
      var rd := Low8(r.rd + size);
      r.(count := r.count - size, rd := if rd >= n then 0 else rd)
    else
      r.(count := 0, rd := 0)
  }

  // ---------------------------------------------------------------- abstraction

  /** What lies between the read and the write index. */
  datatype Chunk = Message(bytes: seq<byte>) | Marker

  /** A stored frame: its length byte counts everything but itself and the address. */
  predicate IsMessage(m: seq<byte>) {
    4 <= |m| <= 255 && m[0] == |m| - OVERHEAD
  }

  function Size(n: nat, pos: nat, c: Chunk): nat
    requires pos < n
  {
    match c
    case Message(m) => Even(|m|)
    case Marker => n - pos
  }

  function After(n: nat, pos: nat, c: Chunk): (p: nat)
    requires pos < n
    ensures p < n
  {
    if pos + Size(n, pos, c) >= n then 0 else pos + Size(n, pos, c)
  }

  /** The chunks cs are stored one after the other from pos on. */
  ghost predicate Laid(n: nat, buf: seq<byte>, pos: nat, cs: seq<Chunk>)
    requires |buf| == n
    decreases |cs|
  {
    pos < n &&
    (cs == [] ||
     ((match cs[0]
       case Message(m) => IsMessage(m) && pos + Even(|m|) <= n && buf[pos..pos + |m|] == m
       case Marker => 0 < pos && buf[pos] == MARKER)
      && Laid(n, buf, After(n, pos, cs[0]), cs[1..])))
  }

  /** Buffer cells taken by the chunks. */
  ghost function Total(n: nat, pos: nat, cs: seq<Chunk>): nat
    requires pos < n
    decreases |cs|
  {
    if cs == [] then 0 else Size(n, pos, cs[0]) + Total(n, After(n, pos, cs[0]), cs[1..])
  }

  /** Where the next chunk would start. */
  ghost function End(n: nat, pos: nat, cs: seq<Chunk>): (p: nat)
    requires pos < n
    ensures p < n
    decreases |cs|
  {
    if cs == [] then pos else End(n, After(n, pos, cs[0]), cs[1..])
  }

  /** The messages among the chunks: the queue the reader is promised. */
  function Messages(cs: seq<Chunk>): seq<seq<byte>> {
    if cs == [] then []
    else if cs[0].Message? then [cs[0].bytes] + Messages(cs[1..])
    else Messages(cs[1..])
  }

  /** A usable buffer length: even, and small enough for the uint8_t count of markers and messages. */
  predicate Length(n: nat) {
    4 <= n < 128 && IsEven(n)
  }

  /** Distance from p forward to w around the buffer. */
  function Ahead(n: nat, p: nat, w: nat): int {
    if w >= p then w - p else w + n - p
  }

  /** The ring state r stores exactly the chunks cs. */
  ghost predicate Stores(n: nat, r: Ring, cs: seq<Chunk>) {
    && Length(n) && |r.buf| == n
    && r.rd < n && IsEven(r.rd) && r.wr <= n && IsEven(r.wr) && IsEven(r.count)
    && Laid(n, r.buf, r.rd, cs)
    && r.count == Total(n, r.rd, cs)
    && End(n, r.rd, cs) == (if r.wr == n then 0 else r.wr)
    && (r.count <= n || r.wr == 0)
  }

  /** The first off bytes of the frame m have been written behind wr without touching stored cells. */
  ghost predicate Partial(n: nat, r: Ring, m: seq<byte>) {
    && |r.buf| == n && r.wr + |m| <= n
    && r.off == |m|
    && r.buf[r.wr..r.wr + |m|] == m
    && r.count + |m| <= n
  }

  // ---------------------------------------------------------------- layout lemmas

  lemma Parity(a: nat, b: nat)
    requires IsEven(a) && IsEven(b)
    ensures IsEven(a + b) && (a >= b ==> IsEven(a - b)) && IsEven(0)
  {
    IsEvenIsMod2(a);
    IsEvenIsMod2(b);
    IsEvenIsMod2(a + b);
    if a >= b {
      IsEvenIsMod2(a - b);
    }
  }

  lemma Aligned(n: nat, p: nat, k: nat)
    requires IsEven(n) && IsEven(p) && p + k <= n
    ensures p + Even(k) <= n && IsEven(p + Even(k))
  {
    IsEvenIsMod2(n);
    IsEvenIsMod2(p);
    IsEvenIsMod2(k);
    IsEvenIsMod2(p + Even(k));
  }

  lemma {:induction false} EndAhead(n: nat, buf: seq<byte>, pos: nat, cs: seq<Chunk>)
    requires |buf| == n && Laid(n, buf, pos, cs) && Total(n, pos, cs) <= n
    ensures End(n, pos, cs) ==
      (if pos + Total(n, pos, cs) >= n then pos + Total(n, pos, cs) - n else pos + Total(n, pos, cs))
    decreases |cs|
  {
    if cs == [] {
    } else {
      EndAhead(n, buf, After(n, pos, cs[0]), cs[1..]);
    }
  }

  /** Writing a cell beyond the stored ones leaves the stored chunks alone. */
  lemma {:induction false} WriteKeeps(n: nat, buf: seq<byte>, pos: nat, cs: seq<Chunk>, w: nat, b: byte)
    requires |buf| == n && Laid(n, buf, pos, cs) && w < n
    requires Total(n, pos, cs) <= Ahead(n, pos, w)
    ensures Laid(n, buf[w := b], pos, cs)
    decreases |cs|
  {
    if cs == [] {
    } else {
      var size := Size(n, pos, cs[0]);
      if cs[0].Message? {
        var m := cs[0].bytes;
        assert buf[w := b][pos..pos + |m|] == buf[pos..pos + |m|];
      }
      assert Ahead(n, After(n, pos, cs[0]), w) == Ahead(n, pos, w) - size;
      WriteKeeps(n, buf, After(n, pos, cs[0]), cs[1..], w, b);
    }
  }

  lemma {:induction false} AppendChunk(n: nat, buf: seq<byte>, pos: nat, cs: seq<Chunk>, c: Chunk)
    requires |buf| == n && Laid(n, buf, pos, cs) && Laid(n, buf, End(n, pos, cs), [c])
    ensures Laid(n, buf, pos, cs + [c])
    ensures Total(n, pos, cs + [c]) == Total(n, pos, cs) + Size(n, End(n, pos, cs), c)
    ensures End(n, pos, cs + [c]) == After(n, End(n, pos, cs), c)
    ensures Messages(cs + [c]) == Messages(cs) + Messages([c])
    decreases |cs|
  {
    if cs == [] {
      assert cs + [c] == [c];
    } else {
      assert (cs + [c])[1..] == cs[1..] + [c];
      AppendChunk(n, buf, After(n, pos, cs[0]), cs[1..], c);
    }
  }

  /** Writing at or behind the write index of a buffer that is not full is safe. */
  lemma WriteBehind(n: nat, r: Ring, cs: seq<Chunk>, k: nat, b: byte)
    requires Stores(n, r, cs) && r.count + k < n && r.wr + k < n
    ensures Laid(n, r.buf[r.wr + k := b], r.rd, cs)
  {
    EndAhead(n, r.buf, r.rd, cs);
    WriteKeeps(n, r.buf, r.rd, cs, r.wr + k, b);
  }

  // ---------------------------------------------------------------- the writer

  /** The chunk a wrap adds to the stored ones. */
  function WrapChunks(n: nat, r: Ring, counter: byte): seq<Chunk>
    requires r.wr <= n
  {
    if counter > n - r.wr && r.wr < n then [Marker] else []
  }

  /** The wrap marker would land on an unread length byte: the buffer is exactly full. */
  predicate Hazard(n: nat, r: Ring, counter: byte)
    requires |r.buf| == n && r.wr <= n
  {
    r.count == n && r.wr < n && counter > n - r.wr && r.buf[r.wr] != MARKER
  }

  lemma MarkerLaid(n: nat, r: Ring, cs: seq<Chunk>)
    requires Stores(n, r, cs) && 0 < r.wr < n && (r.count < n || r.buf[r.wr] == MARKER) && r.count <= n
    ensures var buf := r.buf[r.wr as int := MARKER];
      Laid(n, buf, r.rd, cs) && Laid(n, buf, r.wr, [Marker])
  {
    hide IsEven, Total, End;
    var buf := r.buf[r.wr as int := MARKER];
    if r.count < n {
      WriteBehind(n, r, cs, 0, MARKER);
    } else {
      assert buf == r.buf;
    }
    assert Laid(n, buf, After(n, r.wr, Marker), []);
  }

  lemma MarkerAppends(n: nat, r: Ring, cs: seq<Chunk>)
    requires Stores(n, r, cs) && 0 < r.wr < n && (r.count < n || r.buf[r.wr] == MARKER) && r.count <= n
    ensures Stores(n, r.(buf := r.buf[r.wr as int := MARKER], count := Low8(r.count + (n - r.wr)),
                   wr := 0), cs + [Marker])
  {
    hide IsEven, Laid, Total, End;
    MarkerLaid(n, r, cs);
    Parity(n, r.wr);
    Parity(r.count, n - r.wr);
    AppendChunk(n, r.buf[r.wr as int := MARKER], r.rd, cs, Marker);
  }

  /** A marker on an unread length byte destroys the stored sequence. */
  lemma HazardBreaks(n: nat, r: Ring, cs: seq<Chunk>, counter: byte)
    requires Stores(n, r, cs) && 4 <= counter <= n && Hazard(n, r, counter)
    ensures !Stores(n, Wrap(n, r, counter), cs + [Marker])
    ensures cs != [] && cs[0].Message? && r.rd == r.wr
    ensures Receive(n, Wrap(n, r, counter)).0.rd == 0 < r.rd
  {
    EndAhead(n, r.buf, r.rd, cs);
    assert (cs + [Marker])[0] == cs[0];
  }

  /** A wrap keeps every stored message exactly when it is not the hazard. */
  lemma WrapStores(n: nat, r: Ring, cs: seq<Chunk>, counter: byte)
    requires Stores(n, r, cs) && (counter <= 1 || 4 <= counter <= n)
    ensures Stores(n, Wrap(n, r, counter), cs + WrapChunks(n, r, counter)) <==> !Hazard(n, r, counter)
    ensures Messages(cs + WrapChunks(n, r, counter)) == Messages(cs)
  {
    if Hazard(n, r, counter) {
      HazardBreaks(n, r, cs, counter);
    } else if WrapChunks(n, r, counter) == [] {
      assert cs + [] == cs;
    } else {
      MarkerAppends(n, r, cs);
    }
    if WrapChunks(n, r, counter) == [] {
      assert cs + [] == cs;
    } else {
      AppendMessages(cs, Marker);
    }
  }

  lemma {:induction false} AppendMessages(cs: seq<Chunk>, c: Chunk)
    ensures Messages(cs + [c]) == Messages(cs) + Messages([c])
  {
    if cs == [] {
      assert cs + [c] == [c];
    } else {
      assert (cs + [c])[1..] == cs[1..] + [c];
      AppendMessages(cs[1..], c);
    }
  }

  /** Opening a frame leaves the stored messages alone and has written its first two bytes. */
  lemma BeginStores(n: nat, r: Ring, cs: seq<Chunk>, counter: byte, address: byte)
    requires Stores(n, r, cs) && (counter <= 1 || 4 <= counter <= n) && !Hazard(n, r, counter)
    ensures var (b, overflow) := Begin(n, r, counter, address);
      var cs' := cs + WrapChunks(n, r, counter);
      && Stores(n, b, cs') && Messages(cs') == Messages(cs)
      && (!overflow ==> counter >= 4 && Partial(n, b, [counter - OVERHEAD, address]) && b.wr + counter <= n)
  {
    hide IsEven, Even, Messages, Laid, Total, End, Hazard;
    WrapStores(n, r, cs, counter);
    var w := Wrap(n, r, counter);
    var cs' := cs + WrapChunks(n, r, counter);
    if w.count <= n - OVERHEAD && counter >= 4 {
      WriteBehind(n, w, cs', 0, counter - OVERHEAD);
      WriteBehind(n, w.(buf := w.buf[w.wr as int := counter - OVERHEAD]), cs', 1, address);
    }
  }

  /**
   A frame is turned away at its start exactly if the first two bytes find no room beside everything unread, the marker
   of a wrap included, or what it announces does not fit behind the write index. The marker is 0xFF, at the old index.
   */
  lemma BeginExact(n: nat, r: Ring, counter: byte, address: byte)
    requires |r.buf| == n && r.wr <= n && 4 <= n < 128 && r.count <= n && 4 <= counter <= n
    ensures var (b, overflow) := Begin(n, r, counter, address);
      var wraps := r.wr + counter > n;
      var unread := r.count as int + if wraps then n - r.wr else 0;
      && (overflow <==> unread + 2 > n)
      && b.count == unread && b.wr == (if wraps then 0 else r.wr) && b.rd == r.rd
      && (wraps && 2 <= r.wr < n ==> b.buf[r.wr] == 0xFF)
      && (!overflow ==> b.buf[b.wr] == counter - 2 && b.buf[b.wr + 1] == address && b.off == 2)
  {
  }

  /** Storing a byte leaves the stored messages alone and extends the partial frame. */
  lemma PutStores(n: nat, r: Ring, cs: seq<Chunk>, m: seq<byte>, b: byte)
    requires Stores(n, r, cs) && Partial(n, r, m) && r.wr + |m| < n
    ensures var (p, overflow) := Put(n, r, b);
      Stores(n, p, cs) && (!overflow ==> Partial(n, p, m + [b]))
  {
    if r.count + r.off < n {
      WriteBehind(n, r, cs, r.off, b);
      var p := Put(n, r, b).0;
      assert p.buf[r.wr..r.wr + |m| + 1] == r.buf[r.wr..r.wr + |m|] + [b];
    }
  }

  lemma MessageLaid(n: nat, r: Ring, m: seq<byte>)
    requires Length(n) && Partial(n, r, m) && IsMessage(m) && IsEven(r.wr)
    ensures Laid(n, r.buf, r.wr, [Message(m)])
  {
    Aligned(n, r.wr, |m|);
    assert Laid(n, r.buf, After(n, r.wr, Message(m)), []);
  }

  /** Committing a completely stored frame appends exactly that frame to the queue. */
  lemma CommitStores(n: nat, r: Ring, cs: seq<Chunk>, m: seq<byte>)
    requires Stores(n, r, cs) && Partial(n, r, m) && IsMessage(m)
    ensures Stores(n, Commit(r), cs + [Message(m)])
    ensures Messages(cs + [Message(m)]) == Messages(cs) + [m]
  {
    hide IsEven;
    MessageLaid(n, r, m);
    AppendChunk(n, r.buf, r.rd, cs, Message(m));
    Aligned(n, r.count, |m|);
    Aligned(n, r.wr, |m|);
  }

  // ---------------------------------------------------------------- the reader

  /** The chunks left once the reader has skipped a wrap marker. */
  function Skip(cs: seq<Chunk>): seq<Chunk> {
    if cs != [] && cs[0].Marker? then cs[1..] else cs
  }

  lemma SkipStores(n: nat, r: Ring, cs: seq<Chunk>)
    requires Stores(n, r, cs) && cs != [] && cs[0].Marker?
    ensures r.count >= n - r.rd > 0 && r.buf[r.rd] == MARKER
    ensures Stores(n, r.(count := r.count - (n - r.rd), rd := 0), cs[1..])
    ensures cs[1..] != [] ==> cs[1].Message?
  {
    Parity(n, r.rd);
    Parity(r.count, n - r.rd);
    assert Laid(n, r.buf, 0, cs[1..]);
  }

  lemma HeadMessage(n: nat, r: Ring, cs: seq<Chunk>)
    requires Stores(n, r, cs) && cs != [] && cs[0].Message?
    ensures var m := cs[0].bytes;
      && r.count > 0 && IsMessage(m) && r.buf[r.rd] == m[0] < MARKER
      && r.rd + |m| <= n && r.buf[r.rd..r.rd + |m|] == m
    ensures Messages(cs) == [cs[0].bytes] + Messages(cs[1..])
  {
    assert r.buf[r.rd..r.rd + |cs[0].bytes|][0] == r.buf[r.rd];
  }

  lemma TakenKeeps(n: nat, r: Ring, cs: seq<Chunk>, taken: byte)
    requires Stores(n, r, cs)
    ensures Stores(n, r.(taken := taken), cs)
  {
    hide Laid, Total, End;
  }

  lemma EmptyStores(n: nat, r: Ring)
    requires Stores(n, r, [])
    ensures r.count == 0
  {
  }

  lemma StoresWellFormed(n: nat, r: Ring, cs: seq<Chunk>)
    requires Stores(n, r, cs)
    ensures |r.buf| == n && r.rd < n < 128 && r.wr <= n
  {
  }

  /** The reader is handed exactly the oldest stored message, and never a wrap marker. */
  lemma ReceiveStores(n: nat, r: Ring, cs: seq<Chunk>)
    requires Stores(n, r, cs)
    ensures |r.buf| == n && r.rd < n < 256 && Receive(n, r).0.count <= r.count
    ensures var (s, found) := Receive(n, r);
      && Stores(n, s, Skip(cs)) && Messages(Skip(cs)) == Messages(cs)
      && (found <==> Messages(cs) != [])
      && (found ==>
            var m := Messages(cs)[0];
            Skip(cs) != [] && Skip(cs)[0] == Message(m) && s.taken == m[0]
            && s.rd + |m| <= n && s.buf[s.rd..s.rd + |m|] == m)
  {
    hide IsEven, Even, Stores, Laid, Total, End;
    StoresWellFormed(n, r, cs);
    if cs == [] {
      EmptyStores(n, r);
    } else if cs[0].Marker? {
      SkipStores(n, r, cs);
      if cs[1..] != [] {
        HeadMessage(n, r.(count := r.count - (n - r.rd), rd := 0), cs[1..]);
        TakenKeeps(n, r.(count := r.count - (n - r.rd), rd := 0), cs[1..], r.buf[0]);
      } else {
        EmptyStores(n, r.(count := r.count - (n - r.rd), rd := 0));
      }
    } else {
      HeadMessage(n, r, cs);
      TakenKeeps(n, r, cs, r.buf[r.rd]);
    }
  }

  /** Releasing the returned message removes exactly that message; the flush branch is not taken. */
  lemma ReleaseStores(n: nat, r: Ring, cs: seq<Chunk>)
    requires Stores(n, r, cs) && cs != [] && cs[0].Message? && r.taken == cs[0].bytes[0]
    ensures Stores(n, Release(n, r), cs[1..])
    ensures Messages(cs) == [cs[0].bytes] + Messages(cs[1..])
    ensures r.count >= Low8(Even(Low8(r.taken + OVERHEAD)))
  {
    hide IsEven;
    var size := Even(|cs[0].bytes|);
    Aligned(n, 0, |cs[0].bytes|);
    Parity(r.rd, size);
    Parity(r.count, size);
  }
}
