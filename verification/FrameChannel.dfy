/** `send` and `recv` as loops over system calls that move as many bytes as they like. */
module FrameChannel {
  import opened Frames

  /** One direction of the control channel: what is sent and not yet received. */
  class Channel {
    var stream: seq<Cell>
    /** Descriptors that reached this end and were closed, or never opened here. */
    ghost var lost: seq<Fd>
    /** Descriptors that are open at this end and belong to nobody. */
    ghost var leaked: seq<Fd>

    constructor ()
      ensures stream == [] && lost == [] && leaked == []
    {
      stream, lost, leaked := [], [], [];
    }

    // ----- system calls

    /** `sendmsg`: -1 on error, otherwise how many bytes went, at least one where descriptors go with them. */
    method SendMsg(bytes: seq<Byte>, fds: seq<Fd>, first: bool) returns (n: int)
      requires |bytes| > 0 && (!first ==> fds == [])
      modifies this`stream
      ensures -1 <= n <= |bytes| && (first ==> n != 0)
      ensures stream == old(stream) + if n <= 0 then [] else if first then Attached(bytes[..n], fds) else Plain(bytes[..n])
    {
      n :| -1 <= n <= |bytes| && (first ==> n != 0);
      if n > 0 {
        stream := stream + if first then Attached(bytes[..n], fds) else Plain(bytes[..n]);
      }
    }

    /**
     `recvmsg` into a buffer of `room` bytes: some of what is next, and its
     descriptors, cut off where the room for them ends; nothing at the end.
     */
    method RecvMsg(room: nat) returns (cells: seq<Cell>, truncated: bool)
      requires room > 0
      modifies this`stream, this`lost
      ensures |cells| <= room && old(stream) == cells + stream
      ensures cells == [] <==> old(stream) == []
      ensures truncated <==> |AllFds(cells)| > MAX_FDS
      ensures lost == old(lost) + if truncated then AllFds(cells)[MAX_FDS..] else []
    {
      cells := [];
      if stream != [] {
        var n :| 1 <= n <= room && n <= |stream|;
        cells := stream[..n];
        stream := stream[n..];
      }
      truncated := |AllFds(cells)| > MAX_FDS;
      if truncated {
        lost := lost + AllFds(cells)[MAX_FDS..];
      }
    }

    /** A plain `read`: the same, and every descriptor it passes is dropped. */
    method Read(room: nat) returns (cells: seq<Cell>)
      requires room > 0
      modifies this`stream, this`lost
      ensures |cells| <= room && old(stream) == cells + stream
      ensures cells == [] <==> old(stream) == []
      ensures lost == old(lost) + AllFds(cells)
    {
      if stream == [] {
        assert AllFds([]) == [];
        return [];
      }
      var n :| 1 <= n <= room && n <= |stream|;
      cells := stream[..n];
      lost := lost + AllFds(cells);
      stream := stream[n..];
    }

    // ----- sending

    /** The rest of a frame, one `sendmsg` after another, up to an error. */
    method SendRest(bytes: seq<Byte>, from: nat) returns (sent: nat)
      requires from <= |bytes|
      modifies this`stream
      ensures from <= sent <= |bytes|
      ensures stream == old(stream) + Plain(bytes[from..sent])
    {
      hide Plain;
      ghost var was := stream;
      sent := from;
      PlainNothing(was, bytes, from);
      while sent < |bytes|
        invariant from <= sent <= |bytes|
        invariant stream == was + Plain(bytes[from..sent])
      {
        ghost var before := stream;
        var n := SendMsg(bytes[sent..], [], false);
        if n <= 0 {
          assert stream == before;
          return;
        }
        PlainMore(was, bytes, from, sent, sent + n);
        sent := sent + n;
      }
    }

    /** `send`: all of the frame, or an error with some of it sent, or, when it is too long, none. */
    method Send(f: Frame) returns (ok: bool)
      modifies this`stream
      ensures ok ==> Sendable(f) && stream == old(stream) + Encode(f)
      ensures !ok && Sendable(f) ==> PartSent(old(stream), Encode(f), stream)
      ensures !Sendable(f) ==> !ok && stream == old(stream)
    {
      if |f.json| >= U32_LIMIT || |f.payload| >= U32_LIMIT {
        return false;
      }
      var bytes := Le32(|f.json|) + Le32(|f.payload|) + f.json + f.payload;
      assert bytes == Bytes(f);
      hide Le32, Attached, Plain, PartSent;
      ghost var was := stream;
      var n := SendMsg(bytes, f.fds, true);
      if n < 0 {
        SentPart(was, bytes, f.fds, 0);
        return false;
      }
      var sent := SendRest(bytes, n);
      SentMore(was, bytes, f.fds, n, sent);
      SentPart(was, bytes, f.fds, sent);
      ok := sent == |bytes|;
    }

    // ----- receiving

    /** `read_exact`: the next `want` bytes, or an error at the end of the stream. */
    method ReadExact(want: nat) returns (ok: bool, cells: seq<Cell>)
      modifies this`stream, this`lost
      ensures ok <==> want <= |old(stream)|
      ensures cells == old(stream)[..if ok then want else |old(stream)|] && stream == old(stream)[|cells|..]
      ensures lost == old(lost) + AllFds(cells)
    {
      cells := [];
      assert AllFds([]) == [];
      while |cells| < want
        invariant |cells| <= want && old(stream) == cells + stream
        invariant lost == old(lost) + AllFds(cells)
        decreases want - |cells|
      {
        var more := Read(want - |cells|);
        if more == [] {
          return false, cells;
        }
        AllFdsJoin(cells, more);
        cells := cells + more;
      }
      ok := true;
    }

    /**
     The header, one `recvmsg` after another, and the descriptors that come
     with it. Descriptors beyond the room for them are an error before any is
     taken in charge, so those that fit stay open and belong to nobody.
     */
    method ReadHeader() returns (bad: bool, header: seq<Cell>, fds: seq<Fd>)
      requires forall i :: 1 <= i < |stream| && i < HEADER_LEN ==> stream[i].fds == []
      modifies this
      ensures bad <==> old(stream) != [] && |old(stream)[0].fds| > MAX_FDS
      ensures |header| <= HEADER_LEN && old(stream) == header + stream
      ensures bad ==> header != [] && leaked == old(leaked) + old(stream)[0].fds[..MAX_FDS]
                      && lost == old(lost) + old(stream)[0].fds[MAX_FDS..]
      ensures !bad ==> leaked == old(leaked) && lost == old(lost)
                       && (|header| < HEADER_LEN ==> stream == [])
                       && fds == if header == [] then [] else header[0].fds
    {
      hide AllFds;
      header, fds := [], [];
      while |header| < HEADER_LEN
        invariant |header| <= HEADER_LEN && old(stream) == header + stream
        invariant fds == if header == [] then [] else header[0].fds
        invariant |fds| <= MAX_FDS && leaked == old(leaked) && lost == old(lost)
        decreases HEADER_LEN - |header|
      {
        var more, truncated := RecvMsg(HEADER_LEN - |header|);
        NoFds();
        if more == [] {
          return false, header, fds;
        }
        PlainPrefix(old(stream), header + more, stream);
        ChunkFds(header, more);
        if truncated {
          leaked := leaked + AllFds(more)[..MAX_FDS];
          return true, header + more, [];
        }
        fds := fds + AllFds(more);
        header := header + more;
      }
      bad := false;
    }

    /**
     `recv`. On a stream that attaches descriptors only where a frame begins, it
     answers as `Receive` says, whatever the calls return; and every descriptor
     it passed is handed over, closed, or left open and unowned.
     */
    method Recv() returns (r: Received)
      requires forall i :: 1 <= i < |stream| && i < HEADER_LEN ==> stream[i].fds == []
      modifies this
      ensures r == Receive(old(stream)).0 && (r != BadControl ==> stream == Receive(old(stream)).1)
      ensures exists taken :: old(stream) == taken + stream && Conserved(old(lost), old(leaked), taken, r, lost, leaked)
      ensures leaked == old(leaked) + if r == BadControl then old(stream)[0].fds[..MAX_FDS] else []
      ensures r == End ==> lost == old(lost)
      ensures r.Got? ==> lost == old(lost) + BodyFds(old(stream)[..|old(stream)| - |stream|])
    {
      hide AllFds, FromLe32, Payload, Conserved, BodyFds;
      ghost var was, closed, open := stream, lost, leaked;
      var bad, header, fds := ReadHeader();
      if bad {
        BadConserved(closed, open, was, header, stream);
        return BadControl;
      }
      if |header| < HEADER_LEN {
        lost := lost + fds;
        ShortConserved(closed, open, was, header);
        assert was == was + [];
        return if header == [] then End else Closed;
      }
      var bytes := Payload(header);
      var j, p := FromLe32(bytes[..4]), FromLe32(bytes[4..]);
      if j > MAX_JSON_LEN || p > MAX_PAYLOAD_LEN {
        lost := lost + fds;
        HeaderConserved(closed, open, was, header, TooLarge);
        return TooLarge;
      }
      PlainPrefix(was, header, stream);
      r := ReadBody(was, header, fds, j, p);
    }

    /** What `recv` does after the header. */
    method ReadBody(ghost was: seq<Cell>, header: seq<Cell>, fds: seq<Fd>, j: nat, p: nat) returns (r: Received)
      requires |header| == HEADER_LEN && was == header + stream && fds == header[0].fds && |fds| <= MAX_FDS
      requires forall i :: 1 <= i < HEADER_LEN ==> header[i].fds == []
      requires j == FromLe32(Payload(header)[..4]) <= MAX_JSON_LEN && p == FromLe32(Payload(header)[4..]) <= MAX_PAYLOAD_LEN
      modifies this`stream, this`lost
      ensures (r, stream) == Receive(was) && (r.Got? || r == Closed)
      ensures exists taken :: was == taken + stream && Conserved(old(lost), leaked, taken, r, lost, leaked)
      ensures r.Got? ==> lost == old(lost) + BodyFds(was[..|was| - |stream|])
    {
      hide AllFds, FromLe32, Payload, Conserved, BodyFds;
      ghost var body, closed := stream, lost;
      var ok, json := ReadExact(j);
      if !ok {
        lost := lost + fds;
        CutConserved(closed, leaked, was, header, json, []);
        CutBody(was, header, j, p);
        return Closed;
      }
      var payload;
      ok, payload := ReadExact(p);
      if !ok {
        lost := lost + fds;
        assert body == json + payload;
        CutConserved(closed, leaked, was, header, json, payload);
        CutBody(was, header, j, p);
        return Closed;
      }
      r := Got(Frame(Payload(json), Payload(payload), fds));
      Assembled(was, header, j, p);
      BodyParts(was, header, json, payload, stream);
      GotConserved(closed, leaked, was, header, json, payload, r.frame);
    }

    /**
     Call after call, on a stream of frames within the limits that ends after
     any number of bytes: the frames that arrived whole come back, and none of
     their descriptors is lost.
     */
    method RecvAll(ghost fs: seq<Frame>, ghost n: nat) returns (frames: seq<Frame>, last: Received)
      requires forall i :: 0 <= i < |fs| ==> Sendable(fs[i]) && Within(fs[i])
      requires n <= |EncodeAll(fs)| && stream == EncodeAll(fs)[..n]
      modifies this
      ensures frames == fs[..WholeFrames(fs, n)]
      ensures last == if n == |EncodeAll(fs[..WholeFrames(fs, n)])| then End else Closed
      ensures leaked == old(leaked) && (last == End ==> lost == old(lost))
    {
      hide Receive, BodyFds, Conserved, Encode, EncodeAll, WholeFrames, Within, Sendable;
      StreamRoundTrip(fs, n);
      ghost var left: seq<Frame>, m: nat := fs, n;
      frames := [];
      while true
        invariant forall i :: 0 <= i < |left| ==> Sendable(left[i]) && Within(left[i])
        invariant m <= |EncodeAll(left)| && stream == EncodeAll(left)[..m]
        invariant frames + ReceiveAll(stream).0 == ReceiveAll(old(stream)).0
        invariant ReceiveAll(stream).1 == ReceiveAll(old(stream)).1
        invariant lost == old(lost) && leaked == old(leaked)
        decreases |stream|
      {
        NextFrame(left, m);
        ghost var before := stream;
        last := Recv();
        if !last.Got? {
          assert ReceiveAll(before) == ([], last);
          return;
        }
        FramesTakeBytes(before);
        assert frames + ([last.frame] + ReceiveAll(stream).0) == frames + [last.frame] + ReceiveAll(stream).0;
        frames := frames + [last.frame];
        m := m - |Encode(left[0])|;
        left := left[1..];
      }
    }
  }

  /** Where the next frame of a stream begins, what `recv` makes of it, and that it loses nothing. */
  lemma NextFrame(fs: seq<Frame>, n: nat)
    requires forall i :: 0 <= i < |fs| ==> Sendable(fs[i]) && Within(fs[i])
    requires n <= |EncodeAll(fs)|
    ensures var stream := EncodeAll(fs)[..n];
            && (forall i :: 1 <= i < |stream| && i < HEADER_LEN ==> stream[i].fds == [])
            && (Receive(stream).0.Got? ==>
                  && fs != [] && |Encode(fs[0])| <= n
                  && Receive(stream) == (Got(fs[0]), EncodeAll(fs[1..])[..n - |Encode(fs[0])|])
                  && n - |Encode(fs[0])| <= |EncodeAll(fs[1..])|
                  && BodyFds(stream[..|Encode(fs[0])|]) == [] && |stream| == n)
            && Receive(stream).0 != BadControl
  {
    hide Receive, Encode;
    var stream := EncodeAll(fs)[..n];
    NothingReceived();
    if fs == [] {
      assert stream == [];
    } else if n < |Encode(fs[0])| {
      assert stream == Encode(fs[0])[..n];
      HeadersArePlain(fs[0], []);
      assert Encode(fs[0]) + [] == Encode(fs[0]);
      if n > 0 {
        CutFrame(fs[0], n);
      }
    } else {
      var rest := EncodeAll(fs[1..])[..n - |Encode(fs[0])|];
      assert stream == Encode(fs[0]) + rest;
      HeadersArePlain(fs[0], rest);
      RoundTripExactly(fs[0], rest);
      BodiesArePlain(fs[0]);
      assert stream[..|Encode(fs[0])|] == Encode(fs[0]);
    }
  }

  // ----- descriptors

  /** The descriptors sent with bytes after the header. */
  ghost function BodyFds(cells: seq<Cell>): seq<Fd> {
    if |cells| < HEADER_LEN then [] else AllFds(cells[HEADER_LEN..])
  }

  function FrameFds(r: Received): seq<Fd> {
    if r.Got? then r.frame.fds else []
  }

  /** Every descriptor sent with the bytes taken is in the frame, closed, or open and unowned. */
  ghost predicate Conserved(lost: seq<Fd>, leaked: seq<Fd>, taken: seq<Cell>, r: Received, lost': seq<Fd>, leaked': seq<Fd>) {
    multiset(lost') + multiset(leaked') + multiset(FrameFds(r)) == multiset(lost) + multiset(leaked) + multiset(AllFds(taken))
  }

  lemma NoFds()
    ensures AllFds([]) == []
  {
  }

  /** The bytes of a header after its first carry nothing, so its descriptors are the first byte's. */
  lemma HeaderFds(header: seq<Cell>)
    requires header != [] && forall i :: 1 <= i < |header| ==> header[i].fds == []
    ensures AllFds(header) == header[0].fds
  {
    AllFdsPlain(header[1..]);
  }

  /** A chunk of the header carries the first byte's descriptors if it has that byte, and none otherwise. */
  lemma ChunkFds(header: seq<Cell>, more: seq<Cell>)
    requires more != [] && forall i :: 1 <= i < |header + more| ==> (header + more)[i].fds == []
    ensures AllFds(more) == if header == [] then more[0].fds else []
  {
    var all := header + more;
    if header == [] {
      assert all == more;
      HeaderFds(more);
    } else {
      forall i | 0 <= i < |more|
        ensures more[i].fds == []
      {
        assert more[i] == all[|header| + i];
      }
      AllFdsPlain(more);
    }
  }

  lemma BadConserved(lost: seq<Fd>, leaked: seq<Fd>, was: seq<Cell>, header: seq<Cell>, stream: seq<Cell>)
    requires was == header + stream && header != [] && |header[0].fds| > MAX_FDS && |header| <= HEADER_LEN
    requires forall i :: 1 <= i < |was| && i < HEADER_LEN ==> was[i].fds == []
    ensures Conserved(lost, leaked, header, BadControl, lost + was[0].fds[MAX_FDS..], leaked + was[0].fds[..MAX_FDS])
  {
    PlainPrefix(was, header, stream);
    HeaderFds(header);
    assert was[0].fds[..MAX_FDS] + was[0].fds[MAX_FDS..] == was[0].fds;
  }

  lemma ShortConserved(lost: seq<Fd>, leaked: seq<Fd>, was: seq<Cell>, header: seq<Cell>)
    requires was == header && |header| < HEADER_LEN && forall i :: 1 <= i < |was| && i < HEADER_LEN ==> was[i].fds == []
    ensures header == [] ==> Conserved(lost, leaked, was, End, lost + [], leaked)
    ensures header != [] ==> Conserved(lost, leaked, was, Closed, lost + header[0].fds, leaked)
    ensures lost + [] == lost
  {
    NoFds();
    if header != [] {
      HeaderFds(header);
    }
  }

  lemma HeaderConserved(lost: seq<Fd>, leaked: seq<Fd>, was: seq<Cell>, header: seq<Cell>, r: Received)
    requires |header| == HEADER_LEN && header <= was && !r.Got?
    requires forall i :: 1 <= i < |was| && i < HEADER_LEN ==> was[i].fds == []
    ensures Conserved(lost, leaked, header, r, lost + header[0].fds, leaked)
  {
    assert forall i :: 0 <= i < |header| ==> header[i] == was[i];
    HeaderFds(header);
  }

  lemma ThreeParts(header: seq<Cell>, json: seq<Cell>, payload: seq<Cell>)
    requires |header| == HEADER_LEN && forall i :: 1 <= i < HEADER_LEN ==> header[i].fds == []
    ensures AllFds(header + (json + payload)) == header[0].fds + (AllFds(json) + AllFds(payload))
  {
    HeaderFds(header);
    AllFdsJoin(header, json + payload);
    AllFdsJoin(json, payload);
  }

  lemma CutConserved(lost: seq<Fd>, leaked: seq<Fd>, was: seq<Cell>, header: seq<Cell>, json: seq<Cell>, payload: seq<Cell>)
    requires |header| == HEADER_LEN && was == header + (json + payload)
    requires forall i :: 1 <= i < HEADER_LEN ==> header[i].fds == []
    ensures Conserved(lost, leaked, was, Closed, lost + AllFds(json) + AllFds(payload) + header[0].fds, leaked)
    ensures payload == [] ==> Conserved(lost, leaked, was, Closed, lost + AllFds(json) + header[0].fds, leaked)
  {
    ThreeParts(header, json, payload);
    NoFds();
  }

  lemma GotConserved(lost: seq<Fd>, leaked: seq<Fd>, was: seq<Cell>, header: seq<Cell>, json: seq<Cell>, payload: seq<Cell>,
                     frame: Frame)
    requires |header| == HEADER_LEN && frame.fds == header[0].fds
    requires forall i :: 1 <= i < HEADER_LEN ==> header[i].fds == []
    ensures Conserved(lost, leaked, header + (json + payload), Got(frame), lost + AllFds(json) + AllFds(payload), leaked)
  {
    ThreeParts(header, json, payload);
  }

  /** The body ends before the frame does. */
  lemma CutBody(was: seq<Cell>, header: seq<Cell>, j: nat, p: nat)
    requires |header| == HEADER_LEN && header <= was && |header[0].fds| <= MAX_FDS && |was| < HEADER_LEN + j + p
    requires j == FromLe32(Payload(header)[..4]) <= MAX_JSON_LEN && p == FromLe32(Payload(header)[4..]) <= MAX_PAYLOAD_LEN
    ensures Receive(was) == (Closed, [])
  {
    assert was[..HEADER_LEN] == header && was[0] == header[0];
    hide FromLe32, Payload;
  }

  /** The parts that `recv` reads are what `Receive` makes of the stream. */
  lemma Assembled(was: seq<Cell>, header: seq<Cell>, j: nat, p: nat)
    requires |header| == HEADER_LEN && header <= was && |header[0].fds| <= MAX_FDS && |was| >= HEADER_LEN + j + p
    requires j == FromLe32(Payload(header)[..4]) <= MAX_JSON_LEN && p == FromLe32(Payload(header)[4..]) <= MAX_PAYLOAD_LEN
    ensures var body := was[HEADER_LEN..];
            Receive(was) == (Got(Frame(Payload(body[..j]), Payload(body[j..][..p]), header[0].fds)), body[j..][p..])
  {
    assert was[..HEADER_LEN] == header && was[0] == header[0];
    hide FromLe32, Payload;
    TwoSlices(was[HEADER_LEN..], j, p);
  }

  lemma TwoSlices(body: seq<Cell>, j: nat, p: nat)
    requires j + p <= |body|
    ensures body[j..][..p] == body[j..j + p] && body[j..][p..] == body[j + p..]
  {
  }

  lemma BodyParts(was: seq<Cell>, header: seq<Cell>, json: seq<Cell>, payload: seq<Cell>, rest: seq<Cell>)
    requires |header| == HEADER_LEN && was == header + (json + (payload + rest))
    ensures was == header + (json + payload) + rest
    ensures BodyFds(was[..|was| - |rest|]) == AllFds(json) + AllFds(payload)
  {
    hide AllFds;
    assert was == header + (json + payload) + rest;
    assert was[..|was| - |rest|] == header + (json + payload);
    assert (header + (json + payload))[HEADER_LEN..] == json + payload;
    AllFdsJoin(json, payload);
  }

  lemma {:induction false} AllFdsJoin(a: seq<Cell>, b: seq<Cell>)
    ensures AllFds(a + b) == AllFds(a) + AllFds(b)
    decreases |a|
  {
    if a == [] {
      assert a + b == b;
    } else {
      AllFdsJoin(a[1..], b);
      assert (a + b)[1..] == a[1..] + b;
    }
  }

  lemma {:induction false} AllFdsPlain(cells: seq<Cell>)
    requires forall i :: 0 <= i < |cells| ==> cells[i].fds == []
    ensures AllFds(cells) == []
    decreases |cells|
  {
    if cells != [] {
      AllFdsPlain(cells[1..]);
    }
  }

  lemma PlainPrefix(stream: seq<Cell>, front: seq<Cell>, rest: seq<Cell>)
    requires stream == front + rest && |front| <= HEADER_LEN
    requires forall i :: 1 <= i < |stream| && i < HEADER_LEN ==> stream[i].fds == []
    ensures forall i :: 1 <= i < |front| ==> front[i].fds == []
  {
    assert forall i :: 0 <= i < |front| ==> front[i] == stream[i];
  }

  /** Some of the cells went, from the front. */
  ghost predicate PartSent(was: seq<Cell>, cells: seq<Cell>, now: seq<Cell>) {
    exists k :: 0 <= k <= |cells| && now == was + cells[..k]
  }

  lemma SentPart(was: seq<Cell>, bytes: seq<Byte>, fds: seq<Fd>, k: nat)
    requires 0 <= k <= |bytes| && bytes != []
    ensures PartSent(was, Attached(bytes, fds), was + Attached(bytes, fds)[..k])
    ensures k == 0 ==> was + Attached(bytes, fds)[..k] == was + [] == was
    ensures k == |bytes| ==> Attached(bytes, fds)[..k] == Attached(bytes, fds)
  {
  }

  lemma PlainNothing(was: seq<Cell>, bytes: seq<Byte>, from: nat)
    requires from <= |bytes|
    ensures was + Plain(bytes[from..from]) == was
  {
  }

  lemma PlainMore(was: seq<Cell>, bytes: seq<Byte>, from: nat, k: nat, n: nat)
    requires from <= k <= n <= |bytes|
    ensures was + Plain(bytes[from..k]) + Plain(bytes[k..][..n - k]) == was + Plain(bytes[from..n])
  {
    assert Plain(bytes[from..n]) == Plain(bytes[from..k]) + Plain(bytes[k..][..n - k]);
  }

  /** Sending a frame in pieces puts the same cells on the stream. */
  lemma SentMore(was: seq<Cell>, bytes: seq<Byte>, fds: seq<Fd>, k: nat, n: nat)
    requires 0 < k <= n <= |bytes|
    ensures was + Attached(bytes[..k], fds) + Plain(bytes[k..n]) == was + Attached(bytes, fds)[..n]
  {
    assert Attached(bytes[..k], fds) == Attached(bytes, fds)[..k];
    assert Attached(bytes, fds)[..n] == Attached(bytes, fds)[..k] + Plain(bytes[k..n]);
  }

  /** A frame sends no descriptor with its body. */
  lemma BodiesArePlain(f: Frame)
    requires Sendable(f)
    ensures BodyFds(Encode(f)) == []
  {
    AllFdsPlain(Encode(f)[HEADER_LEN..]);
  }

  /** On any stream of encoded frames the bytes after the first of each header carry nothing. */
  lemma HeadersArePlain(f: Frame, rest: seq<Cell>)
    requires Sendable(f)
    ensures forall i :: 1 <= i < |Encode(f) + rest| && i < HEADER_LEN ==> (Encode(f) + rest)[i].fds == []
  {
  }
}
