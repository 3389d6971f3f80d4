/** Sending one media buffer (bta_av_data_path in bta/av/bta_av_aact.cc): payloads longer than the
    stream MTU are cut up so that an RTP receiver can put them together again. */
module MediaFragments {
  import opened Bytes
  import opened Collections
  import opened Division

  /** One write to the transport: its payload and the RTP marker bit. */
  datatype Packet = Packet(data: seq<byte>, marker: bool)

  // ----- what the pieces are

  function Cut(payload: seq<byte>, mtu: nat): (pieces: seq<seq<byte>>)
    requires mtu > 0
    ensures pieces != []
    decreases |payload|
  {
    if |payload| <= mtu then [payload] else [payload[..mtu]] + Cut(payload[mtu..], mtu)
  }

  function CeilDiv(n: nat, d: nat): nat
    requires d > 0
  {
    n / d + if n % d == 0 then 0 else 1
  }

  lemma {:induction false} CutCount(payload: seq<byte>, mtu: nat)
    requires mtu > 0
    ensures |Cut(payload, mtu)| == if payload == [] then 1 else CeilDiv(|payload|, mtu)
    decreases |payload|
  {
    if |payload| > mtu {
      CutCount(payload[mtu..], mtu);
      DivStep(|payload|, mtu);
    } else if |payload| == mtu {
      DivStep(|payload|, mtu);
    }
  }

  lemma {:induction false} CutJoins(payload: seq<byte>, mtu: nat)
    requires mtu > 0
    ensures Flatten(Cut(payload, mtu)) == payload
    decreases |payload|
  {
    if |payload| > mtu {
      CutJoins(payload[mtu..], mtu);
      assert payload[..mtu] + payload[mtu..] == payload;
    } else {
      assert payload + [] == payload;
    }
  }

  lemma {:induction false} CutSizes(payload: seq<byte>, mtu: nat, k: nat)
    requires mtu > 0 && k < |Cut(payload, mtu)|
    ensures |Cut(payload, mtu)[k]| <= mtu
    ensures payload != [] ==> Cut(payload, mtu)[k] != []
    ensures k < |Cut(payload, mtu)| - 1 ==> |Cut(payload, mtu)[k]| == mtu
    decreases |payload|
  {
    if |payload| > mtu && k > 0 {
      CutSizes(payload[mtu..], mtu, k - 1);
    }
  }

  /** The marker goes on the last piece of a split payload; an unsplit one has it if so configured. */
  function Marked(pieces: seq<seq<byte>>, useMarker: bool): seq<Packet> {
    seq(|pieces|, k requires 0 <= k < |pieces| =>
      Packet(pieces[k], if |pieces| == 1 then useMarker else k == |pieces| - 1))
  }

  function Packets(payload: seq<byte>, mtu: nat, useMarker: bool): seq<Packet>
    requires mtu > 0
  {
    Marked(Cut(payload, mtu), useMarker)
  }

  // ----- the fragment loop

  /** The pieces after the first one: those already made, then those the rest of the payload will give. */
  ghost predicate Pieces(payload: seq<byte>, mtu: nat, begin: nat, extra: seq<seq<byte>>, left: nat) {
    && mtu > 0 && begin <= |payload|
    && var rest := Cut(payload[begin..], mtu);
    extra + rest[1..] == Cut(payload, mtu)[1..] && left == |rest| - 1
  }

  /** The length counter: what is left of the payload, less the pieces already made. */
  ghost predicate Length(payload: seq<byte>, mtu: nat, begin: nat, len: nat) {
    && mtu > 0 && begin <= |payload|
    && len == (if begin == 0 then |payload| else |payload| - begin - |Cut(payload[begin..], mtu)[0]| + mtu)
    && (begin > 0 ==> |payload| > mtu)
  }

  ghost predicate Progress(payload: seq<byte>, mtu: nat, begin: nat, extra: seq<seq<byte>>, left: nat, len: nat) {
    Pieces(payload, mtu, begin, extra, left) && Length(payload, mtu, begin, len)
  }

  /** The pieces of what is left from `begin`: a full one, then those of what is left after it. */
  lemma NextPieces(payload: seq<byte>, mtu: nat, begin: nat)
    requires mtu > 0 && begin <= |payload| && |Cut(payload[begin..], mtu)| > 1
    ensures begin + mtu < |payload|
    ensures |Cut(payload[begin..], mtu)[0]| == mtu
    ensures Cut(payload[begin..], mtu)[1..] == Cut(payload[begin + mtu..], mtu)
  {
  }

  function PieceLength(payload: seq<byte>, mtu: nat, begin: nat): nat
    requires begin <= |payload|
  {
    if |payload| - begin > mtu then mtu else |payload| - begin
  }

  lemma FirstPiece(payload: seq<byte>, mtu: nat, begin: nat)
    requires mtu > 0 && begin <= |payload|
    ensures Cut(payload[begin..], mtu)[0] == payload[begin..begin + PieceLength(payload, mtu, begin)]
  {
  }

  lemma PiecesStep(payload: seq<byte>, mtu: nat, begin: nat, extra: seq<seq<byte>>, left: nat)
    requires Pieces(payload, mtu, begin, extra, left) && left > 0
    ensures
      var b := begin + mtu;
      && b < |payload|
      && Pieces(payload, mtu, b, extra + [payload[b..b + PieceLength(payload, mtu, b)]], left - 1)
  {
    NextPieces(payload, mtu, begin);
    var b := begin + mtu;
    FirstPiece(payload, mtu, b);
    var next := Cut(payload[b..], mtu);
    assert (extra + [next[0]]) + next[1..] == extra + next;
  }

  lemma LengthStep(payload: seq<byte>, mtu: nat, begin: nat, len: nat)
    requires Length(payload, mtu, begin, len) && |Cut(payload[begin..], mtu)| > 1
    ensures
      var b := begin + mtu;
      && b < |payload| && PieceLength(payload, mtu, b) <= len
      && Length(payload, mtu, b, len - PieceLength(payload, mtu, b))
  {
  }

  lemma ProgressDone(payload: seq<byte>, mtu: nat, begin: nat, extra: seq<seq<byte>>, len: nat)
    requires Progress(payload, mtu, begin, extra, 0, len)
    ensures len <= |payload| && [payload[..len]] + extra == Cut(payload, mtu)
  {
    var pieces := Cut(payload, mtu);
    assert [pieces[0]] + pieces[1..] == pieces;
    assert payload[..len] == pieces[0];
  }

  method CountExtra(payload: seq<byte>, mtu: nat) returns (n: nat)
    requires mtu > 0
    ensures n == |Cut(payload, mtu)| - 1
  {
    CutCount(payload, mtu);
    n := 0;
    if |payload| > 0 {
      n := |payload| / mtu + (if |payload| % mtu != 0 then 1 else 0) - 1;
    }
  }

  /** The writes made for one buffer. */
  method WriteBuffer(payload: seq<byte>, mtu: nat, useMarker: bool) returns (written: seq<Packet>)
    requires mtu > 0
    ensures written == Packets(payload, mtu, useMarker)
  {
    var extraFragments := CountExtra(payload, mtu);
    var len, begin, extra := |payload|, 0, [];
    assert payload[0..] == payload;
    while extraFragments > 0
      invariant 0 <= extraFragments && 0 <= len && Progress(payload, mtu, begin, extra, extraFragments, len)
    {
      PiecesStep(payload, mtu, begin, extra, extraFragments);
      LengthStep(payload, mtu, begin, len);
      extraFragments := extraFragments - 1;
      begin := begin + mtu;
      var fragmentLen := |payload| - begin;
      if fragmentLen > mtu { fragmentLen := mtu; }
      extra := extra + [payload[begin..begin + fragmentLen]];
      len := len - fragmentLen;
    }
    ProgressDone(payload, mtu, begin, extra, len);
    written := WriteAll(payload[..len], extra, useMarker);
  }

  /** The writes themselves, first the shortened buffer and then the extra fragments. */
  method WriteAll(first: seq<byte>, extra: seq<seq<byte>>, useMarker: bool) returns (written: seq<Packet>)
    ensures written == Marked([first] + extra, useMarker)
  {
    ghost var pieces := [first] + extra;
    var marker := useMarker;
    if extra != [] { marker := false; }
    written := [Packet(first, marker)];
    for i := 0 to |extra|
      invariant written == Marked(pieces, useMarker)[..i + 1]
      invariant extra != [] ==> marker == (i == |extra|)
    {
      if i + 1 == |extra| { marker := true; }
      written := written + [Packet(extra[i], marker)];
    }
  }

  // ----- the receiver

  /** A receiver collects payloads up to and including the packet that carries the marker. */
  function Reassemble(packets: seq<Packet>, acc: seq<byte>): seq<seq<byte>> {
    if packets == [] then []
    else if packets[0].marker then [acc + packets[0].data] + Reassemble(packets[1..], [])
    else Reassemble(packets[1..], acc + packets[0].data)
  }

  function Stream(buffers: seq<seq<byte>>, mtu: nat, useMarker: bool): seq<Packet>
    requires mtu > 0
  {
    if buffers == [] then [] else Packets(buffers[0], mtu, useMarker) + Stream(buffers[1..], mtu, useMarker)
  }

  function Unmarked(pieces: seq<seq<byte>>): seq<Packet> {
    seq(|pieces|, k requires 0 <= k < |pieces| => Packet(pieces[k], false))
  }

  lemma {:induction false} CollectUnmarked(pieces: seq<seq<byte>>, tail: seq<Packet>, acc: seq<byte>)
    ensures Reassemble(Unmarked(pieces) + tail, acc) == Reassemble(tail, acc + Flatten(pieces))
    decreases |pieces|
  {
    if pieces == [] {
      assert Unmarked(pieces) + tail == tail && acc + [] == acc;
    } else {
      CollectUnmarked(pieces[1..], tail, acc + pieces[0]);
      assert (Unmarked(pieces) + tail)[1..] == Unmarked(pieces[1..]) + tail;
      assert acc + pieces[0] + Flatten(pieces[1..]) == acc + Flatten(pieces);
    }
  }

  /** A buffer reaches the receiver as one payload if its last packet is marked; otherwise it runs
      into whatever comes next. */
  lemma BufferArrives(payload: seq<byte>, mtu: nat, useMarker: bool, tail: seq<Packet>, acc: seq<byte>)
    requires mtu > 0
    ensures Reassemble(Packets(payload, mtu, useMarker) + tail, acc) ==
            if useMarker || |payload| > mtu then [acc + payload] + Reassemble(tail, [])
            else Reassemble(tail, acc + payload)
  {
    var pieces := Cut(payload, mtu);
    var n := |pieces| - 1;
    var init, last := pieces[..n], pieces[n];
    var marked := useMarker || |payload| > mtu;
    var rest := [Packet(last, marked)] + tail;
    assert |pieces| == 1 <==> |payload| <= mtu;
    assert Packets(payload, mtu, useMarker) + tail == Unmarked(init) + rest;
    CollectUnmarked(init, rest, acc);
    CutJoins(payload, mtu);
    FlattenSnoc(pieces);
    assert rest[1..] == tail;
    assert acc + Flatten(init) + last == acc + payload;
  }

  lemma {:induction false} ReassembleCount(buffers: seq<seq<byte>>, mtu: nat, useMarker: bool, acc: seq<byte>)
    requires mtu > 0
    ensures |Reassemble(Stream(buffers, mtu, useMarker), acc)| <= |buffers|
    ensures !useMarker && (exists b :: b in buffers && |b| <= mtu) ==>
              |Reassemble(Stream(buffers, mtu, useMarker), acc)| < |buffers|
    decreases |buffers|
  {
    if buffers != [] {
      var tail := Stream(buffers[1..], mtu, useMarker);
      BufferArrives(buffers[0], mtu, useMarker, tail, acc);
      ReassembleCount(buffers[1..], mtu, useMarker, []);
      ReassembleCount(buffers[1..], mtu, useMarker, acc + buffers[0]);
      assert forall b :: b in buffers ==> b == buffers[0] || b in buffers[1..];
    }
  }

  lemma {:induction false} ReassembleAll(buffers: seq<seq<byte>>, mtu: nat, useMarker: bool)
    requires mtu > 0 && (useMarker || forall b :: b in buffers ==> |b| > mtu)
    ensures Reassemble(Stream(buffers, mtu, useMarker), []) == buffers
    decreases |buffers|
  {
    if buffers != [] {
      BufferArrives(buffers[0], mtu, useMarker, Stream(buffers[1..], mtu, useMarker), []);
      ReassembleAll(buffers[1..], mtu, useMarker);
      assert [] + buffers[0] == buffers[0];
    }
  }

  /** A receiver that goes by the marker bit gets back exactly the buffers that were sent, in order,
      if and only if the marker is in use or every buffer was split. */
  lemma ReassemblyIff(buffers: seq<seq<byte>>, mtu: nat, useMarker: bool)
    requires mtu > 0
    ensures Reassemble(Stream(buffers, mtu, useMarker), []) == buffers <==>
            useMarker || forall b :: b in buffers ==> |b| > mtu
  {
    ReassembleCount(buffers, mtu, useMarker, []);
    if useMarker || forall b :: b in buffers ==> |b| > mtu {
      ReassembleAll(buffers, mtu, useMarker);
    }
  }
}
