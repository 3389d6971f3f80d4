/** The retry queue of one audio channel: bta_av_data_path, bta_av_dup_audio_buf and the drain in
    bta_av_str_stopped (bta/av). Buffers are never looked into here. */
module MediaQueue {
  import opened Collections
  import opened Transducers

  /** Buffers the lower layer may hold before data is kept back. */
  const QUEUE_DATA_CHK_NUM: nat := 5
  /** Waiting buffers beyond which the oldest is given up. */
  const MAX_REQUEUED: nat := 3

  /** A channel, with the history of every buffer it was given. */
  datatype Channel<B> = Channel(cong: bool, list: seq<B>, arrived: seq<B>, written: seq<B>, dropped: seq<B>)

  /** One call of bta_av_data_path. `inLower` is what the lower layer reports; it is kept in eight bits. */
  function DataPath<B>(q: Channel<B>, inLower: nat, fetched: Option<B>): Channel<B> {
    var moving := inLower % 256 < QUEUE_DATA_CHK_NUM;
    if q.cong then q
    else if q.list != [] then
      var front, rest := q.list[0], q.list[1..];
      if moving then q.(list := rest, written := q.written + [front], cong := true)
      else if |rest| < MAX_REQUEUED then q
      else q.(list := rest, dropped := q.dropped + [front])
    else if fetched.None? then q
    else
      var q1 := q.(arrived := q.arrived + [fetched.value]);
      if moving then q1.(written := q.written + [fetched.value], cong := true)
      else q1.(list := [fetched.value])
  }

  /** A copy arrives from another channel; past `limit` waiting buffers the oldest is dropped. */
  function Duplicate<B>(q: Channel<B>, b: B, limit: nat): Channel<B> {
    var list := q.list + [b];
    var q1 := q.(list := list, arrived := q.arrived + [b]);
    if |list| > limit then q1.(list := list[1..], dropped := q.dropped + [list[0]]) else q1
  }

  /** The stream stops: everything waiting is dropped, front first. */
  function Drain<B>(q: Channel<B>): Channel<B> { q.(list := [], dropped := q.dropped + q.list) }

  datatype Op<B> =
    | Path(inLower: nat, fetched: Option<B>)
    | Copy(buf: B, limit: nat)
    | Stop
    | SetCongestion(value: bool)

  function Step<B>(q: Channel<B>, op: Op<B>): Channel<B> {
    match op
    case Path(inLower, fetched) => DataPath(q, inLower, fetched)
    case Copy(buf, limit) => Duplicate(q, buf, limit)
    case Stop => Drain(q)
    case SetCongestion(value) => q.(cong := value)
  }

  function Fresh<B>(): Channel<B> { Channel(false, [], [], [], []) }

  function Stepper<B>(): (Channel<B>, Op<B>) -> Channel<B> { (q: Channel<B>, op: Op<B>) => Step(q, op) }

  function Runs<B>(ops: seq<Op<B>>): Channel<B> {
    Fold(Stepper(), Fresh(), ops)
  }

  // ----- order

  /** `a` can be had from `b` by leaving elements out. */
  ghost predicate Subsequence<B(!new)>(a: seq<B>, b: seq<B>)
    decreases |b|
  {
    a == [] ||
    (b != [] &&
     (Subsequence(a, b[..|b| - 1]) ||
      (a[|a| - 1] == b[|b| - 1] && Subsequence(a[..|a| - 1], b[..|b| - 1]))))
  }

  lemma SubsequenceAppend<B(!new)>(a: seq<B>, b: seq<B>, x: B)
    requires Subsequence(a, b)
    ensures Subsequence(a + [x], b + [x])
  {
  }

  lemma {:induction false} SubsequenceRemove<B(!new)>(a: seq<B>, k: nat, b: seq<B>)
    requires Subsequence(a, b) && k < |a|
    ensures Subsequence(a[..k] + a[k + 1..], b)
    decreases |b|
  {
    var c, init := a[..k] + a[k + 1..], b[..|b| - 1];
    if Subsequence(a, init) {
      SubsequenceRemove(a, k, init);
    } else if k == |a| - 1 {
      assert c == a[..|a| - 1];
      SubsequenceLonger(c, init, b[|b| - 1]);
      assert init + [b[|b| - 1]] == b;
    } else {
      SubsequenceRemove(a[..|a| - 1], k, init);
      assert c[..|c| - 1] == a[..|a| - 1][..k] + a[..|a| - 1][k + 1..];
      assert c[|c| - 1] == a[|a| - 1];
    }
  }

  lemma SubsequenceLonger<B(!new)>(a: seq<B>, b: seq<B>, x: B)
    requires Subsequence(a, b)
    ensures Subsequence(a, b + [x])
  {
  }

  // ----- conservation

  /** Every buffer that arrived is written, waiting or dropped, each copy once. */
  ghost predicate Conserved<B(!new)>(q: Channel<B>) {
    multiset(q.arrived) == multiset(q.written) + multiset(q.list) + multiset(q.dropped)
  }

  /** What was written followed by what waits is in order of arrival. */
  ghost predicate InOrder<B(!new)>(q: Channel<B>) { Subsequence(q.written + q.list, q.arrived) }

  lemma FrontCounts<B(!new)>(list: seq<B>)
    requires list != []
    ensures multiset(list) == multiset([list[0]]) + multiset(list[1..])
  {
    assert list == [list[0]] + list[1..];
  }

  lemma LastCounts<B(!new)>(list: seq<B>, b: B)
    ensures multiset(list + [b]) == multiset(list) + multiset([b])
  {
  }

  lemma PathConserves<B(!new)>(q: Channel<B>, inLower: nat, fetched: Option<B>)
    requires Conserved(q)
    ensures Conserved(DataPath(q, inLower, fetched))
  {
    if q.list != [] {
      FrontCounts(q.list);
      Regroup(multiset(q.arrived), multiset(q.written), multiset(q.list[1..]), multiset(q.dropped), multiset([q.list[0]]));
    } else if fetched.Some? {
      Regroup(multiset(q.arrived), multiset(q.written), multiset(q.list), multiset(q.dropped), multiset([fetched.value]));
      assert multiset(q.list) + multiset([fetched.value]) == multiset([fetched.value]);
    }
  }

  lemma CopyConserves<B(!new)>(q: Channel<B>, buf: B, limit: nat)
    requires Conserved(q)
    ensures Conserved(Duplicate(q, buf, limit))
  {
    var list := q.list + [buf];
    FrontCounts(list);
    LastCounts(q.dropped, list[0]);
    Regroup(multiset(q.arrived), multiset(q.written), multiset(q.list), multiset(q.dropped), multiset([buf]));
    Regroup(multiset(q.arrived + [buf]), multiset(q.written), multiset(list[1..]), multiset(q.dropped), multiset([list[0]]));
  }

  lemma Regroup<B(!new)>(a: multiset<B>, w: multiset<B>, l: multiset<B>, d: multiset<B>, x: multiset<B>)
    ensures a == w + l + d ==> a + x == w + (l + x) + d
    ensures a == w + (x + l) + d ==> a == w + l + (d + x) && a == (w + x) + l + d
  {
  }

  lemma StepConserves<B(!new)>(q: Channel<B>, op: Op<B>)
    requires Conserved(q)
    ensures Conserved(Step(q, op))
  {
    match op
    case Path(inLower, fetched) => PathConserves(q, inLower, fetched);
    case Copy(buf, limit) => CopyConserves(q, buf, limit);
    case Stop =>
    case SetCongestion(_) =>
  }

  lemma FrontRemoved<B(!new)>(w: seq<B>, list: seq<B>, arrived: seq<B>)
    requires Subsequence(w + list, arrived) && list != []
    ensures Subsequence(w + list[1..], arrived)
  {
    SubsequenceRemove(w + list, |w|, arrived);
    assert (w + list)[..|w|] == w && (w + list)[|w| + 1..] == list[1..];
  }

  lemma PathInOrder<B(!new)>(q: Channel<B>, inLower: nat, fetched: Option<B>)
    requires InOrder(q)
    ensures InOrder(DataPath(q, inLower, fetched))
  {
    if q.list != [] {
      if inLower % 256 < QUEUE_DATA_CHK_NUM {
        assert q.written + [q.list[0]] + q.list[1..] == q.written + q.list;
      } else {
        FrontRemoved(q.written, q.list, q.arrived);
      }
    } else if fetched.Some? {
      SubsequenceAppend(q.written + q.list, q.arrived, fetched.value);
      assert q.written + q.list + [fetched.value] == q.written + [fetched.value];
      assert q.written + [fetched.value] + q.list == q.written + [fetched.value];
    }
  }

  lemma CopyInOrder<B(!new)>(q: Channel<B>, buf: B, limit: nat)
    requires InOrder(q)
    ensures InOrder(Duplicate(q, buf, limit))
  {
    SubsequenceAppend(q.written + q.list, q.arrived, buf);
    assert (q.written + q.list) + [buf] == q.written + (q.list + [buf]);
    FrontRemoved(q.written, q.list + [buf], q.arrived + [buf]);
  }

  lemma {:induction false} DrainInOrder<B(!new)>(w: seq<B>, list: seq<B>, arrived: seq<B>)
    requires Subsequence(w + list, arrived)
    ensures Subsequence(w + [], arrived)
    decreases |list|
  {
    if list != [] {
      FrontRemoved(w, list, arrived);
      DrainInOrder(w, list[1..], arrived);
    }
  }

  lemma StepInOrder<B(!new)>(q: Channel<B>, op: Op<B>)
    requires InOrder(q)
    ensures InOrder(Step(q, op))
  {
    match op
    case Path(inLower, fetched) => PathInOrder(q, inLower, fetched);
    case Copy(buf, limit) => CopyInOrder(q, buf, limit);
    case Stop => DrainInOrder(q.written, q.list, q.arrived);
    case SetCongestion(_) =>
  }

  /** Over any run each buffer is exactly one of written, waiting or dropped, and written-then-waiting
      is a subsequence of the order of arrival. */
  lemma ChannelIsFifo<B(!new)>(ops: seq<Op<B>>)
    ensures Conserved(Runs(ops)) && InOrder(Runs(ops))
  {
    var step := Stepper<B>();
    forall q: Channel<B>, op: Op<B> ensures Conserved(q) ==> Conserved(step(q, op)) {
      if Conserved(q) { StepConserves(q, op); }
    }
    forall q: Channel<B>, op: Op<B> ensures InOrder(q) ==> InOrder(step(q, op)) {
      if InOrder(q) { StepInOrder(q, op); }
    }
    FoldKeeps(step, Fresh<B>(), ops, q => Conserved(q));
    FoldKeeps(step, Fresh<B>(), ops, q => InOrder(q));
  }

  /** A data-path call drops a buffer exactly when it is not congested, the lower layer is full and
      four or more were waiting on entry; it is then the oldest. */
  lemma DataPathDropsIff<B>(q: Channel<B>, inLower: nat, fetched: Option<B>)
    ensures
      var r := DataPath(q, inLower, fetched);
      var drops := !q.cong && inLower % 256 >= QUEUE_DATA_CHK_NUM && |q.list| >= 4;
      && (r.dropped != q.dropped <==> drops)
      && (drops ==> r.dropped == q.dropped + [q.list[0]] && r.list == q.list[1..])
  {
  }

  /** A data-path call that is not held up by congestion, finds room below and has something to send. */
  predicate Writes<B>(q: Channel<B>, inLower: nat, fetched: Option<B>) {
    !q.cong && inLower % 256 < QUEUE_DATA_CHK_NUM && (q.list != [] || fetched.Some?)
  }

  /** Such a call, and no other, writes: the oldest waiting buffer, or the fetched one if none waits. The
      channel is congested from then on. */
  lemma DataPathWritesIff<B>(q: Channel<B>, inLower: nat, fetched: Option<B>)
    ensures
      var r := DataPath(q, inLower, fetched);
      var next := if q.list != [] then Some(q.list[0]) else fetched;
      && (r.written != q.written <==> Writes(q, inLower, fetched))
      && (r.written != q.written ==> next.Some? && r.written == q.written + [next.value])
      && (r.cong <==> q.cong || Writes(q, inLower, fetched))
  {
  }

  /** The codec is asked exactly when nothing waits and the channel is not congested; what it gives is written
      or waits. Nothing else comes in, and without room nothing but the oldest of four leaves. */
  lemma DataPathTakesIff<B>(q: Channel<B>, inLower: nat, fetched: Option<B>)
    ensures
      var r := DataPath(q, inLower, fetched);
      && (r.arrived != q.arrived <==> !q.cong && q.list == [] && fetched.Some?)
      && (r.arrived != q.arrived ==>
            r.arrived == q.arrived + [fetched.value] && r.list == if r.cong then [] else [fetched.value])
      && (r.arrived == q.arrived ==>
            r.list == if r.written != q.written || r.dropped != q.dropped then q.list[1..] else q.list)
  {
  }

  /** A copy goes to the end, and the oldest is given up exactly if that makes more than the limit. */
  lemma CopyDropsIff<B>(q: Channel<B>, buf: B, limit: nat)
    ensures
      var r := Duplicate(q, buf, limit);
      && r.dropped + r.list == q.dropped + q.list + [buf] && r.arrived == q.arrived + [buf]
      && |r.list| == |q.list| + (if |q.list| >= limit then 0 else 1)
      && r.written == q.written && r.cong == q.cong
  {
  }

  /** Stopping gives up everything that waits and nothing else. */
  lemma StopDropsAll<B>(q: Channel<B>)
    ensures
      var r := Drain(q);
      && r.list == [] && r.dropped + r.list == q.dropped + q.list
      && r.written == q.written && r.arrived == q.arrived && r.cong == q.cong
  {
  }

  // ----- delivery

  /** Congestion clears and a data-path call finds room, again and again. */
  ghost predicate Rounds<B>(ops: seq<Op<B>>, n: nat) {
    |ops| == 2 * n && forall k :: 0 <= k < |ops| ==>
      if k % 2 == 0 then ops[k] == SetCongestion(false) else ops[k].Path? && ops[k].inLower % 256 < QUEUE_DATA_CHK_NUM
  }

  lemma RoundWrites<B>(q: Channel<B>, path: Op<B>)
    requires path.Path? && path.inLower % 256 < QUEUE_DATA_CHK_NUM && q.list != []
    ensures
      var r := Step(Step(q, SetCongestion(false)), path);
      r == Channel(true, q.list[1..], q.arrived, q.written + [q.list[0]], q.dropped)
  {
  }

  /** `n` such rounds write the `n` buffers that have waited longest, in their order, and touch nothing else. */
  lemma {:induction false} RoundsDeliver<B>(q: Channel<B>, ops: seq<Op<B>>, n: nat)
    requires Rounds(ops, n) && n <= |q.list|
    ensures
      var r := Fold(Stepper(), q, ops);
      && r.written == q.written + q.list[..n] && r.list == q.list[n..]
      && r.arrived == q.arrived && r.dropped == q.dropped
    decreases n
  {
    if n > 0 {
      var start, m := ops[..2 * n - 2], n - 1;
      assert Rounds(start, m) by { assert forall k :: 0 <= k < |start| ==> start[k] == ops[k]; }
      RoundsDeliver(q, start, m);
      var before := Fold(Stepper(), q, start);
      assert ops[2 * n - 2] == SetCongestion(false) && (2 * n - 1) % 2 == 1;
      assert ops[..2 * n - 1][..2 * n - 2] == start && ops[..2 * n - 1] == ops[..|ops| - 1];
      assert Fold(Stepper(), q, ops) == Step(Step(before, ops[2 * n - 2]), ops[2 * n - 1]);
      RoundWrites(before, ops[2 * n - 1]);
      assert q.list[..m] + [q.list[m]] == q.list[..n];
    }
  }

  /** What came in during a run from `q` to `r` joins the end, and what was written came off the front. */
  ghost predicate Exact<B>(q: Channel<B>, r: Channel<B>) {
    q.arrived <= r.arrived && q.written <= r.written && q.dropped <= r.dropped &&
    (r.dropped == q.dropped ==> r.written + r.list == q.written + q.list + r.arrived[|q.arrived|..])
  }

  lemma ExactStep<B>(q: Channel<B>, op: Op<B>)
    ensures Exact(q, Step(q, op))
  {
    var r := Step(q, op);
    match op
    case Path(inLower, fetched) =>
      if q.list != [] { assert q.list == [q.list[0]] + q.list[1..]; }
    case Copy(buf, limit) =>
    case Stop =>
      assert r.dropped == q.dropped ==> q.list == [];
    case SetCongestion(_) =>
  }

  lemma ExactTrans<B>(p: Channel<B>, q: Channel<B>, r: Channel<B>)
    requires Exact(p, q) && Exact(q, r)
    ensures Exact(p, r)
  {
    if r.dropped == p.dropped {
      assert q.dropped == p.dropped;
      assert r.arrived[|p.arrived|..] == q.arrived[|p.arrived|..] + r.arrived[|q.arrived|..];
    }
  }

  /** Over any run that drops nothing, what was written and what waits is what it was before followed by
      everything that came in, in order and without a gap. */
  lemma {:induction false} NothingLostInOrder<B>(q: Channel<B>, ops: seq<Op<B>>)
    ensures Exact(q, Fold(Stepper(), q, ops))
    decreases |ops|
  {
    if ops != [] {
      var n := |ops| - 1;
      var before := Fold(Stepper(), q, ops[..n]);
      NothingLostInOrder(q, ops[..n]);
      ExactStep(before, ops[n]);
      ExactTrans(q, before, Step(before, ops[n]));
    }
  }

  /** No more than the limit of the copies ever waits. */
  lemma {:induction false} QueueBounded<B>(ops: seq<Op<B>>, limit: nat)
    requires limit >= 1 && forall k :: 0 <= k < |ops| && ops[k].Copy? ==> ops[k].limit <= limit
    ensures |Runs(ops).list| <= limit
    decreases |ops|
  {
    if ops != [] { QueueBounded(ops[..|ops| - 1], limit); }
  }

  // ----- the channel

  class AudioChannel<B(!new)> {
    var cong: bool
    var a2dpList: seq<B>
    ghost var arrived: seq<B>
    ghost var written: seq<B>
    ghost var dropped: seq<B>

    ghost function Snap(): Channel<B>
      reads this
    {
      Channel(cong, a2dpList, arrived, written, dropped)
    }

    constructor ()
      ensures Snap() == Fresh()
    {
      cong, a2dpList, arrived, written, dropped := false, [], [], [], [];
    }

    /** bta_av_data_path; `fetched` is what the codec has ready if it is asked. */
    method SendNext(inLower: nat, fetched: Option<B>)
      modifies this
      ensures Snap() == DataPath(old(Snap()), inLower, fetched)
    {
      if cong { return; }
      var l2cBufs := inLower % 256;
      var buf: Option<B>;
      var newBuf := false;
      if a2dpList != [] {
        buf := Some(a2dpList[0]);
        a2dpList := a2dpList[1..];
      } else {
        newBuf := true;
        buf := fetched;
        if buf.Some? { arrived := arrived + [buf.value]; }
      }
      if buf.Some? {
        if l2cBufs < QUEUE_DATA_CHK_NUM {
          written := written + [buf.value];
          cong := true;
        } else if newBuf {
          a2dpList := a2dpList + [buf.value];
        } else if |a2dpList| < MAX_REQUEUED {
          a2dpList := [buf.value] + a2dpList;
        } else {
          dropped := dropped + [buf.value];
        }
      }
    }

    /** The part of bta_av_dup_audio_buf that concerns one receiving channel. */
    method Enqueue(b: B, limit: nat)
      modifies this
      ensures Snap() == Duplicate(old(Snap()), b, limit)
    {
      a2dpList := a2dpList + [b];
      arrived := arrived + [b];
      if |a2dpList| > limit {
        dropped := dropped + [a2dpList[0]];
        a2dpList := a2dpList[1..];
      }
    }

    /** The drain loop of bta_av_str_stopped. */
    method DropAll()
      modifies this
      ensures Snap() == Drain(old(Snap()))
    {
      while a2dpList != []
        invariant cong == old(cong) && arrived == old(arrived) && written == old(written)
        invariant dropped + a2dpList == old(dropped + a2dpList)
        decreases |a2dpList|
      {
        var front := a2dpList[0];
        a2dpList := a2dpList[1..];
        dropped := dropped + [front];
      }
    }
  }

  /** Any run on the channel itself: the specification is followed, every buffer is exactly one of
      written, waiting or dropped, and none has overtaken another. */
  method Play<B(!new)>(ops: seq<Op<B>>) returns (channel: AudioChannel<B>)
    ensures channel.Snap() == Runs(ops)
    ensures Conserved(channel.Snap()) && InOrder(channel.Snap())
  {
    channel := new AudioChannel<B>();
    for n := 0 to |ops|
      invariant channel.Snap() == Runs(ops[..n])
    {
      match ops[n] {
        case Path(inLower, fetched) => channel.SendNext(inLower, fetched);
        case Copy(buf, limit) => channel.Enqueue(buf, limit);
        case Stop => channel.DropAll();
        case SetCongestion(value) => channel.cong := value;
      }
      assert ops[..n + 1][..n] == ops[..n];
    }
    assert ops[..|ops|] == ops;
    ChannelIsFifo(ops);
  }
}
