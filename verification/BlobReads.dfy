/** A client that reads a blob piece by piece, among everything else that happens to the server. */
module BlobReads {
  import opened Bytes
  import opened BlobModel
  import opened Transducers

  /** The longest value that the control byte can address. */
  const REACH: nat := 256 * SECTION_SIZE

  /** What the client has read so far and the section it selected last. */
  datatype Client = Client(read: seq<byte>, section: byte)

  datatype World = World(table: Table, client: Client)

  /** One step of the server. The client's own steps select a section, through the control attribute,
      and read up to `room` octets of the value at an offset. Everything else is open: other peers read
      and write every attribute, and the application sets values. */
  datatype Step =
    | Select(section: byte)
    | Pull(offset: nat, room: nat)
    | Read(handle: int, offset: nat)
    | Write(handle: int, offset: nat, value: seq<byte>)
    | SetValue(uuid: nat, value: seq<byte>)

  /** The client appends what comes next, starts over at offset 0 of section 0, and otherwise ignores
      the reply. */
  function Received(c: Client, offset: nat, data: seq<byte>): seq<byte> {
    if c.section == 0 && offset == 0 then data
    else if c.section * SECTION_SIZE + offset == |c.read| then c.read + data
    else c.read
  }

  function Taken(reply: seq<byte>, room: nat): seq<byte> { reply[..Min(room, |reply|)] }

  function Next(value: int, control: int, w: World, s: Step): World {
    match s
    case Select(section) => World(AfterWrite(w.table, control, 0, [section]), w.client.(section := section))
    case Pull(offset, room) =>
      var t := AfterRead(w.table, value, offset);
      World(t, w.client.(read := Received(w.client, offset, Taken(Reply(Get(t, value), offset), room))))
    case Read(handle, offset) => World(AfterRead(w.table, handle, offset), w.client)
    case Write(handle, offset, data) => World(AfterWrite(w.table, handle, offset, data), w.client)
    case SetValue(uuid, data) => World(AfterSet(w.table, uuid, data), w.client)
  }

  /** `control` selects the section of `value`, which is not a control attribute itself. */
  predicate Controls(t: Table, value: int, control: int) {
    control in t.controlled && t.controlled[control] == value && value !in t.controlled
  }

  /** What the client holds is the beginning of the one value that the server shows. */
  predicate Intact(w: World, value: int, control: int) {
    && Controls(w.table, value, control)
    && w.client.section == Get(w.table, value).section
    && w.client.read <= Get(w.table, value).blob
  }

  /** The octet a control attribute holds after a write that leaves it exactly one. */
  function Octet(blob: seq<byte>, offset: nat, data: seq<byte>): byte
    requires offset + |data| == 1
  {
    if offset == 0 then data[0] else if blob == [] then 0 else blob[0]
  }

  /** The requests of others that tear a read in progress: a read at the start of section 0 while a
      value waits that does not begin with what the client has, a write over octets that the client has
      with other ones, and a write that makes a control attribute of the value name another section. */
  predicate Tears(w: World, value: int, s: Step) {
    var ch := Get(w.table, value);
    var read := w.client.read;
    match s
    case Read(handle, offset) => handle == value && Fresh(ch, offset) && !(read <= ch.next)
    case Write(handle, offset, data) =>
      if handle == value then offset < |read| && !(read[offset..] <= data)
      else
        && handle in w.table.controlled && w.table.controlled[handle] == value
        && offset + |data| == 1 && Octet(Get(w.table, handle).blob, offset, data) != w.client.section
    case _ => false
  }

  // ----- one step

  lemma PullKeeps(w: World, value: int, control: int, offset: nat, room: nat)
    requires Intact(w, value, control)
    ensures Intact(Next(value, control, w, Pull(offset, room)), value, control)
  {
  }

  /** A write leaves what the client has in place exactly if it starts behind it or repeats it. */
  lemma WriteKeepsIff(read: seq<byte>, blob: seq<byte>, offset: nat, data: seq<byte>)
    requires read <= blob
    ensures read <= Written(blob, offset, data) <==> offset >= |read| || read[offset..] <= data
  {
    var w := Written(blob, offset, data);
    assert offset <= |blob| ==> w[..offset] == blob[..offset] && w[offset..] == data;
    if offset < |read| {
      assert read == read[..offset] + read[offset..];
      if read <= w {
        assert read[offset..] == w[offset..][..|read| - offset];
      }
    }
  }

  /** What a write to a control attribute selects. */
  lemma SelectsOctet(blob: seq<byte>, offset: nat, data: seq<byte>)
    ensures |Written(blob, offset, data)| == offset + |data|
    ensures offset + |data| == 1 ==> Written(blob, offset, data)[0] == Octet(blob, offset, data)
  {
  }

  /** Exactly the tearing steps break a read in progress. */
  lemma IntactIff(w: World, value: int, control: int, s: Step)
    requires Intact(w, value, control)
    ensures Intact(Next(value, control, w, s), value, control) <==> !Tears(w, value, s)
  {
    match s
    case Pull(offset, room) => PullKeeps(w, value, control, offset, room);
    case Select(section) => SelectsOctet(Get(w.table, control).blob, 0, [section]);
    case Write(handle, offset, data) =>
      if handle == value {
        WriteKeepsIff(w.client.read, Get(w.table, value).blob, offset, data);
      } else {
        SelectsOctet(Get(w.table, handle).blob, offset, data);
      }
    case _ =>
  }

  // ----- whole runs

  /** No step of the run tears the read. */
  ghost predicate Undisturbed(value: int, control: int, w: World, steps: seq<Step>) {
    forall i :: 0 <= i < |steps| ==> !Tears(After(value, control, w, steps[..i]), value, steps[i])
  }

  function Stepper(value: int, control: int): (World, Step) -> World { (w, s) => Next(value, control, w, s) }

  function After(value: int, control: int, w: World, steps: seq<Step>): World {
    Fold(Stepper(value, control), w, steps)
  }

  /** Through any undisturbed run, whatever values are set meanwhile, the client holds the beginning of
      a single value. */
  lemma {:induction false} ReadsAreUntorn(value: int, control: int, w: World, steps: seq<Step>)
    requires Intact(w, value, control) && Undisturbed(value, control, w, steps)
    ensures Intact(After(value, control, w, steps), value, control)
    decreases |steps|
  {
    if steps != [] {
      var n := |steps| - 1;
      assert forall i :: 0 <= i < n ==> steps[..n][..i] == steps[..i];
      ReadsAreUntorn(value, control, w, steps[..n]);
      IntactIff(After(value, control, w, steps[..n]), value, control, steps[n]);
    }
  }

  /** No run, disturbed or not, gets past the last section that the control byte can select. */
  lemma {:induction false} NothingBeyondReach(value: int, control: int, w: World, steps: seq<Step>)
    requires |w.client.read| <= REACH
    ensures |After(value, control, w, steps).client.read| <= REACH
    decreases |steps|
  {
    if steps != [] {
      var n := |steps| - 1;
      NothingBeyondReach(value, control, w, steps[..n]);
      var v := After(value, control, w, steps[..n]);
      if steps[n].Pull? {
        var t := AfterRead(v.table, value, steps[n].offset);
        ReceivedBounded(v.client, Get(t, value), steps[n].offset, steps[n].room);
      }
    }
  }

  lemma ReceivedBounded(c: Client, ch: Characteristic, offset: nat, room: nat)
    requires |c.read| <= REACH
    ensures |Received(c, offset, Taken(Reply(ch, offset), room))| <= REACH
  {
  }

  // ----- reading a whole value

  /** Steps of others that leave the reader alone: values are set, this one's included; anything is read, but
      for a read that brings in a waiting value; other attributes are written, but for one that makes a
      control attribute of the value name another section. */
  predicate Quiet(w: World, value: int, s: Step) {
    match s
    case SetValue(_, _) => true
    case Read(handle, offset) => !(handle == value && Fresh(Get(w.table, value), offset))
    case Write(handle, _, _) => handle != value && !Tears(w, value, s)
    case _ => false
  }

  ghost predicate AllQuiet(value: int, control: int, w: World, steps: seq<Step>) {
    forall k :: 0 <= k < |steps| ==> Quiet(After(value, control, w, steps[..k]), value, steps[k])
  }

  /** What the reader depends on is the same in both worlds. */
  predicate SameView(v: World, w: World, value: int) {
    && v.client == w.client && v.table.controlled == w.table.controlled
    && Get(v.table, value).blob == Get(w.table, value).blob
    && Get(v.table, value).section == Get(w.table, value).section
  }

  lemma QuietStep(value: int, control: int, w: World, s: Step)
    requires Quiet(w, value, s) && w.client.section == Get(w.table, value).section && value !in w.table.controlled
    ensures SameView(Next(value, control, w, s), w, value)
  {
    if s.Write? { SelectsOctet(Get(w.table, s.handle).blob, s.offset, s.value); }
  }

  lemma {:induction false} QuietHarmless(value: int, control: int, w: World, steps: seq<Step>)
    requires Controls(w.table, value, control) && w.client.section == Get(w.table, value).section
    requires AllQuiet(value, control, w, steps)
    ensures SameView(After(value, control, w, steps), w, value)
    decreases |steps|
  {
    if steps != [] {
      var n := |steps| - 1;
      assert forall k :: 0 <= k < n ==> steps[..n][..k] == steps[..k];
      QuietHarmless(value, control, w, steps[..n]);
      QuietStep(value, control, After(value, control, w, steps[..n]), steps[n]);
    }
  }

  /** Own steps that do not start over, and quiet steps of others. */
  predicate Steady(w: World, value: int, s: Step) {
    s.Select? || (s.Pull? && !(s.offset == 0 && w.client.section == 0)) || Quiet(w, value, s)
  }

  /** Until someone starts over or writes into it, the value that was latched is the one that the client
      reads, whatever values are set meanwhile. */
  lemma {:induction false} LatchedValueIsHeld(value: int, control: int, w: World, steps: seq<Step>)
    requires Intact(w, value, control)
    requires forall i :: 0 <= i < |steps| ==> Steady(After(value, control, w, steps[..i]), value, steps[i])
    ensures
      var end := After(value, control, w, steps);
      Intact(end, value, control) && end.client.read <= Get(end.table, value).blob == Get(w.table, value).blob
    decreases |steps|
  {
    if steps != [] {
      var n := |steps| - 1;
      assert forall i :: 0 <= i < n ==> steps[..n][..i] == steps[..i];
      LatchedValueIsHeld(value, control, w, steps[..n]);
      SteadyStep(value, control, After(value, control, w, steps[..n]), steps[n]);
    }
  }

  lemma SteadyStep(value: int, control: int, w: World, s: Step)
    requires Intact(w, value, control) && Steady(w, value, s)
    ensures
      var r := Next(value, control, w, s);
      Intact(r, value, control) && Get(r.table, value).blob == Get(w.table, value).blob
  {
    if s.Pull? {
      PullKeeps(w, value, control, s.offset, s.room);
    } else if s.Select? {
      Selected(value, control, w, s.section);
    }
  }

  /** One turn of a client that reads on: others may act before its two steps and between them, and the
      reply may be cut off after any positive number of octets. */
  datatype Turn = Turn(before: seq<Step>, between: seq<Step>, room: nat)

  /** The client selects the section of the octet it needs next and reads there; when it has everything
      it makes no more steps of its own. */
  function TurnSteps(w: World, value: int, turn: Turn): seq<Step>
    requires |Get(w.table, value).blob| <= REACH
  {
    var p := |w.client.read|;
    if p >= |Get(w.table, value).blob| then turn.before
    else turn.before + [Select((p / SECTION_SIZE) as byte)] + turn.between + [Pull(p % SECTION_SIZE, turn.room)]
  }

  /** In its turn the client gets something back, and the others are quiet. */
  ghost predicate FairTurn(value: int, control: int, w: World, turn: Turn)
    requires |Get(w.table, value).blob| <= REACH
  {
    && turn.room > 0 && AllQuiet(value, control, w, turn.before)
    && (|w.client.read| < |Get(w.table, value).blob| ==>
          AllQuiet(value, control, AfterSelect(value, control, w, turn), turn.between))
  }

  function AfterSelect(value: int, control: int, w: World, turn: Turn): World
    requires |w.client.read| < REACH
  {
    Next(value, control, After(value, control, w, turn.before), Select((|w.client.read| / SECTION_SIZE) as byte))
  }

  ghost predicate Fair(value: int, control: int, w: World, turns: seq<Turn>)
    decreases |turns|
  {
    turns != [] && |Get(w.table, value).blob| <= REACH ==>
      && FairTurn(value, control, w, turns[0])
      && Fair(value, control, After(value, control, w, TurnSteps(w, value, turns[0])), turns[1..])
  }

  lemma AfterConcat(value: int, control: int, w: World, a: seq<Step>, b: seq<Step>)
    ensures After(value, control, w, a + b) == After(value, control, After(value, control, w, a), b)
  {
    FoldConcat(Stepper(value, control), w, a, b);
  }

  lemma AfterOne(value: int, control: int, w: World, s: Step)
    ensures After(value, control, w, [s]) == Next(value, control, w, s)
  {
    var step := Stepper(value, control);
    assert [s][..0] == [] && Fold(step, w, [s]) == step(w, s);
  }

  /** Selecting the section of position `p`, the length of what has been read. */
  lemma Selected(value: int, control: int, w: World, section: byte)
    requires Controls(w.table, value, control)
    ensures
      var w1 := Next(value, control, w, Select(section));
      SameView(w1, World(Put(w.table, value, Get(w.table, value).(section := section)), w.client.(section := section)), value)
  {
    SelectsOctet(Get(w.table, control).blob, 0, [section]);
  }

  /** Reading there gets at least one octet and latches nothing. */
  lemma Pulled(value: int, control: int, w: World, room: nat)
    requires Intact(w, value, control) && room > 0
    requires 0 < |w.client.read| < |Get(w.table, value).blob| && w.client.section == |w.client.read| / SECTION_SIZE
    ensures
      var w1 := Next(value, control, w, Pull(|w.client.read| % SECTION_SIZE, room));
      && Intact(w1, value, control) && Get(w1.table, value).blob == Get(w.table, value).blob
      && |w1.client.read| > |w.client.read| && w1.table.controlled == w.table.controlled
  {
    PullKeeps(w, value, control, |w.client.read| % SECTION_SIZE, room);
  }

  lemma TurnAdvances(value: int, control: int, w: World, turn: Turn)
    requires Intact(w, value, control) && 0 < |w.client.read| < |Get(w.table, value).blob| <= REACH
    requires FairTurn(value, control, w, turn)
    ensures
      var w1 := After(value, control, w, TurnSteps(w, value, turn));
      && Intact(w1, value, control) && Get(w1.table, value).blob == Get(w.table, value).blob
      && |w1.client.read| > |w.client.read| && w1.table.controlled == w.table.controlled
  {
    var p := |w.client.read|;
    var s0, s1 := Select((p / SECTION_SIZE) as byte), Pull(p % SECTION_SIZE, turn.room);
    var a := After(value, control, w, turn.before);
    QuietHarmless(value, control, w, turn.before);
    var b := Next(value, control, a, s0);
    Selected(value, control, a, s0.section);
    var c := After(value, control, b, turn.between);
    QuietHarmless(value, control, b, turn.between);
    Pulled(value, control, c, turn.room);
    AfterConcat(value, control, w, turn.before, [s0]);
    AfterOne(value, control, a, s0);
    AfterConcat(value, control, w, turn.before + [s0], turn.between);
    AfterConcat(value, control, w, turn.before + [s0] + turn.between, [s1]);
    AfterOne(value, control, c, s1);
  }

  /** The steps of a whole walk, everybody's included. */
  function Walk(value: int, control: int, w: World, turns: seq<Turn>): seq<Step>
    decreases |turns|
  {
    if turns == [] || |Get(w.table, value).blob| > REACH then []
    else
      var steps := TurnSteps(w, value, turns[0]);
      steps + Walk(value, control, After(value, control, w, steps), turns[1..])
  }

  /** A walk with enough turns ends with all of the value that was there when it began. */
  lemma {:induction false} WalkCompletes(value: int, control: int, w: World, turns: seq<Turn>)
    requires Intact(w, value, control) && Fair(value, control, w, turns)
    requires |Get(w.table, value).blob| <= REACH && (w.client.read == [] ==> Get(w.table, value).blob == [])
    requires |turns| >= |Get(w.table, value).blob| - |w.client.read|
    ensures
      var end := After(value, control, w, Walk(value, control, w, turns));
      end.client.read == Get(end.table, value).blob == Get(w.table, value).blob
    decreases |turns|
  {
    if turns != [] {
      var steps := TurnSteps(w, value, turns[0]);
      var w1 := After(value, control, w, steps);
      if |w.client.read| == |Get(w.table, value).blob| {
        QuietHarmless(value, control, w, steps);
      } else {
        TurnAdvances(value, control, w, turns[0]);
      }
      WalkCompletes(value, control, w1, turns[1..]);
      AfterConcat(value, control, w, steps, Walk(value, control, w1, turns[1..]));
    }
  }

  /** The value that a reader who starts now will see. */
  function Current(ch: Characteristic): seq<byte> { if ch.pending then ch.next else ch.blob }

  lemma FreshPull(value: int, control: int, w: World, room: nat)
    requires Controls(w.table, value, control) && w.client.section == 0 == Get(w.table, value).section && room > 0
    ensures
      var w1 := Next(value, control, w, Pull(0, room));
      && Intact(w1, value, control) && w1.table.controlled == w.table.controlled
      && Get(w1.table, value).blob == Current(Get(w.table, value))
      && (w1.client.read == [] ==> Get(w1.table, value).blob == [])
  {
  }

  /** From any state, in whatever way others set values and use other attributes in between and however
      short the replies: a client that selects section 0, reads and walks on ends with exactly the value
      that its first read latched, if that has at most 131072 octets. */
  lemma WalkReadsLatchedValue(value: int, control: int, w: World, between: seq<Step>, room: nat, turns: seq<Turn>)
    requires Controls(w.table, value, control) && room > 0
    requires AllQuiet(value, control, Next(value, control, w, Select(0)), between)
    requires
      var start := After(value, control, w, [Select(0)] + between);
      && |Current(Get(start.table, value))| <= REACH && |Current(Get(start.table, value))| <= |turns|
      && Fair(value, control, Next(value, control, start, Pull(0, room)), turns)
    ensures
      var start := After(value, control, w, [Select(0)] + between);
      var first := Next(value, control, start, Pull(0, room));
      var end := After(value, control, first, Walk(value, control, first, turns));
      end.client.read == Get(end.table, value).blob == Current(Get(start.table, value))
  {
    var w0 := Next(value, control, w, Select(0));
    AfterConcat(value, control, w, [Select(0)], between);
    AfterOne(value, control, w, Select(0));
    Selected(value, control, w, 0);
    QuietHarmless(value, control, w0, between);
    var start := After(value, control, w0, between);
    FreshPull(value, control, start, room);
    WalkCompletes(value, control, Next(value, control, start, Pull(0, room)), turns);
  }

  /** The step sets the attribute anew, or writes to it. */
  predicate Replaces(t: Table, value: int, s: Step) {
    (s.SetValue? && HandleOf(t, s.uuid) == value) || (s.Write? && s.handle == value)
  }

  ghost predicate NoneReplaces(t: Table, value: int, steps: seq<Step>) {
    forall k :: 0 <= k < |steps| ==> !Replaces(t, value, steps[k])
  }

  /** A set value is the one that the next reader sees. */
  lemma SetIsCurrent(value: int, control: int, w: World, uuid: nat, data: seq<byte>)
    requires HandleOf(w.table, uuid) == value && Controls(w.table, value, control)
    ensures
      var r := Next(value, control, w, SetValue(uuid, data));
      Current(Get(r.table, value)) == data && Controls(r.table, value, control) && SameHandles(r.table, w.table)
  {
  }

  ghost predicate SameHandles(a: Table, b: Table) { forall u :: HandleOf(a, u) == HandleOf(b, u) }

  lemma CurrentStep(value: int, control: int, w: World, s: Step)
    requires Controls(w.table, value, control) && !Replaces(w.table, value, s)
    ensures
      var r := Next(value, control, w, s);
      && Current(Get(r.table, value)) == Current(Get(w.table, value))
      && Controls(r.table, value, control) && SameHandles(r.table, w.table)
  {
  }

  /** Whatever is read, selected and written elsewhere, by anyone, the next reader sees the same value. */
  lemma {:induction false} CurrentIsKept(value: int, control: int, w: World, steps: seq<Step>)
    requires Controls(w.table, value, control) && NoneReplaces(w.table, value, steps)
    ensures
      var r := After(value, control, w, steps);
      && Current(Get(r.table, value)) == Current(Get(w.table, value))
      && Controls(r.table, value, control) && SameHandles(r.table, w.table)
    decreases |steps|
  {
    if steps != [] {
      var n := |steps| - 1;
      CurrentIsKept(value, control, w, steps[..n]);
      CurrentStep(value, control, After(value, control, w, steps[..n]), steps[n]);
    }
  }

  lemma SetAndKept(value: int, control: int, w: World, uuid: nat, data: seq<byte>, since: seq<Step>, between: seq<Step>)
    requires HandleOf(w.table, uuid) == value && Controls(w.table, value, control)
    requires NoneReplaces(w.table, value, since) && NoneReplaces(w.table, value, between)
    ensures
      var ready := After(value, control, Next(value, control, w, SetValue(uuid, data)), since);
      var start := After(value, control, ready, [Select(0)] + between);
      Controls(ready.table, value, control) && Current(Get(start.table, value)) == data
  {
    var set0 := Next(value, control, w, SetValue(uuid, data));
    SetIsCurrent(value, control, w, uuid, data);
    CurrentIsKept(value, control, set0, since);
    var ready := After(value, control, set0, since);
    var next := Next(value, control, ready, Select(0));
    CurrentStep(value, control, ready, Select(0));
    CurrentIsKept(value, control, next, between);
    AfterConcat(value, control, ready, [Select(0)], between);
    AfterOne(value, control, ready, Select(0));
  }

  /** A value is set; then anything happens but that it is set anew or written to; then a client selects
      section 0, reads and walks on. It ends with exactly the value that was set. */
  lemma WalkReadsSetValue(value: int, control: int, w: World, uuid: nat, data: seq<byte>, since: seq<Step>,
                          between: seq<Step>, room: nat, turns: seq<Turn>)
    requires HandleOf(w.table, uuid) == value && Controls(w.table, value, control)
    requires NoneReplaces(w.table, value, since) && NoneReplaces(w.table, value, between)
    requires room > 0 && |data| <= REACH && |data| <= |turns|
    requires
      var ready := After(value, control, Next(value, control, w, SetValue(uuid, data)), since);
      var start := After(value, control, ready, [Select(0)] + between);
      && AllQuiet(value, control, Next(value, control, ready, Select(0)), between)
      && Fair(value, control, Next(value, control, start, Pull(0, room)), turns)
    ensures
      var ready := After(value, control, Next(value, control, w, SetValue(uuid, data)), since);
      var start := After(value, control, ready, [Select(0)] + between);
      var first := Next(value, control, start, Pull(0, room));
      After(value, control, first, Walk(value, control, first, turns)).client.read == data
  {
    var ready := After(value, control, Next(value, control, w, SetValue(uuid, data)), since);
    SetAndKept(value, control, w, uuid, data, since, between);
    WalkReadsLatchedValue(value, control, ready, between, room, turns);
  }

  /** A value out of reach is read whole by no run at all. */
  lemma OutOfReach(value: int, control: int, t: Table, steps: seq<Step>, blob: seq<byte>)
    requires |blob| > REACH
    ensures After(value, control, World(t, Client([], 0)), steps).client.read != blob
  {
    NothingBeyondReach(value, control, World(t, Client([], 0)), steps);
  }
}
