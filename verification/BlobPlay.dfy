/** Runs played on the attribute server object, with a client that reads a blob among them. */
module BlobPlay {
  import opened Bytes
  import opened BlobModel
  import opened BlobReads
  import BlobServer

  /** One step, of the client or of anyone else. */
  method Handle(server: BlobServer.Server, value: int, control: int, client: Client, s: Step) returns (c: Client)
    modifies server
    ensures World(server.Snap(), c) == Next(value, control, World(old(server.Snap()), client), s)
    ensures server.controlled == old(server.controlled)
  {
    c := client;
    match s
    case Select(section) =>
      var _, _ := server.RequestWrite(control, 0, true, false, [section]);
      c := c.(section := section);
    case Pull(offset, room) =>
      var reply := server.RequestRead(value, offset);
      c := c.(read := Received(client, offset, Taken(reply, room)));
    case Read(handle, offset) => var _ := server.RequestRead(handle, offset);
    case Write(handle, offset, data) => var _, _ := server.RequestWrite(handle, offset, true, false, data);
    case SetValue(uuid, data) => var _ := server.SetCharacteristicValue(uuid, data);
  }

  /** Any run on a server object: it does what the specification does, and a read in progress that nobody
      tears stays whole. */
  method Play(server: BlobServer.Server, value: int, control: int, client: Client, steps: seq<Step>) returns (c: Client)
    modifies server
    ensures World(server.Snap(), c) == After(value, control, World(old(server.Snap()), client), steps)
    ensures
      var w := World(old(server.Snap()), client);
      Intact(w, value, control) && Undisturbed(value, control, w, steps) ==> c.read <= server.At(value).blob
  {
    ghost var w := World(server.Snap(), client);
    c := client;
    for n := 0 to |steps|
      invariant World(server.Snap(), c) == After(value, control, w, steps[..n])
    {
      c := Handle(server, value, control, c, steps[n]);
      assert steps[..n + 1][..n] == steps[..n];
    }
    assert steps[..|steps|] == steps;
    if Intact(w, value, control) && Undisturbed(value, control, w, steps) {
      ReadsAreUntorn(value, control, w, steps);
    }
  }

  /** A client reads a blob from a server object while others go on: it gets the value that its first read
      latched, all of it and nothing else. */
  method ReadBlob(server: BlobServer.Server, value: int, control: int, between: seq<Step>, room: nat, turns: seq<Turn>)
    returns (data: seq<byte>)
    requires Controls(server.Snap(), value, control) && room > 0
    requires
      var w := World(server.Snap(), Client([], 0));
      var start := After(value, control, w, [Select(0)] + between);
      && AllQuiet(value, control, Next(value, control, w, Select(0)), between)
      && |Current(Get(start.table, value))| <= REACH && |Current(Get(start.table, value))| <= |turns|
      && Fair(value, control, Next(value, control, start, Pull(0, room)), turns)
    modifies server
    ensures
      var start := After(value, control, World(old(server.Snap()), Client([], 0)), [Select(0)] + between);
      data == server.At(value).blob == Current(Get(start.table, value))
  {
    ghost var w := World(server.Snap(), Client([], 0));
    WalkReadsLatchedValue(value, control, w, between, room, turns);
    var c := Play(server, value, control, Client([], 0), [Select(0)] + between);
    c := Handle(server, value, control, c, Pull(0, room));
    var walk := Walk(value, control, World(server.Snap(), c), turns);
    c := Play(server, value, control, c, walk);
    data := c.read;
  }
}
