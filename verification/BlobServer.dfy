/** The attribute server of service/gatt_server_old.cc, updated in place by its callbacks and by the
    application. Every operation is one turn under the server's lock. */
module BlobServer {
  import opened Bytes
  import opened BlobModel
  import opened BlobSetup
  import opened Collections
  import ST = ServiceTable

  /** What the application hears of a write. */
  datatype Notice = Quiet | Told(uuid: nat)

  /** The answer to a write request repeats it. */
  datatype WriteResponse = WriteResponse(handle: int, offset: nat, value: seq<byte>)

  /** No other attribute changed but for the section it shows. */
  ghost predicate SameButSections(t: Table, r: Table, handle: int) {
    forall h :: h != handle ==> Get(r, h) == Get(t, h).(section := Get(r, h).section)
  }

  class Server {
    var attributes: map<nat, int>
    var characteristics: map<int, Characteristic>
    var controlled: map<int, int>
    var lastWrite: nat
    var connections: set<int>
    var pending: seq<ST.Element>
    var blobIndex: set<nat>

    constructor (head: ST.Element)
      ensures Snap() == Table(map[], map[], map[])
      ensures pending == Pending(head, []) && blobIndex == Index(head, [])
      ensures connections == {}
    {
      attributes, characteristics, controlled := map[], map[], map[];
      lastWrite, connections := 0, {};
      pending, blobIndex := [head], {};
    }

    function Snap(): Table
      reads this
    {
      Table(attributes, characteristics, controlled)
    }

    /** An attribute by its handle; the first mention of a handle makes an attribute for it. */
    function At(handle: int): Characteristic
      reads this
    {
      Get(Snap(), handle)
    }

    // ----- declaring

    method AddCharacteristic(uuid: nat, properties: nat, permissions: nat)
      modifies this`pending
      ensures pending == old(pending) + Elements(Plain(uuid, properties, permissions))
    {
      pending := pending + [ST.Element(ST.CharacteristicKind, uuid, 0, properties, permissions)];
    }

    method AddBlob(uuid: nat, control: nat, properties: nat, permissions: nat)
      modifies this`pending, this`blobIndex
      ensures pending == old(pending) + Elements(Blob(uuid, control, properties, permissions))
      ensures blobIndex == old(blobIndex) + Marks(|old(pending)|, Blob(uuid, control, properties, permissions))
    {
      AddCharacteristic(uuid, properties, permissions);
      blobIndex := blobIndex + {|pending|};
      AddCharacteristic(control, READ_WRITE, PERMISSION_READ_WRITE);
    }

    method ServiceAdded(svc: seq<ST.Element>)
      requires svc != []
      modifies this
      ensures Snap() == Added(old(Snap()), old(blobIndex), svc, |svc|)
      ensures pending == [] && blobIndex == {}
      ensures connections == old(connections) && lastWrite == old(lastWrite)
    {
      var prevHandle: int, prevProperties: nat := 0, 0;
      var i := 1;
      while i < |svc|
        invariant 1 <= i <= |svc|
        invariant (prevHandle, prevProperties) == Previous(svc, i)
        invariant Snap() == Added(old(Snap()), old(blobIndex), svc, i)
        invariant blobIndex == old(blobIndex) && connections == old(connections) && lastWrite == old(lastWrite)
      {
        var el := svc[i];
        if el.kind == ST.CharacteristicKind {
          Enter(el);
          if i in blobIndex {
            Attach(el.handle, prevHandle, Notifies(prevProperties));
          }
          prevHandle, prevProperties := el.handle, el.properties;
        }
        i := i + 1;
      }
      pending, blobIndex := [], {};
    }

    method Enter(el: ST.Element)
      modifies this`attributes, this`characteristics
      ensures Snap() == AddOne(old(Snap()), el)
    {
      attributes := attributes[el.uuid := el.handle];
      var ch := At(el.handle);
      characteristics := characteristics[el.handle := ch.(uuid := el.uuid, section := 0)];
    }

    method Attach(control: int, value: int, notify: bool)
      modifies this`characteristics, this`controlled
      ensures Snap() == Link(old(Snap()), control, value, notify)
    {
      controlled := controlled[control := value];
      var blob := At(value);
      characteristics := characteristics[value := blob.(notify := notify)];
      var ctrl := At(control);
      characteristics := characteristics[control := ctrl.(next := [0], pending := true, section := 0, notify := false)];
    }

    // ----- serving

    /** The reply to a read request. */
    method RequestRead(handle: int, offset: nat) returns (reply: seq<byte>)
      modifies this`characteristics
      ensures Snap() == AfterRead(old(Snap()), handle, offset)
      ensures reply == Reply(Get(Snap(), handle), offset)
    {
      var ch := At(handle);
      if ch.pending && offset == 0 && ch.section == 0 {
        ch := ch.(blob := ch.next, next := ch.blob, pending := false);
      }
      characteristics := characteristics[handle := ch];
      var start := Min(|ch.blob|, ch.section * SECTION_SIZE);
      var remaining := |ch.blob| - start;
      var size := Min(SECTION_SIZE, remaining);
      reply := [];
      if offset < size {
        reply := ch.blob[start + offset..start + size];
      }
    }

    /** Resize, then copy. */
    static method Overwrite(blob: seq<byte>, offset: nat, value: seq<byte>) returns (r: seq<byte>)
      ensures r == Written(blob, offset, value)
    {
      r := Resized(blob, offset + |value|);
      r := r[..offset] + value;
      assert r[..offset] == Resized(blob, offset);
    }

    /** Stores a written value, and says whether the application is to be told at once. */
    method RequestWrite(handle: int, offset: nat, needRsp: bool, isPrep: bool, value: seq<byte>)
      returns (notice: Notice, response: Option<WriteResponse>)
      modifies this`characteristics, this`lastWrite
      ensures Snap() == AfterWrite(old(Snap()), handle, offset, value)
      ensures
        var selects := handle in controlled && offset + |value| == 1;
        var uuid := old(Get(Snap(), handle)).uuid;
        && notice == (if selects || isPrep then Quiet else Told(uuid))
        && lastWrite == (if !selects && isPrep then uuid else old(lastWrite))
      ensures response == if needRsp then Some(WriteResponse(handle, offset, value)) else None
    {
      var ch := At(handle);
      var blob := Overwrite(ch.blob, offset, value);
      characteristics := characteristics[handle := ch.(blob := blob)];
      notice := Quiet;
      if handle in controlled && |blob| == 1 {
        var target := At(controlled[handle]);
        characteristics := characteristics[controlled[handle] := target.(section := blob[0])];
      } else if !isPrep {
        notice := Told(ch.uuid);
      } else {
        lastWrite := ch.uuid;
      }
      response := if needRsp then Some(WriteResponse(handle, offset, value)) else None;
    }

    method RequestExecWrite(execute: bool) returns (notice: Notice)
      ensures notice == if execute then Told(lastWrite) else Quiet
    {
      notice := if execute then Told(lastWrite) else Quiet;
    }

    /** One prepared write, as far as a client can tell. */
    method WriteChunk(handle: int, offset: nat, chunk: seq<byte>)
      modifies this`characteristics, this`lastWrite
      ensures At(handle) == old(At(handle)).(blob := Written(old(At(handle)).blob, offset, chunk), section := At(handle).section)
      ensures handle !in controlled || offset + |chunk| != 1 ==> lastWrite == At(handle).uuid
      ensures SameButSections(old(Snap()), Snap(), handle)
    {
      var _, _ := RequestWrite(handle, offset, true, true, chunk);
    }

    /** A client's long write: prepared writes of the chunks, each where the one before it ended, then an
        execute. The attribute holds exactly the chunks together, whatever it held before, no other
        attribute changes but for a section selected, and the application is told of this attribute,
        unless the whole value is one octet for a control attribute. */
    method WriteLong(handle: int, chunks: seq<seq<byte>>) returns (notice: Notice)
      requires chunks != []
      modifies this`characteristics, this`lastWrite
      ensures At(handle).blob == Flatten(chunks) && At(handle).uuid == old(At(handle)).uuid
      ensures handle !in controlled || |Flatten(chunks)| != 1 ==> notice == Told(At(handle).uuid)
      ensures SameButSections(old(Snap()), Snap(), handle)
    {
      ghost var blob := At(handle).blob;
      var offset := 0;
      for i := 0 to |chunks|
        invariant offset == |Flatten(chunks[..i])|
        invariant At(handle).blob == LongWrite(blob, chunks[..i]) && At(handle).uuid == old(At(handle)).uuid
        invariant i > 0 && (handle !in controlled || offset != 1) ==> lastWrite == At(handle).uuid
        invariant SameButSections(old(Snap()), Snap(), handle)
      {
        WriteChunk(handle, offset, chunks[i]);
        FlattenSnoc(chunks[..i + 1]);
        assert chunks[..i + 1][..i] == chunks[..i];
        offset := offset + |chunks[i]|;
      }
      assert chunks[..|chunks|] == chunks;
      LongWriteIsValue(blob, chunks);
      notice := RequestExecWrite(true);
    }

    /** Leaves a new value waiting, and says which connections are sent an indication. */
    method SetCharacteristicValue(uuid: nat, value: seq<byte>) returns (told: set<int>)
      modifies this`attributes, this`characteristics
      ensures Snap() == AfterSet(old(Snap()), uuid, value)
      ensures told == if Get(Snap(), HandleOf(Snap(), uuid)).notify then connections else {}
    {
      if uuid !in attributes {
        attributes := attributes[uuid := 0];
      }
      var handle := attributes[uuid];
      assert attributes == old(attributes)[uuid := handle];
      var ch := At(handle);
      characteristics := characteristics[handle := ch.(next := value, pending := true)];
      told := if ch.notify then connections else {};
    }

    method GetCharacteristicValue(uuid: nat) returns (value: seq<byte>)
      modifies this`attributes, this`characteristics
      ensures value == Get(old(Snap()), HandleOf(old(Snap()), uuid)).blob
      ensures forall h :: Get(Snap(), h) == Get(old(Snap()), h)
    {
      if uuid !in attributes {
        attributes := attributes[uuid := 0];
      }
      var ch := At(attributes[uuid]);
      characteristics := characteristics[attributes[uuid] := ch];
      value := ch.blob;
    }
  }
}
