/** Blob attributes of the older GATT server (service/gatt_server_old.cc). A value of any size is read
    through a window of one section at a time; a control attribute selects the section, and a new value
    waits beside the current one until a reader starts over. */
module BlobModel {
  import opened Bytes
  import opened Collections

  /** The size of the window: the longest attribute value of Bluetooth. */
  const SECTION_SIZE: nat := 512

  datatype Characteristic = Characteristic(uuid: nat, section: byte, blob: seq<byte>,
                                           next: seq<byte>, pending: bool, notify: bool)

  /** An attribute that nobody has added is one with this value, as soon as it is named. */
  const DEFAULT := Characteristic(0, 0, [], [], false, false)

  datatype Table = Table(attributes: map<nat, int>, characteristics: map<int, Characteristic>,
                         controlled: map<int, int>)

  function Get(t: Table, handle: int): Characteristic {
    if handle in t.characteristics then t.characteristics[handle] else DEFAULT
  }

  function Put(t: Table, handle: int, ch: Characteristic): Table {
    t.(characteristics := t.characteristics[handle := ch])
  }

  function Min(a: nat, b: nat): nat { if a <= b then a else b }

  // ----- reading

  predicate Fresh(ch: Characteristic, offset: nat) { ch.pending && offset == 0 && ch.section == 0 }

  function Latched(ch: Characteristic, offset: nat): Characteristic {
    if Fresh(ch, offset) then ch.(blob := ch.next, next := ch.blob, pending := false) else ch
  }

  /** The part of the value that the selected section shows. */
  function Window(blob: seq<byte>, section: byte): (r: seq<byte>)
    ensures |r| <= SECTION_SIZE
  {
    var start := Min(|blob|, section * SECTION_SIZE);
    blob[start..start + Min(SECTION_SIZE, |blob| - start)]
  }

  function Reply(ch: Characteristic, offset: nat): seq<byte> {
    var window := Window(ch.blob, ch.section);
    if offset < |window| then window[offset..] else []
  }

  function AfterRead(t: Table, handle: int, offset: nat): Table {
    Put(t, handle, Latched(Get(t, handle), offset))
  }

  // ----- writing

  /** A vector cut or filled with zeros to length `n`. */
  function Resized(blob: seq<byte>, n: nat): (r: seq<byte>)
    ensures |r| == n
  {
    if n <= |blob| then blob[..n] else blob + seq(n - |blob|, i => 0)
  }

  /** A written value replaces everything from its offset on. */
  function Written(blob: seq<byte>, offset: nat, value: seq<byte>): seq<byte> {
    Resized(blob, offset) + value
  }

  /** Octet by octet: what was there before the offset, zeros where there was nothing, then the value. */
  lemma WrittenAt(blob: seq<byte>, offset: nat, value: seq<byte>, k: nat)
    requires k < offset + |value|
    ensures
      var w := Written(blob, offset, value);
      && |w| == offset + |value|
      && w[k] == if k >= offset then value[k - offset] else if k < |blob| then blob[k] else 0
  {
  }

  function AfterWrite(t: Table, handle: int, offset: nat, value: seq<byte>): Table {
    var blob := Written(Get(t, handle).blob, offset, value);
    var t1 := Put(t, handle, Get(t, handle).(blob := blob));
    if handle in t.controlled && |blob| == 1
    then Put(t1, t.controlled[handle], Get(t1, t.controlled[handle]).(section := blob[0]))
    else t1
  }

  // ----- setting a value

  function HandleOf(t: Table, uuid: nat): int {
    if uuid in t.attributes then t.attributes[uuid] else 0
  }

  function AfterSet(t: Table, uuid: nat, value: seq<byte>): Table {
    var handle := HandleOf(t, uuid);
    Put(t.(attributes := t.attributes[uuid := handle]), handle,
        Get(t, handle).(next := value, pending := true))
  }

  // ----- a long write

  /** The writes of a long value: each chunk at the offset where the one before it ended. */
  function LongWrite(blob: seq<byte>, chunks: seq<seq<byte>>): seq<byte> {
    if chunks == [] then blob
    else
      var n := |chunks| - 1;
      Written(LongWrite(blob, chunks[..n]), |Flatten(chunks[..n])|, chunks[n])
  }

  /** However it is cut, a long value replaces whatever was there. */
  lemma {:induction false} LongWriteIsValue(blob: seq<byte>, chunks: seq<seq<byte>>)
    requires chunks != []
    ensures LongWrite(blob, chunks) == Flatten(chunks)
    decreases |chunks|
  {
    var n := |chunks| - 1;
    if n > 0 {
      LongWriteIsValue(blob, chunks[..n]);
    }
    FlattenSnoc(chunks);
  }
}
