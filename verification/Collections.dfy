/** Optional values and sequences of sequences, shared by the models. */
module Collections {

  datatype Option<+T> = None | Some(value: T)

  function Flatten<T>(parts: seq<seq<T>>): seq<T> {
    if parts == [] then [] else parts[0] + Flatten(parts[1..])
  }

  lemma {:induction false} FlattenSnoc<T>(parts: seq<seq<T>>)
    requires parts != []
    ensures Flatten(parts) == Flatten(parts[..|parts| - 1]) + parts[|parts| - 1]
    decreases |parts|
  {
    var n := |parts| - 1;
    if n > 0 {
      FlattenSnoc(parts[1..]);
      assert parts[1..][..n - 1] == parts[..n][1..];
      assert parts[0] + Flatten(parts[..n][1..]) == Flatten(parts[..n]);
    }
  }
}
