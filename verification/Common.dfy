/** Small shared vocabulary. */
module Common {

  datatype Option<+T> = None | Some(value: T)

  function One(b: bool): nat { if b then 1 else 0 }

  lemma Associate<T>(x: seq<T>, y: seq<T>, z: seq<T>)
    ensures (x + y) + z == x + (y + z)
  {
  }

  /** A frontier message as the Kafka reader delivers it. */
  datatype Message = Message(partition: int, offset: int, value: string)

  /** The messages of one partition, in order. */
  function OfPartition(ms: seq<Message>, p: int): (r: seq<Message>)
    ensures forall m :: m in r <==> m in ms && m.partition == p
  {
    if ms == [] then []
    else
      var rest := OfPartition(ms[..|ms| - 1], p);
      assert ms == ms[..|ms| - 1] + [ms[|ms| - 1]];
      if ms[|ms| - 1].partition == p then rest + [ms[|ms| - 1]] else rest
  }

  lemma OfPartitionSnoc(ms: seq<Message>, m: Message, p: int)
    ensures OfPartition(ms + [m], p) ==
            if m.partition == p then OfPartition(ms, p) + [m] else OfPartition(ms, p)
  {
    assert (ms + [m])[..|ms|] == ms;
  }

  lemma OfPartitionPrefix(ms: seq<Message>, ns: seq<Message>, p: int)
    ensures OfPartition(ms, p) <= OfPartition(ms + ns, p)
    decreases |ns|
  {
    if ns == [] {
      assert ms + ns == ms;
    } else {
      var front := ns[..|ns| - 1];
      OfPartitionPrefix(ms, front, p);
      assert ms + ns == (ms + front) + [ns[|ns| - 1]];
      OfPartitionSnoc(ms + front, ns[|ns| - 1], p);
    }
  }
}
