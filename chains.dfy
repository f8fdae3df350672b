/** Chain records as the registry stores them, the per-pass descriptors built
    from them, and the registry read that produces a pass's descriptor list. */
module Chains {

  /** The status value the registry is asked to filter on. */
  const EnabledStatus: string := "enabled"

  /** A row of the blockchain table, with its server string already
      decrypted; the stored height lives in the height table. */
  datatype ChainRecord = ChainRecord(id: int, key: string, client: string, server: string, status: string)

  /** What one pass works on: identity, name, client kind, resolved server
      string and the height read from the table when the pass started. */
  datatype Descriptor = Descriptor(id: int, key: string, client: string, server: string, height: int)

  /** The chain ids mentioned by a descriptor list. */
  function Ids(chains: seq<Descriptor>): set<int>
  {
    set v | v in chains :: v.id
  }

  /** Every descriptor carries the height currently stored for its id. */
  ghost predicate Consistent(chains: seq<Descriptor>, heights: map<int, int>)
  {
    forall v :: v in chains ==> v.id in heights && v.height == heights[v.id]
  }

  /** The registry read of one pass: the enabled records that have a stored
      height, in table order, each paired with that height. */
  function Snapshot(records: seq<ChainRecord>, heights: map<int, int>): (chains: seq<Descriptor>)
  {
    if records == [] then []
    else
      var r := records[0];
      var rest := Snapshot(records[1..], heights);
      if r.status == EnabledStatus && r.id in heights
      then [Descriptor(r.id, r.key, r.client, r.server, heights[r.id])] + rest
      else rest
  }

  /** The registry read returns exactly the enabled records that have a
      stored height, each carrying that height. */
  lemma {:induction false} SnapshotFaithful(records: seq<ChainRecord>, heights: map<int, int>)
    ensures Consistent(Snapshot(records, heights), heights)
    ensures forall v :: v in Snapshot(records, heights) ==>
              ChainRecord(v.id, v.key, v.client, v.server, EnabledStatus) in records
    ensures forall r :: r in records && r.status == EnabledStatus && r.id in heights ==>
              Descriptor(r.id, r.key, r.client, r.server, heights[r.id]) in Snapshot(records, heights)
    ensures |Snapshot(records, heights)| <= |records|
    decreases |records|
  {
    if records != [] {
      SnapshotFaithful(records[1..], heights);
      forall r | r in records && r.status == EnabledStatus && r.id in heights
        ensures Descriptor(r.id, r.key, r.client, r.server, heights[r.id]) in Snapshot(records, heights)
      {
        if r != records[0] {
          assert r in records[1..];
        }
      }
    }
  }
}
