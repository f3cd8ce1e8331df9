/** The flattener: strips the response envelope down to its records. */
module Flattener {
  import opened Values
  import opened Fetcher

  /** `to_data_frame`: no table when `records` is missing, null or empty;
      otherwise one row per record, in order, values untouched. */
  function ToDataFrame(p: Payload): (t: Option<Table>)
    ensures t.None? <==> p.records.None? || p.records.value == []
    ensures t.Some? ==> |t.value| == |p.records.value| > 0
    ensures t.Some? ==> forall i :: 0 <= i < |t.value| ==> t.value[i] == p.records.value[i]
  {
    if p.records.Some? && p.records.value != [] then Some(p.records.value) else None
  }

  /** The truncation warning changes nothing downstream: whatever `total`
      says, the records that did arrive are flattened. */
  lemma FlattenIgnoresTotal(p: Payload, total: Option<int>)
    ensures ToDataFrame(p.(total := total)) == ToDataFrame(p)
  {
  }

  /** A failed fetch yields no table. */
  lemma FlattenEmptyPayload()
    ensures ToDataFrame(EmptyPayload) == None
  {
  }
}
