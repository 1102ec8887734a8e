/**
 * The single writer of the similarity table: rows are saved in consecutive
 * batches, each one `bulk_create(..., ignore_conflicts=True)`.
 */
module EdgeWriter {
  import opened Models

  /** `batch_size = 1000` in both similarity commands. */
  const BatchSize: nat := 1000

  /** The `SimilarPlace` table as the commands change it. */
  class SimilarPlaceTable {
    var rows: EdgeStore

    constructor (initial: EdgeStore)
      ensures rows == initial
    {
      rows := initial;
    }

    /** One `bulk_create` call with `ignore_conflicts=True`. */
    method BulkCreateIgnoreConflicts(batch: seq<Edge>)
      modifies this
      ensures rows == InsertAll(old(rows), batch)
    {
      rows := InsertAll(rows, batch);
    }

    /** `SimilarPlace.objects.filter(similarity_type__in=channels).delete()` */
    method DeleteChannels(channels: set<Channel>)
      modifies this
      ensures rows == ClearChannels(old(rows), channels)
    {
      rows := ClearChannels(rows, channels);
    }
  }

  /** The slices `es[i:i+size]` for i = start, start + size, ... below |es|. */
  function BatchesFrom(es: seq<Edge>, start: nat, size: nat): seq<seq<Edge>>
    requires size > 0
    decreases |es| - start
  {
    if start >= |es| then []
    else
      var stop := if start + size <= |es| then start + size else |es|;
      [es[start..stop]] + BatchesFrom(es, start + size, size)
  }

  /** `for i in range(0, len(es), size): batch = es[i:i+size]` */
  function Batches(es: seq<Edge>, size: nat): seq<seq<Edge>>
    requires size > 0
  {
    BatchesFrom(es, 0, size)
  }

  /**
   * The batches are non-empty, hold at most `size` rows, all but the last
   * hold exactly `size`, and their concatenation is the remaining list.
   */
  lemma {:induction false} BatchesFromShape(es: seq<Edge>, start: nat, size: nat)
    requires size > 0 && start <= |es|
    ensures Flatten(BatchesFrom(es, start, size)) == es[start..]
    ensures forall k :: 0 <= k < |BatchesFrom(es, start, size)| ==> 0 < |BatchesFrom(es, start, size)[k]| <= size
    ensures forall k :: 0 <= k < |BatchesFrom(es, start, size)| - 1 ==> |BatchesFrom(es, start, size)[k]| == size
    decreases |es| - start
  {
    var bs := BatchesFrom(es, start, size);
    if start < |es| {
      var stop := if start + size <= |es| then start + size else |es|;
      var rest := if start + size <= |es| then BatchesFrom(es, start + size, size) else [];
      if start + size <= |es| {
        BatchesFromShape(es, start + size, size);
      }
      assert bs == [es[start..stop]] + rest;
      FlattenConcat([es[start..stop]], rest);
      assert Flatten([es[start..stop]]) == es[start..stop] by {
        assert [es[start..stop]][..0] == [];
      }
      assert es[start..] == es[start..stop] + es[stop..];
      forall k | 0 <= k < |bs| ensures 0 < |bs[k]| <= size {
        if k > 0 { assert bs[k] == rest[k - 1]; }
      }
      forall k | 0 <= k < |bs| - 1 ensures |bs[k]| == size {
        if k > 0 { assert bs[k] == rest[k - 1]; }
      }
    }
  }

  /** The whole list is saved as consecutive slices of at most `size` rows. */
  lemma BatchesShape(es: seq<Edge>, size: nat)
    requires size > 0
    ensures Flatten(Batches(es, size)) == es
    ensures forall b :: b in Batches(es, size) ==> 0 < |b| <= size
  {
    BatchesFromShape(es, 0, size);
    assert es[0..] == es;
  }

  /** Sending the batch that starts at `i` takes one batch off the rest and extends the inserted prefix. */
  lemma BatchStep(initial: EdgeStore, es: seq<Edge>, i: nat, size: nat)
    requires size > 0 && i < |es|
    ensures var stop := if i + size <= |es| then i + size else |es|;
            && BatchesFrom(es, i, size) == [es[i..stop]] + BatchesFrom(es, i + size, size)
            && InsertAll(InsertAll(initial, es[..i]), es[i..stop]) == InsertAll(initial, es[..stop])
  {
    var stop := if i + size <= |es| then i + size else |es|;
    InsertAllConcat(initial, es[..i], es[i..stop]);
    assert es[..i] + es[i..stop] == es[..stop];
  }

  /**
   * Save a channel's rows batch by batch; returns the batches it sent.
   * The table ends as if all rows were inserted at once with ignore-conflicts.
   */
  method SaveInBatches(table: SimilarPlaceTable, es: seq<Edge>, size: nat) returns (sent: seq<seq<Edge>>)
    requires size > 0
    modifies table
    ensures sent == Batches(es, size)
    ensures table.rows == InsertAll(old(table.rows), es)
  {
    ghost var initial := table.rows;
    sent := [];
    var i := 0;
    while i < |es|
      invariant sent + BatchesFrom(es, i, size) == Batches(es, size)
      invariant table.rows == InsertAll(initial, es[..if i <= |es| then i else |es|])
      decreases |es| - i
    {
      var stop := if i + size <= |es| then i + size else |es|;
      var batch := es[i..stop];
      BatchStep(initial, es, i, size);
      table.BulkCreateIgnoreConflicts(batch);
      sent := sent + [batch];
      i := i + size;
    }
    assert es[..|es|] == es;
  }
}
