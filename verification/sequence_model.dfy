/**
 * The `Sequence` collection: one running counter per `seqid`, advanced by an
 * upserting `$inc`.
 */
module SequenceModel {
  import opened Wrappers

  /** A `Sequence` document as storage hands it back; `nextSeq` may be missing. */
  datatype SeqDoc = SeqDoc(seqid: string, nextSeq: Option<nat>)

  /**
   * The number `next` reports for the document storage returned: the
   * destructuring default `nextSeq = 1` and the `|| {}` fallback both give 1.
   */
  function NextSeqOf(doc: Option<SeqDoc>): (n: nat)
    ensures doc.None? ==> n == 1
    ensures doc.Some? && doc.value.nextSeq.None? ==> n == 1
    ensures doc.Some? && doc.value.nextSeq.Some? ==> n == doc.value.nextSeq.value
  {
    match doc
    case None => 1
    case Some(d) => if d.nextSeq.Some? then d.nextSeq.value else 1
  }

  /** The stored counter of `id`; an id with no document counts as 0, as `$inc` does. */
  function CounterOf(counters: map<string, nat>, id: string): nat
  {
    if id in counters then counters[id] else 0
  }

  /** The counters after one `next(id)`: `id` goes up by exactly one and nothing else moves. */
  function Bump(counters: map<string, nat>, id: string): (after: map<string, nat>)
    ensures id in after && after[id] == CounterOf(counters, id) + 1
    ensures after.Keys == counters.Keys + {id}
    ensures forall other :: other != id ==> CounterOf(after, other) == CounterOf(counters, other)
  {
    counters[id := CounterOf(counters, id) + 1]
  }

  /** The values a series of `next` calls returns, one per id, starting from `counters`. */
  function Run(counters: map<string, nat>, ids: seq<string>): (values: seq<nat>)
    ensures |values| == |ids|
    decreases |ids|
  {
    if ids == [] then [] else [CounterOf(counters, ids[0]) + 1] + Run(Bump(counters, ids[0]), ids[1..])
  }

  /** Counters never go down, so a later call for an id returns more than the counter held before. */
  lemma {:induction false} RunAbove(counters: map<string, nat>, ids: seq<string>, j: nat)
    requires j < |ids|
    ensures Run(counters, ids)[j] > CounterOf(counters, ids[j])
    decreases j
  {
    if j > 0 {
      RunAbove(Bump(counters, ids[0]), ids[1..], j - 1);
      assert ids[1..][j - 1] == ids[j];
    }
  }

  /** Two calls for the same id: the later one returns strictly more. */
  lemma {:induction false} RunStrictlyIncreasing(counters: map<string, nat>, ids: seq<string>, i: nat, j: nat)
    requires i < j < |ids| && ids[i] == ids[j]
    ensures Run(counters, ids)[i] < Run(counters, ids)[j]
    decreases i
  {
    var rest := Run(Bump(counters, ids[0]), ids[1..]);
    assert ids[1..][j - 1] == ids[j];
    if i == 0 {
      RunAbove(Bump(counters, ids[0]), ids[1..], j - 1);
    } else {
      assert ids[1..][i - 1] == ids[i];
      RunStrictlyIncreasing(Bump(counters, ids[0]), ids[1..], i - 1, j - 1);
    }
  }

  /** The `Sequence` collection. */
  class SequenceStore {
    /** `nextSeq` of every stored document, keyed by its unique `seqid`. */
    var counters: map<string, nat>

    constructor (counters: map<string, nat>)
      ensures this.counters == counters
    {
      this.counters := counters;
    }

    /**
     * `next(id)`: upsert the document for `id`, add one to `nextSeq` and return
     * the new value; a fresh id yields 1.
     */
    method Next(id: string) returns (n: nat)
      modifies this
      ensures counters == Bump(old(counters), id)
      ensures n == counters[id] == CounterOf(old(counters), id) + 1
      ensures id !in old(counters) ==> n == 1
      ensures n == Run(old(counters), [id])[0]
    {
      counters := counters[id := CounterOf(counters, id) + 1];
      // The upserting update returns the new document, so the `|| {}` default
      // of `NextSeqOf` never applies here: the result is the bumped counter.
      n := counters[id];
    }
  }
}
