/**
 * What both scoring scripts read and keep: the merged answers file (`data`), keyed
 * by the global item index, and the results file (`local_results`), one record per
 * key. Both are JSON objects whose key order is kept.
 */
module Items {
  import opened Json
  import Dicts

  /** `data` or `local_results`: one record per key, in insertion order. */
  type Store = Dicts.Dict<Record>

  /** The item has the four fields the scripts read. */
  predicate Complete(item: Record)
  {
    "question" in item && "answer" in item && "response" in item && "category" in item
  }

  /** The store already has a record for `k` with an `llm_score` key, whatever its value. */
  predicate Judged(store: Store, k: string)
  {
    k in store.vals && "llm_score" in store.vals[k]
  }
}
