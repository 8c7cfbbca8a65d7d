/**
 * The vector collection as the analyzer uses it: its entries (an `add`
 * appends one, see the analyzers) and a nearest-neighbour `query`. The
 * ranking itself is an oracle; what the model relies on is the stated
 * contract that a query returns at most `k` documents, each one the
 * document of a stored entry.
 */
module VectorIndex {
  import opened Records

  /** The nearest-neighbour query: stored entries, query vector, `n_results`. */
  type QueryOracle = (seq<IndexEntry>, Vector, nat) -> seq<seq<string>>

  /** The documents of the stored entries, in insertion order. */
  function Documents(entries: seq<IndexEntry>): seq<string>
  {
    seq(|entries|, i requires 0 <= i < |entries| => entries[i].document)
  }

  /** The ids of the stored entries, in insertion order. */
  function Ids(entries: seq<IndexEntry>): seq<string>
  {
    seq(|entries|, i requires 0 <= i < |entries| => entries[i].id)
  }

  /** One query answer keeps the contract: at most `k` hits, each a stored document. */
  predicate AnswerSound(entries: seq<IndexEntry>, k: nat, answer: seq<seq<string>>)
  {
    answer != [] ==>
      |answer[0]| <= k && forall j :: 0 <= j < |answer[0]| ==> answer[0][j] in Documents(entries)
  }

  /** The query oracle keeps the contract on every input. */
  ghost predicate QuerySound(query: QueryOracle)
  {
    forall entries, v, k :: AnswerSound(entries, k, query(entries, v, k))
  }

  /**
   * `results['documents'][0] if results['documents'] else []`: the hits for
   * the single query vector, or none.
   */
  function Similar(query: QueryOracle, entries: seq<IndexEntry>, v: Vector, k: nat): (r: seq<string>)
    requires QuerySound(query)
    ensures |r| <= k
    ensures forall j :: 0 <= j < |r| ==> r[j] in Documents(entries)
    ensures query(entries, v, k) == [] ==> r == []
  {
    var answer := query(entries, v, k);
    assert AnswerSound(entries, k, answer);
    if answer != [] then answer[0] else []
  }

  /** A query on an empty collection returns no documents. */
  lemma SimilarOnEmpty(query: QueryOracle, v: Vector, k: nat)
    requires QuerySound(query)
    ensures Similar(query, [], v, k) == []
  {
    var r := Similar(query, [], v, k);
    assert r == [] || r[0] in Documents([]);
  }
}
