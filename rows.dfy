/**
 * A retrieved candidate, the dictionary that flows from the retriever
 * through `rerank` into the answer handlers. Only the keys the core reads
 * or writes are fields; an absent key is `None`.
 */
module Rows {
  import opened Common

  /**
   * `text`: the passage (an absent key reads as "");
   * `docId`: `doc_id`; `score`: the retriever's score;
   * `snippet`: the short excerpt the legacy handler prefers for citations;
   * `ce` and `final`: the keys `_ce` and `_final` that `rerank` writes.
   */
  datatype Row = Row(
    text: string,
    docId: Option<string>,
    score: Option<real>,
    snippet: Option<string>,
    ce: Option<real>,
    final: Option<real>)

  /** The texts of `rows`, in order. */
  function Texts(rows: seq<Row>): (r: seq<string>)
    ensures |r| == |rows|
    ensures forall i :: 0 <= i < |rows| ==> r[i] == rows[i].text
  {
    seq(|rows|, i requires 0 <= i < |rows| => rows[i].text)
  }
}
