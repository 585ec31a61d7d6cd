/** A progress record and the field-level merge `{ ...(p[tid] || {}), ...progress }`. */
module Progress {

  /** A progress record: field name to value (the application writes `notes`). */
  type Fields = map<string, string>

  /** The spread of `partial` over `existing`: `partial`'s fields win, the other fields stay. */
  function Merge(existing: Fields, partial: Fields): (r: Fields)
    ensures r.Keys == existing.Keys + partial.Keys
    ensures forall k :: k in partial ==> r[k] == partial[k]
    ensures forall k :: k in existing && k !in partial ==> r[k] == existing[k]
  {
    existing + partial
  }

  /** Two merges in a row are one merge of the later update over the earlier. */
  lemma MergeTwice(existing: Fields, a: Fields, b: Fields)
    ensures Merge(Merge(existing, a), b) == Merge(existing, Merge(a, b))
  {
  }

  /** Updates to different fields can be applied in either order: the last write per field wins. */
  lemma MergeDisjointCommutes(existing: Fields, a: Fields, b: Fields)
    requires a.Keys !! b.Keys
    ensures Merge(Merge(existing, a), b) == Merge(Merge(existing, b), a)
  {
    var x, y := Merge(Merge(existing, a), b), Merge(Merge(existing, b), a);
    assert x.Keys == y.Keys;
    forall k | k in x ensures x[k] == y[k] {
    }
  }

  /** Saving the same update again changes nothing. */
  lemma MergeIdempotent(existing: Fields, partial: Fields)
    ensures Merge(Merge(existing, partial), partial) == Merge(existing, partial)
  {
  }
}
