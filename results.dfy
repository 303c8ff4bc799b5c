/**
  What `exec` makes of the rows the cursor fetched. The two facades differ:
  the synchronous one unwraps a one-row result to the bare row, the pooled one
  always hands back the row sequence. Both turn an empty result into None.
*/
module Results {
  import opened Driver

  /** The synchronous `exec` result: None, a bare row, or a row sequence. */
  datatype SyncRows<R> = NoRows | Single(row: R) | Multiple(rows: seq<R>)

  /** Synchronous normalisation: empty becomes None, one row is unwrapped, more rows are kept. */
  function Normalize<R>(rows: seq<R>): (r: SyncRows<R>)
    ensures r.NoRows? <==> rows == []
    ensures r.Single? <==> |rows| == 1
    ensures r.Single? ==> r.row == rows[0]
    ensures r.Multiple? ==> r.rows == rows && |r.rows| >= 2
  {
    if |rows| == 1 then Single(rows[0])
    else if rows == [] then NoRows
    else Multiple(rows)
  }

  /** The rows a synchronous result stands for. */
  function RowsOf<R>(r: SyncRows<R>): seq<R>
  {
    match r
    case NoRows => []
    case Single(row) => [row]
    case Multiple(rows) => rows
  }

  /** Unwrapping loses only the shape: the fetched rows can be recovered exactly. */
  lemma NormalizeRoundTrip<R>(rows: seq<R>)
    ensures RowsOf(Normalize(rows)) == rows
  {
    if |rows| == 1 {
      assert [rows[0]] == rows;
    }
  }

  /** Two fetches that normalise alike fetched the same rows. */
  lemma NormalizeInjective<R>(a: seq<R>, b: seq<R>)
    ensures Normalize(a) == Normalize(b) ==> a == b
  {
    NormalizeRoundTrip(a);
    NormalizeRoundTrip(b);
  }

  /** Pooled normalisation: empty becomes None, anything else is the full sequence. */
  function NormalizeAsync<R>(rows: seq<R>): (r: Option<seq<R>>)
    ensures r.None? <==> rows == []
    ensures r.Some? ==> r.value == rows
  {
    if rows == [] then None else Some(rows)
  }

  /** The rows a pooled result stands for. */
  function AsyncRowsOf<R>(r: Option<seq<R>>): seq<R>
  {
    if r.None? then [] else r.value
  }

  lemma NormalizeAsyncRoundTrip<R>(rows: seq<R>)
    ensures AsyncRowsOf(NormalizeAsync(rows)) == rows
  {
  }

  /**
    The two facades agree on which results are empty and on the rows they
    stand for; they differ in shape exactly on one-row results, where the
    pooled facade returns a one-element sequence and the synchronous one the
    bare row.
  */
  lemma NormalizeVariantsAgree<R>(rows: seq<R>)
    ensures Normalize(rows).NoRows? <==> NormalizeAsync(rows).None?
    ensures RowsOf(Normalize(rows)) == AsyncRowsOf(NormalizeAsync(rows))
    ensures Normalize(rows).Single? <==> NormalizeAsync(rows).Some? && |NormalizeAsync(rows).value| == 1
    ensures Normalize(rows).Multiple? ==> NormalizeAsync(rows) == Some(Normalize(rows).rows)
  {
    NormalizeRoundTrip(rows);
  }
}
