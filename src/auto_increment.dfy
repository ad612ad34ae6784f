/** Auto-increment ids as every table of the site assigns them: the first row
    gets 1 and each insert takes the counter's value and advances it. */
module AutoIncrement {
  import Sequences

  /** The counter is positive, every row's id is positive and below it, and
      ids increase in row order. */
  ghost predicate IdsAscending<T>(id: T -> nat, rows: seq<T>, nextId: nat) {
    && 0 < nextId
    && (forall i :: 0 <= i < |rows| ==> 0 < id(rows[i]) < nextId)
    && Sequences.Pairwise((a: T, b: T) => id(a) < id(b), rows)
  }

  /** Appending a row that takes the counter's value, and advancing the
      counter, keeps ids ascending. */
  lemma AppendNext<T>(id: T -> nat, rows: seq<T>, nextId: nat, row: T)
    requires IdsAscending(id, rows, nextId) && id(row) == nextId
    ensures IdsAscending(id, rows + [row], nextId + 1)
  {
    var rows' := rows + [row];
    forall i, j | 0 <= i < j < |rows'|
      ensures id(rows'[i]) < id(rows'[j])
    {
      if j < |rows| {
        assert rows'[i] == rows[i] && rows'[j] == rows[j];
      }
    }
  }

  /** Deleting rows, which leaves a subsequence, keeps ids ascending. */
  lemma KeepSubsequence<T>(id: T -> nat, kept: seq<T>, rows: seq<T>, nextId: nat)
    requires Sequences.IsSubsequence(kept, rows) && IdsAscending(id, rows, nextId)
    ensures IdsAscending(id, kept, nextId)
  {
    Sequences.SubsequenceKeepsPairwise((a: T, b: T) => id(a) < id(b), kept, rows);
    var idx :| Sequences.Embeds(idx, kept, rows);
    forall i | 0 <= i < |kept|
      ensures 0 < id(kept[i]) < nextId
    {
      assert kept[i] == rows[idx[i]];
    }
  }
}
