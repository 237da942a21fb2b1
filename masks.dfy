/**
 * The attention mask built at the start of every forward pass: a
 * batch x (pos + batch) matrix, stored row-major as the runtime expects,
 * whose cells say whether batch row i may attend to cache slot j.
 * `true` stands for the additive bias 0 (allowed), `false` for -infinity.
 */
module Masks {
  import opened Arith
  import opened Occupancy

  /** The flat cells of a mask with `rows` rows of `cols` cells each. */
  datatype Mask = Mask(cols: nat, rows: nat, cells: seq<bool>) {
    predicate WellFormed() {
      |cells| == rows * cols
    }

    /** The cell of row i and column j, at flat index i * cols + j. */
    function At(i: nat, j: nat): bool
      requires WellFormed() && i < rows && j < cols
    {
      MulLe(i + 1, rows, cols);
      cells[i * cols + j]
    }
  }

  /**
   * Row i may not attend to slot j when j lies after the row's own slot
   * pos + i, or when the slot belongs to a different sequence.
   */
  predicate Allowed(pos: nat, occ: seq<int>, seqs: seq<int>, i: nat, j: nat)
    requires i < |seqs| && j < |occ|
  {
    !(j > pos + i || seqs[i] != occ[j])
  }

  /** The mask as a matrix of rows, before it is laid out flat. */
  function Rows(pos: nat, occ: seq<int>, seqs: seq<int>): (rows: seq<seq<bool>>)
    requires pos + |seqs| <= |occ|
    ensures |rows| == |seqs|
    ensures forall i :: 0 <= i < |rows| ==> |rows[i]| == pos + |seqs|
  {
    seq(|seqs|, i requires 0 <= i < |seqs| =>
      seq(pos + |seqs|, j requires 0 <= j < pos + |seqs| => Allowed(pos, occ, seqs, i, j)))
  }

  /** Row-major concatenation of the rows of a matrix. */
  function Flatten(rows: seq<seq<bool>>): seq<bool>
  {
    if rows == [] then [] else Flatten(rows[..|rows| - 1]) + rows[|rows| - 1]
  }

  lemma {:induction false} FlattenLength(rows: seq<seq<bool>>, width: nat)
    requires forall i :: 0 <= i < |rows| ==> |rows[i]| == width
    ensures |Flatten(rows)| == |rows| * width
  {
    if rows != [] {
      FlattenLength(rows[..|rows| - 1], width);
      assert |rows| * width == (|rows| - 1) * width + width;
    }
  }

  /** Cell (i, j) of a matrix with rows of equal width lands at i * width + j. */
  lemma {:induction false} FlattenAt(rows: seq<seq<bool>>, width: nat, i: nat, j: nat)
    requires forall k :: 0 <= k < |rows| ==> |rows[k]| == width
    requires i < |rows| && j < width
    ensures i * width + j < |Flatten(rows)|
    ensures Flatten(rows)[i * width + j] == rows[i][j]
  {
    var n := |rows| - 1;
    FlattenLength(rows[..n], width);
    FlattenLength(rows, width);
    if i < n {
      MulLe(i + 1, n, width);
      FlattenAt(rows[..n], width, i, j);
    }
  }

  /** Appending a row to the matrix appends its cells to the flat layout. */
  lemma FlattenSnoc(rows: seq<seq<bool>>, row: seq<bool>)
    ensures Flatten(rows + [row]) == Flatten(rows) + row
  {
    assert (rows + [row])[..|rows|] == rows;
  }

  /**
   * If `cells` already holds the flat layout of `rows` and the next `|row|`
   * cells hold `row`, then it holds the layout of `rows + [row]`.
   */
  lemma FlattenExtend(cells: seq<bool>, start: nat, rows: seq<seq<bool>>, row: seq<bool>)
    requires start + |row| <= |cells| && cells[..start] == Flatten(rows)
    requires forall jj :: 0 <= jj < |row| ==> cells[start + jj] == row[jj]
    ensures cells[..start + |row|] == Flatten(rows + [row])
  {
    FlattenSnoc(rows, row);
    assert cells[..start + |row|] == cells[..start] + row;
  }

  /** The mask for a batch `seqs` whose first slot is `pos`, over occupancy `occ`. */
  function MaskOf(pos: nat, occ: seq<int>, seqs: seq<int>): (m: Mask)
    requires pos + |seqs| <= |occ|
    ensures m.rows == |seqs| && m.cols == pos + |seqs|
    ensures m.WellFormed()
  {
    var rows := Rows(pos, occ, seqs);
    FlattenLength(rows, pos + |seqs|);
    Mask(pos + |seqs|, |seqs|, Flatten(rows))
  }

  /** A cell is allowed exactly when it is causal and the sequence ids match. */
  lemma MaskEntry(pos: nat, occ: seq<int>, seqs: seq<int>, i: nat, j: nat)
    requires pos + |seqs| <= |occ|
    requires i < |seqs| && j < pos + |seqs|
    ensures MaskOf(pos, occ, seqs).At(i, j) <==> j <= pos + i && occ[j] == seqs[i]
  {
    FlattenAt(Rows(pos, occ, seqs), pos + |seqs|, i, j);
  }

  /** Causality: no row sees a slot written after its own. */
  lemma MaskCausal(pos: nat, occ: seq<int>, seqs: seq<int>, i: nat, j: nat)
    requires pos + |seqs| <= |occ|
    requires i < |seqs| && pos + i < j < pos + |seqs|
    ensures !MaskOf(pos, occ, seqs).At(i, j)
  {
    MaskEntry(pos, occ, seqs, i, j);
  }

  /** Isolation: no row sees a slot owned by another sequence. */
  lemma MaskIsolation(pos: nat, occ: seq<int>, seqs: seq<int>, i: nat, j: nat)
    requires pos + |seqs| <= |occ|
    requires i < |seqs| && j < pos + |seqs| && occ[j] != seqs[i]
    ensures !MaskOf(pos, occ, seqs).At(i, j)
  {
    MaskEntry(pos, occ, seqs, i, j);
  }

  /**
   * Self-visibility: once the batch is appended to the history, every row
   * sees its own slot |history| + i.
   */
  lemma MaskSelfVisible(history: seq<int>, seqs: seq<int>, i: nat)
    requires i < |seqs|
    ensures MaskOf(|history|, history + seqs, seqs).At(i, |history| + i)
  {
    MaskEntry(|history|, history + seqs, seqs, i, |history| + i);
  }

  /**
   * Removed slots are invisible: after `s` is removed from [b, e), every
   * later mask, built over that occupancy followed by whatever was appended
   * since, forbids those slots to every row whose id is not the sentinel,
   * in particular to rows of `s` itself.
   */
  lemma RemovedSlotHidden(history: seq<int>, s: int, b: int, e: int, later: seq<int>, pos: nat, seqs: seq<int>, i: nat, j: nat)
    requires i < |seqs| && seqs[i] != Sentinel
    requires 0 <= b && b <= j < Min(e, |history|) && history[j] == s
    requires pos + |seqs| <= |history| + |later| && j < pos + |seqs|
    ensures !MaskOf(pos, Removed(history, s, b, e) + later, seqs).At(i, j)
  {
    var occ := Removed(history, s, b, e) + later;
    RemoveMarks(history, s, b, e, j);
    MaskEntry(pos, occ, seqs, i, j);
  }
}
