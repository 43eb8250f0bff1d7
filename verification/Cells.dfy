/**
 A pipeline as a row of cells, the far end first.  Data enters at the last cell and moves one
 cell at a time towards the first; a move may lose the end of what it moves.  Nothing here
 knows about hosts, and everything the tunnel does to its data is one of three things: nothing,
 a shift, or an entry.
 */
module Cells {
  import opened Bits

  type Row = seq<seq<byte>>

  /** The data in the row, in the order in which it will come out. */
  function Flat(row: Row): seq<byte> {
    if row == [] then [] else row[0] + Flat(row[1..])
  }

  /** Takes the first n bytes of cell i + 1 and puts the first keep of them at the end of cell i. */
  function Shift(row: Row, i: nat, n: nat, keep: nat): (r: Row)
    requires i + 1 < |row| && keep <= n <= |row[i + 1]|
    ensures |r| == |row|
  {
    row[i := row[i] + row[i + 1][..keep]][i + 1 := row[i + 1][n..]]
  }

  ghost predicate IsShift(row: Row, row': Row, i: nat, n: nat, keep: nat) {
    i + 1 < |row| && keep <= n <= |row[i + 1]| && 0 < n && row' == Shift(row, i, n, keep)
  }

  ghost predicate IsEntry(row: Row, row': Row, c: seq<byte>) {
    |row| > 0 && row[|row| - 1] == [] && row' == row[|row| - 1 := c]
  }

  /** What one step may do to a row, to the record of everything that has entered it, and how
      many bytes it lost. */
  ghost predicate FlowStep(row: Row, row': Row, entered: seq<byte>, entered': seq<byte>, lost: nat) {
    || (row' == row && entered' == entered && lost == 0)
    || (entered' == entered && exists i: nat, n: nat, keep: nat :: IsShift(row, row', i, n, keep) && lost == n - keep)
    || (lost == 0 && exists c :: IsEntry(row, row', c) && entered' == entered + c)
  }

  /** A thread's write: it empties the cell, of which only a front part arrives. */
  lemma WholeShift(row: Row, row': Row, i: nat, keep: nat)
    requires i + 1 < |row| && keep <= |row[i + 1]| && 0 < |row[i + 1]|
    requires row' == row[i := row[i] + row[i + 1][..keep]][i + 1 := []]
    ensures IsShift(row, row', i, |row[i + 1]|, keep)
  {
    assert row[i + 1][|row[i + 1]|..] == [];
  }

  /** A thread's read: the front of a queue moves into an empty cell. */
  lemma FillShift(row: Row, row': Row, i: nat, n: nat)
    requires i + 1 < |row| && 0 < n <= |row[i + 1]| && row[i] == []
    requires row' == row[i := row[i + 1][..n]][i + 1 := row[i + 1][n..]]
    ensures IsShift(row, row', i, n, n)
  {
    assert [] + row[i + 1][..n] == row[i + 1][..n];
  }

  // ---- subsequences ----

  /** x is y with some elements left out. */
  predicate Subsequence(x: seq<byte>, y: seq<byte>)
    decreases |y|
  {
    x == [] || (y != [] && ((x[0] == y[0] && Subsequence(x[1..], y[1..])) || Subsequence(x, y[1..])))
  }

  lemma {:induction false} SubsequenceLength(x: seq<byte>, y: seq<byte>)
    requires Subsequence(x, y)
    ensures |x| <= |y|
    ensures |x| == |y| ==> x == y
    decreases |y|
  {
    if x != [] {
      if x[0] == y[0] && Subsequence(x[1..], y[1..]) {
        SubsequenceLength(x[1..], y[1..]);
      } else {
        SubsequenceLength(x, y[1..]);
      }
    }
  }

  lemma {:induction false} SubsequenceDelete(u: seq<byte>, m: seq<byte>, v: seq<byte>, y: seq<byte>)
    requires Subsequence(u + m + v, y)
    ensures Subsequence(u + v, y)
    decreases |y|
  {
    var x := u + m + v;
    if u + v == [] || m == [] {
      assert m == [] ==> x == u + v;
    } else if x[0] == y[0] && Subsequence(x[1..], y[1..]) {
      if u != [] {
        DropFirst(u, m, v);
        SubsequenceDelete(u[1..], m, v, y[1..]);
      } else {
        assert x[1..] == [] + m[1..] + v && [] + v == u + v;
        SubsequenceDelete([], m[1..], v, y[1..]);
      }
    } else {
      SubsequenceDelete(u, m, v, y[1..]);
    }
  }

  lemma DropFirst(u: seq<byte>, m: seq<byte>, v: seq<byte>)
    requires u != []
    ensures (u + m + v)[1..] == u[1..] + m + v && (u + v)[1..] == u[1..] + v
  {
  }

  lemma {:induction false} SubsequenceAppend(x: seq<byte>, y: seq<byte>, c: seq<byte>)
    requires Subsequence(x, y)
    ensures Subsequence(x + c, y + c)
    decreases |y|
  {
    if y == [] {
      assert x + c == c && y + c == c;
      SubsequenceSelf(c);
    } else {
      assert (y + c)[1..] == y[1..] + c;
      if x == [] {
        SubsequenceAppend(x, y[1..], c);
      } else if x[0] == y[0] && Subsequence(x[1..], y[1..]) {
        assert (x + c)[1..] == x[1..] + c;
        SubsequenceAppend(x[1..], y[1..], c);
      } else {
        SubsequenceAppend(x, y[1..], c);
      }
    }
  }

  lemma {:induction false} SubsequenceSelf(c: seq<byte>)
    ensures Subsequence(c, c)
  {
    if c != [] {
      SubsequenceSelf(c[1..]);
    }
  }

  lemma {:induction false} SubsequencePrefix(u: seq<byte>, v: seq<byte>, y: seq<byte>)
    requires Subsequence(u + v, y)
    ensures Subsequence(u, y)
  {
    assert u + v == u + v + [];
    SubsequenceDelete(u, v, [], y);
    assert u + [] == u;
  }

  // ---- a step on the flattened row ----

  /** A shift deletes one factor, the lost bytes, from the data in the row. */
  lemma {:induction false} ShiftFlat(row: Row, i: nat, n: nat, keep: nat)
    returns (u: seq<byte>, m: seq<byte>, v: seq<byte>)
    requires i + 1 < |row| && keep <= n <= |row[i + 1]|
    ensures Flat(row) == u + m + v && Flat(Shift(row, i, n, keep)) == u + v && |m| == n - keep
    decreases i
  {
    var row' := Shift(row, i, n, keep);
    if i > 0 {
      assert row'[1..] == Shift(row[1..], i - 1, n, keep);
      u, m, v := ShiftFlat(row[1..], i - 1, n, keep);
      Prepend(row[0], u, m, v);
      u := row[0] + u;
    } else {
      u, m, v := ShiftFirst(row, n, keep);
    }
  }

  lemma Prepend(x: seq<byte>, u: seq<byte>, m: seq<byte>, v: seq<byte>)
    ensures x + (u + m + v) == (x + u) + m + v && x + (u + v) == (x + u) + v
  {
  }

  lemma ShiftFirst(row: Row, n: nat, keep: nat) returns (u: seq<byte>, m: seq<byte>, v: seq<byte>)
    requires 1 < |row| && keep <= n <= |row[1]|
    ensures Flat(row) == u + m + v && Flat(Shift(row, 0, n, keep)) == u + v && |m| == n - keep
  {
    var row' := Shift(row, 0, n, keep);
    TwoCells(row);
    TwoCells(row');
    assert row'[2..] == row[2..];
    u, m, v := row[0] + row[1][..keep], row[1][keep..n], row[1][n..] + Flat(row[2..]);
    CutCell(row[0], row[1], Flat(row[2..]), n, keep);
  }

  lemma CutCell(a: seq<byte>, b: seq<byte>, rest: seq<byte>, n: nat, keep: nat)
    requires keep <= n <= |b|
    ensures a + b + rest == (a + b[..keep]) + b[keep..n] + (b[n..] + rest)
    ensures (a + b[..keep]) + b[n..] + rest == (a + b[..keep]) + (b[n..] + rest)
  {
    assert b == b[..keep] + b[keep..n] + b[n..];
  }

  lemma TwoCells(row: Row)
    requires |row| >= 2
    ensures Flat(row) == row[0] + row[1] + Flat(row[2..])
  {
    assert row[1..][0] == row[1] && row[1..][1..] == row[2..];
  }

  lemma FourCells(row: Row)
    requires |row| >= 4
    ensures Flat(row) == row[0] + row[1] + row[2] + row[3] + Flat(row[4..])
  {
    TwoCells(row);
    TwoCells(row[2..]);
    assert row[2..][2..] == row[4..];
    Regroup(row[0] + row[1], row[2], row[3], Flat(row[4..]));
  }

  lemma NineCells(row: Row)
    requires |row| == 9
    ensures Flat(row) == row[0] + row[1] + row[2] + row[3] + row[4] + row[5] + row[6] + row[7] + row[8]
  {
    FourCells(row);
    FourCells(row[4..]);
    assert row[4..][4..] == [row[8]];
    OneCell(row[8]);
    Regroup4(row[0] + row[1] + row[2] + row[3], row[4], row[5], row[6], row[7], row[8]);
  }

  lemma OneCell(c: seq<byte>)
    ensures Flat([c]) == c
  {
    assert [c][1..] == [] && c + [] == c;
  }

  lemma Regroup(x: seq<byte>, c: seq<byte>, d: seq<byte>, rest: seq<byte>)
    ensures x + (c + d + rest) == x + c + d + rest
  {
  }

  lemma Regroup4(x: seq<byte>, e: seq<byte>, f: seq<byte>, g: seq<byte>, h: seq<byte>, i: seq<byte>)
    ensures x + (e + f + g + h + i) == x + e + f + g + h + i
  {
  }

  lemma {:induction false} EntryFlat(row: Row, c: seq<byte>)
    requires |row| > 0 && row[|row| - 1] == []
    ensures Flat(row[|row| - 1 := c]) == Flat(row) + c
  {
    var row' := row[|row| - 1 := c];
    if |row| > 1 {
      assert row'[1..] == row[1..][|row| - 2 := c];
      EntryFlat(row[1..], c);
    }
  }

  lemma ShiftKeeps(row: Row, row': Row, entered: seq<byte>, i: nat, n: nat, keep: nat)
    requires IsShift(row, row', i, n, keep) && Subsequence(Flat(row), entered)
    ensures Subsequence(Flat(row'), entered) && |Flat(row')| == |Flat(row)| - (n - keep)
  {
    var u, m, v := ShiftFlat(row, i, n, keep);
    SubsequenceDelete(u, m, v, entered);
  }

  lemma EntryKeeps(row: Row, row': Row, entered: seq<byte>, c: seq<byte>)
    requires IsEntry(row, row', c) && Subsequence(Flat(row), entered)
    ensures Subsequence(Flat(row'), entered + c) && |Flat(row')| == |Flat(row)| + |c|
  {
    EntryFlat(row, c);
    SubsequenceAppend(Flat(row), entered, c);
  }

  /** Every step keeps the row a subsequence of what has entered, short by what was lost. */
  lemma FlowKeeps(row: Row, row': Row, entered: seq<byte>, entered': seq<byte>, lost: nat)
    requires FlowStep(row, row', entered, entered', lost)
    requires Subsequence(Flat(row), entered)
    ensures Subsequence(Flat(row'), entered')
    ensures |entered'| - |Flat(row')| == |entered| - |Flat(row)| + lost
  {
    if row' != row || entered' != entered || lost != 0 {
      if i: nat, n: nat, keep: nat :| IsShift(row, row', i, n, keep) && lost == n - keep && entered' == entered {
        ShiftKeeps(row, row', entered, i, n, keep);
      } else {
        var c :| IsEntry(row, row', c) && entered' == entered + c;
        EntryKeeps(row, row', entered, c);
      }
    }
  }

  // ---- progress ----

  /** Bytes in the row, each counted as often as it still has cells to go. */
  function Hops(row: Row): nat {
    if row == [] then 0 else Hops(row[..|row| - 1]) + (|row| - 1) * |row[|row| - 1]|
  }

  lemma {:induction false} ShiftHops(row: Row, i: nat, n: nat, keep: nat)
    requires i + 1 < |row| && keep <= n <= |row[i + 1]| && 0 < n
    ensures Hops(Shift(row, i, n, keep)) < Hops(row)
    decreases |row|
  {
    var row', k := Shift(row, i, n, keep), |row| - 1;
    if i + 1 < k {
      assert row'[..k] == Shift(row[..k], i, n, keep);
      ShiftHops(row[..k], i, n, keep);
    } else {
      assert row[..k][..i] == row'[..k][..i];
      assert |row'[i]| == |row[i]| + keep && |row'[k]| == |row[k]| - n;
      MoreHops(i, |row[i]|, |row[k]|, n, keep);
    }
  }

  lemma MoreHops(i: nat, x: nat, y: nat, n: nat, keep: nat)
    requires keep <= n <= y && 0 < n
    ensures i * (x + keep) + (i + 1) * (y - n) < i * x + (i + 1) * y
  {
    assert i * (x + keep) == i * x + i * keep;
    assert (i + 1) * (y - n) == (i + 1) * y - (i + 1) * n;
    assert (i + 1) * n == i * n + n;
    assert i * (n - keep) >= 0 && i * (n - keep) == i * n - i * keep;
  }

  lemma EntryHops(row: Row, c: seq<byte>)
    requires |row| > 0 && row[|row| - 1] == []
    ensures Hops(row[|row| - 1 := c]) == Hops(row) + (|row| - 1) * |c|
  {
    assert row[|row| - 1 := c][..|row| - 1] == row[..|row| - 1];
  }
}
