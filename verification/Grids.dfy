/** Row-major two-dimensional data in one sequence. The product of rows and width
    hides behind a function: everything needed of it is linear. */
module Grids {

  function Area(rows: nat, width: nat): nat {
    rows * width
  }

  lemma AreaGrows(rows: nat, more: nat, width: nat)
    requires rows <= more
    ensures Area(rows, width) <= Area(more, width) && Area(0, width) == 0
    ensures Area(rows + 1, width) == Area(rows, width) + width
  {
  }

  function Row<T>(values: seq<T>, width: nat, s: nat): (row: seq<T>)
    requires Area(s + 1, width) <= |values|
    ensures |row| == width
  {
    AreaGrows(s, s, width);
    values[Area(s, width)..Area(s + 1, width)]
  }

  ghost predicate SamePrefix<T>(a: seq<T>, b: seq<T>, size: nat) {
    size <= |a| && size <= |b| && a[..size] == b[..size]
  }

  lemma Extend<T>(a: seq<T>, b: seq<T>, width: nat, s: nat)
    requires Area(s + 1, width) <= |a| && Area(s + 1, width) <= |b|
    requires SamePrefix(a, b, Area(s, width)) && Row(a, width, s) == Row(b, width, s)
    ensures SamePrefix(a, b, Area(s + 1, width))
  {
    AreaGrows(s, s, width);
    var i, j := Area(s, width), Area(s + 1, width);
    assert a[..j] == a[..i] + a[i..j] && b[..j] == b[..i] + b[i..j];
  }

  lemma NothingDiffers<T>(a: seq<T>, b: seq<T>, width: nat)
    ensures SamePrefix(a, b, Area(0, width))
  {
  }
}
