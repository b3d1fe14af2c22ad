/**
Slices: a length over a backing array that several slices may share. Appending writes into the backing array if there is
room for it, and moves to a larger one otherwise.
*/
module Slices {
  datatype Slice<T> = Slice(cells: array<T>, len: nat)

  ghost predicate Fits<T>(s: Slice<T>) { s.len <= s.cells.Length }

  ghost function Elements<T>(s: Slice<T>): seq<T>
    requires Fits(s)
    reads s.cells
  {
    s.cells[..s.len]
  }

  method NewSlice<T>() returns (s: Slice<T>)
    ensures Fits(s) && fresh(s.cells) && Elements(s) == []
  {
    var cells := new T[0];
    s := Slice(cells, 0);
  }

  /** A slice with a backing array of its own: what appending to an empty slice makes. */
  method CopySlice<T>(s: Slice<T>) returns (t: Slice<T>)
    requires Fits(s)
    ensures Fits(t) && fresh(t.cells) && Elements(t) == Elements(s)
  {
    var cells := new T[s.len](i requires 0 <= i < s.len <= s.cells.Length reads s.cells => s.cells[i]);
    t := Slice(cells, s.len);
    assert Elements(t) == Elements(s);
  }

  /** `zero` is the zero value that unused cells hold. */
  method Append<T>(s: Slice<T>, xs: seq<T>, zero: T) returns (t: Slice<T>)
    requires Fits(s)
    modifies s.cells
    ensures Fits(t) && Elements(t) == old(Elements(s)) + xs
    ensures if s.len + |xs| <= s.cells.Length
            then t.cells == s.cells && s.cells[s.len + |xs|..] == old(s.cells[s.len + |xs|..])
            else fresh(t.cells) && s.cells[..] == old(s.cells[..])
  {
    var n := s.len + |xs|;
    var cells := s.cells;
    if n > s.cells.Length {
      cells := new T[n + s.len](
        i requires 0 <= i && s.len <= s.cells.Length reads s.cells => if i < s.len then s.cells[i] else zero);
    }
    for i := 0 to |xs|
      invariant cells[..s.len] == old(s.cells[..s.len])
      invariant forall k :: 0 <= k < i ==> cells[s.len + k] == xs[k]
      invariant cells == s.cells ==> cells[n..] == old(s.cells[n..])
      invariant cells != s.cells ==> s.cells[..] == old(s.cells[..])
    {
      cells[s.len + i] := xs[i];
    }
    t := Slice(cells, n);
    assert cells[..n] == old(s.cells[..s.len]) + xs;
  }

  /** Two slices that share a backing array with room in it: appending to one overwrites what was appended to the
      other. */
  method AppendToShared<T>(s: Slice<T>, x: T, y: T, zero: T) returns (t: Slice<T>, u: Slice<T>)
    requires s.len < s.cells.Length
    modifies s.cells
    ensures t == u && Fits(t) && Elements(t) == old(Elements(s)) + [y]
  {
    t := Append(s, [x], zero);
    u := Append(s, [y], zero);
  }
}
