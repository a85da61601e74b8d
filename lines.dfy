/**
 * Selecting lines of a log in file order: the shape shared by every scan of
 * the analyser ("for line in file: if <test>: keep it").
 */
module Lines {
  import opened Text

  /** The elements of `s` that `keep` accepts, in their original order. */
  function Filter<T>(s: seq<T>, keep: T -> bool): (r: seq<T>)
    ensures |r| <= |s|
    ensures forall x :: x in r ==> x in s && keep(x)
    decreases |s|
  {
    if s == [] then []
    else Filter(s[..|s| - 1], keep) + (if keep(s[|s| - 1]) then [s[|s| - 1]] else [])
  }

  /** Filtering one more element extends the selection by that element or by nothing. */
  lemma FilterSnoc<T>(s: seq<T>, x: T, keep: T -> bool)
    ensures Filter(s + [x], keep) == Filter(s, keep) + (if keep(x) then [x] else [])
  {
    assert (s + [x])[..|s|] == s;
  }

  /** The positions in `s` of the elements `keep` accepts, in order. */
  function KeptPositions<T>(s: seq<T>, keep: T -> bool): (r: seq<nat>)
    ensures |r| == |Filter(s, keep)|
    ensures forall k :: 0 <= k < |r| ==> r[k] < |s|
    decreases |s|
  {
    if s == [] then []
    else
      var n := |s| - 1;
      var r0 := KeptPositions(s[..n], keep);
      if keep(s[n]) then r0 + [n] else r0
  }

  /** The k-th kept element sits at the k-th kept position. */
  lemma {:induction false} KeptPositionsIndex<T>(s: seq<T>, keep: T -> bool)
    ensures var r := KeptPositions(s, keep);
      forall k :: 0 <= k < |r| ==> s[r[k]] == Filter(s, keep)[k]
    decreases |s|
  {
    if s != [] {
      var n := |s| - 1;
      var init := s[..n];
      KeptPositionsIndex(init, keep);
      var r0 := KeptPositions(init, keep);
      assert forall k :: 0 <= k < |r0| ==> s[r0[k]] == init[r0[k]];
    }
  }

  predicate Increasing(r: seq<nat>) {
    forall k, l :: 0 <= k < l < |r| ==> r[k] < r[l]
  }

  /** The kept positions strictly increase: the selection keeps file order. */
  lemma {:induction false} KeptPositionsIncrease<T>(s: seq<T>, keep: T -> bool)
    ensures Increasing(KeptPositions(s, keep))
    decreases |s|
  {
    if s != [] {
      var n := |s| - 1;
      KeptPositionsIncrease(s[..n], keep);
      var r0 := KeptPositions(s[..n], keep);
      if keep(s[n]) {
        var r := r0 + [n];
        assert KeptPositions(s, keep) == r;
        forall k, l | 0 <= k < l < |r| ensures r[k] < r[l] {
          if l < |r0| {
            assert r[k] == r0[k] && r[l] == r0[l];
          } else {
            assert r0[k] < |s[..n]|;
          }
        }
      }
    }
  }

  /** A position is kept exactly when `keep` accepts its element. */
  lemma {:induction false} KeptPositionsExact<T>(s: seq<T>, keep: T -> bool)
    ensures forall j :: 0 <= j < |s| ==> (keep(s[j]) <==> j in KeptPositions(s, keep))
    decreases |s|
  {
    if s != [] {
      var n := |s| - 1;
      var init := s[..n];
      KeptPositionsExact(init, keep);
      assert forall j :: 0 <= j < n ==> s[j] == init[j];
    }
  }

  /** `records` are the images under `f` of the elements of `lines` that `keep` accepts, in file order. */
  predicate MappedSelection(lines: seq<string>, keep: string -> bool, f: string -> string, records: seq<string>) {
    var kept := Filter(lines, keep);
    |records| == |kept| && forall k :: 0 <= k < |kept| ==> records[k] == f(kept[k])
  }

  /** Scanning one more line extends the mapped selection by that line's image, or by nothing. */
  lemma MappedSelectionSnoc(lines: seq<string>, x: string, keep: string -> bool, f: string -> string, records: seq<string>)
    requires MappedSelection(lines, keep, f, records)
    ensures keep(x) ==> MappedSelection(lines + [x], keep, f, records + [f(x)])
    ensures !keep(x) ==> MappedSelection(lines + [x], keep, f, records)
  {
    FilterSnoc(lines, x, keep);
    var kept := Filter(lines, keep);
    if keep(x) {
      var kept' := kept + [x];
      var records' := records + [f(x)];
      assert forall k :: 0 <= k < |kept| ==> kept'[k] == kept[k] && records'[k] == records[k];
    }
  }

  /**
   * The images under `f` of the accepted elements, built as a scan builds them:
   * one line at a time. This is only the loop-invariant form of
   * `MappedSelection`; `SelectedIsMapped` ties it back to `Filter`.
   */
  function Selected(lines: seq<string>, keep: string -> bool, f: string -> string): (records: seq<string>)
    ensures |records| <= |lines|
    decreases |lines|
  {
    if lines == [] then []
    else
      var n := |lines| - 1;
      Selected(lines[..n], keep, f) + if keep(lines[n]) then [f(lines[n])] else []
  }

  /** Scanning one more line extends what is selected by its image, or by nothing. */
  lemma SelectedSnoc(lines: seq<string>, i: nat, keep: string -> bool, f: string -> string)
    requires i < |lines|
    ensures Selected(lines[..i + 1], keep, f) == Selected(lines[..i], keep, f) + if keep(lines[i]) then [f(lines[i])] else []
  {
    assert lines[..i + 1][..i] == lines[..i];
  }

  /** The scan selects exactly the images of the filtered lines, in order. */
  lemma {:induction false} SelectedIsMapped(lines: seq<string>, keep: string -> bool, f: string -> string)
    ensures MappedSelection(lines, keep, f, Selected(lines, keep, f))
    decreases |lines|
  {
    if lines != [] {
      var n := |lines| - 1;
      SelectedIsMapped(lines[..n], keep, f);
      MappedSelectionSnoc(lines[..n], lines[n], keep, f, Selected(lines[..n], keep, f));
      assert lines[..n] + [lines[n]] == lines;
    }
  }

  /** `records` are the stripped lines of `lines` that `keep` accepts, in file order. */
  predicate StrippedSelection(lines: seq<string>, keep: string -> bool, records: seq<string>) {
    MappedSelection(lines, keep, Strip, records)
  }
}
