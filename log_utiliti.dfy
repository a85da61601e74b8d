/**
 * `filter_log_by_regex` of log_utiliti.py. Python's regex engine is not
 * modelled: a compiled pattern is known only through what its `search` and
 * `findall` answer, and compiling depends on the pattern text and on the case
 * flag alone.
 */
module LogUtiliti {
  import opened Text
  import opened Lines

  /** A compiled pattern: `pattern.search(line)` as a test, `pattern.findall(line)` as a value. */
  datatype Pattern<C> = Pattern(search: string -> bool, findall: string -> C)

  /** The count and the case wording of the summary line that is printed on request. */
  datatype Summary = Summary(count: nat, sensitivity: string)

  /** The wording for the flag `re.IGNORECASE` is chosen by. */
  function CaseLabel(ignoreCase: bool): (wording: string)
    ensures wording == "case-insensitive" <==> ignoreCase
    ensures wording == "case-sensitive" <==> !ignoreCase
  {
    if ignoreCase then "case-insensitive" else "case-sensitive"
  }

  /** `captured[k]` is what `findall` returns on `records[k]`. */
  ghost predicate Captures<C>(records: seq<string>, findall: string -> C, captured: seq<C>) {
    |captured| == |records| && forall k :: 0 <= k < |records| ==> captured[k] == findall(records[k])
  }

  lemma CapturesSnoc<C>(records: seq<string>, findall: string -> C, captured: seq<C>, record: string)
    requires Captures(records, findall, captured)
    ensures Captures(records + [record], findall, captured + [findall(record)])
  {
  }

  /**
   * `filter_log_by_regex`: the stripped lines on which the pattern's search
   * succeeds, in file order, with what `findall` captures from each stripped
   * line at the same index; the search itself runs on the unstripped line.
   */
  method FilterLogByRegex<C>(lines: seq<string>, regex: string, ignoreCase: bool, compile: (string, bool) -> Pattern<C>)
    returns (records: seq<string>, captured: seq<C>, summary: Summary)
    ensures StrippedSelection(lines, compile(regex, ignoreCase).search, records)
    ensures |captured| == |records| <= |lines|
    ensures forall k :: 0 <= k < |records| ==> captured[k] == compile(regex, ignoreCase).findall(records[k])
    ensures summary.count == |records| && summary.sensitivity == CaseLabel(ignoreCase)
  {
    var pattern := compile(regex, ignoreCase);
    var search, findall, strip := pattern.search, pattern.findall, Strip;
    records, captured := [], [];
    var i := 0;
    while i < |lines|
      invariant 0 <= i <= |lines|
      invariant records == Selected(lines[..i], search, strip)
      invariant Captures(records, findall, captured)
    {
      SelectedSnoc(lines, i, search, strip);
      if search(lines[i]) {
        var record := strip(lines[i]);
        CapturesSnoc(records, findall, captured, record);
        records := records + [record];
        captured := captured + [findall(record)];
      }
      i := i + 1;
    }
    assert lines[..i] == lines;
    SelectedIsMapped(lines, search, strip);
    summary := Summary(|records|, CaseLabel(ignoreCase));
  }

  /**
   * The records are exactly the matching lines, stripped, in file order: the
   * k-th record is the stripped line at the k-th matching position, and a line
   * matches exactly when its position is among those.
   */
  lemma RecordsAreMatchingLines(lines: seq<string>, search: string -> bool, records: seq<string>)
    requires StrippedSelection(lines, search, records)
    ensures var pos := KeptPositions(lines, search);
      && |pos| == |records|
      && (forall k :: 0 <= k < |records| ==> pos[k] < |lines| && records[k] == Strip(lines[pos[k]]))
      && (forall k, l :: 0 <= k < l < |pos| ==> pos[k] < pos[l])
      && (forall j :: 0 <= j < |lines| ==> (search(lines[j]) <==> j in pos))
  {
    KeptPositionsIndex(lines, search);
    KeptPositionsIncrease(lines, search);
    KeptPositionsExact(lines, search);
  }
}
