/** `findClosestMapping`: the segment of a generated line that a column
    lookup lands on. The search keeps a window [start, stop] and a middle
    index; it gives up one index at a time from the side the middle
    segment's column points away from, and stops on an exact column match
    or when the window is a single index. */
module Lookup {
  import opened Mappings
  import opened MappingContainer

  /** Whether some segment of `segs` sits exactly at `column`. */
  predicate HasColumn(segs: seq<Mapping>, column: int) {
    exists j :: 0 <= j < |segs| && segs[j].generated.column == column
  }

  /** `segs[idx]` is where `column` falls: every segment before it lies
      strictly left of `column` and every segment after it strictly right. */
  predicate FallsAt(segs: seq<Mapping>, idx: int, column: int) {
    && 0 <= idx < |segs|
    && (forall j :: 0 <= j < idx ==> segs[j].generated.column < column)
    && (forall j :: idx < j < |segs| ==> segs[j].generated.column > column)
  }

  /** A line past the last materialised one yields the absent mapping;
      otherwise the result is a segment of the line. On a sorted line an
      existing column is always found, and a result at another column is
      one between whose neighbours the column falls. */
  method FindClosestMapping(c: Container, lineIndex: int, columnIndex: int) returns (r: Mapping)
    requires LinesIndexed(c)
    requires lineIndex >= 0
    requires lineIndex <= c.generatedLines ==> c.lines[lineIndex].segments != []
    ensures lineIndex > c.generatedLines ==> r == AbsentMapping
    ensures lineIndex <= c.generatedLines ==> r in c.lines[lineIndex].segments
    ensures lineIndex <= c.generatedLines && SortedByColumn(c.lines[lineIndex].segments)
            && HasColumn(c.lines[lineIndex].segments, columnIndex)
            ==> r.generated.column == columnIndex
    ensures lineIndex <= c.generatedLines && SortedByColumn(c.lines[lineIndex].segments)
            && r.generated.column != columnIndex
            ==> exists idx :: FallsAt(c.lines[lineIndex].segments, idx, columnIndex)
                              && c.lines[lineIndex].segments[idx] == r
  {
    if lineIndex > c.generatedLines {
      return AbsentMapping;
    }
    var segs := c.lines[lineIndex].segments;
    var sorted := SortedByColumn(segs);
    var start := 0;
    var stop := |segs| - 1;
    var middle := (stop + start) / 2;
    while start < stop
      invariant 0 <= start <= middle <= stop < |segs|
      invariant sorted ==> forall j :: 0 <= j < start ==> segs[j].generated.column < columnIndex
      invariant sorted ==> forall j :: stop < j < |segs| ==> segs[j].generated.column > columnIndex
      decreases stop - start
    {
      var diff := segs[middle].generated.column - columnIndex;
      if diff > 0 {
        stop := stop - 1;
      } else if diff < 0 {
        start := start + 1;
      } else {
        break;
      }
      middle := (stop + start) / 2;
    }
    r := segs[middle];
    if sorted && r.generated.column != columnIndex {
      assert FallsAt(segs, middle, columnIndex);
    }
  }
}
