/**
  Greedy justified-row layout of a bucket's thumbnails, and the pixel height
  of a bucket derived from it (src/utils/justifiedLayout.ts).

  Aspect ratios are positive reals; rounding of the source's floating-point
  numbers is not modelled.
 */
module JustifiedLayout {

  const TargetRowHeight: real := 280.0
  const Gap: real := 8.0
  const DefaultPadding: real := 80.0
  const HeaderHeight: real := 90.0
  const HeaderMargin: real := 40.0

  /** A row of the grid: the indices of its assets and the height it is drawn at. */
  datatype LayoutRow = LayoutRow(assets: seq<nat>, height: real)

  datatype LayoutResult = LayoutResult(rows: seq<LayoutRow>, totalHeight: real)

  predicate AllPositive(ratios: seq<real>) {
    forall i :: 0 <= i < |ratios| ==> ratios[i] > 0.0
  }

  predicate InBounds(ratios: seq<real>, idxs: seq<nat>) {
    forall j :: 0 <= j < |idxs| ==> idxs[j] < |ratios|
  }

  /** The indices lo, lo+1, ..., hi-1. */
  function Range(lo: nat, hi: nat): (r: seq<nat>)
    requires lo <= hi
    ensures |r| == hi - lo
    decreases hi - lo
  {
    if lo == hi then [] else Range(lo, hi - 1) + [hi - 1]
  }

  /** Sum of the ratios of the given assets. */
  function RatioSum(ratios: seq<real>, idxs: seq<nat>): real
    requires InBounds(ratios, idxs)
  {
    if idxs == [] then 0.0
    else RatioSum(ratios, idxs[..|idxs| - 1]) + ratios[idxs[|idxs| - 1]]
  }

  /** Width of a row drawn at the target height, gaps included. */
  function NaturalWidth(ratios: seq<real>, idxs: seq<nat>): real
    requires InBounds(ratios, idxs) && idxs != []
  {
    TargetRowHeight * RatioSum(ratios, idxs) + (|idxs| - 1) as real * Gap
  }

  /** A row fits the container at the target height, or is a single asset. */
  predicate Fits(ratios: seq<real>, width: real, idxs: seq<nat>)
    requires InBounds(ratios, idxs) && idxs != []
  {
    NaturalWidth(ratios, idxs) <= width || |idxs| == 1
  }

  /** Adding asset `next` to the row would make it wider than the container. */
  predicate Overflows(ratios: seq<real>, width: real, idxs: seq<nat>, next: nat)
    requires InBounds(ratios, idxs) && idxs != [] && next < |ratios|
  {
    NaturalWidth(ratios, idxs) + Gap + TargetRowHeight * ratios[next] > width
  }

  /** At its height, the row's assets and gaps fill the container exactly. */
  predicate IsJustified(ratios: seq<real>, width: real, row: LayoutRow)
    requires InBounds(ratios, row.assets)
  {
    row.height * RatioSum(ratios, row.assets) + (|row.assets| - 1) as real * Gap == width
  }

  /** The asset indices of the rows, concatenated in row order. */
  function Indices(rows: seq<LayoutRow>): seq<nat> {
    if rows == [] then [] else Indices(rows[..|rows| - 1]) + rows[|rows| - 1].assets
  }

  function HeightSum(rows: seq<LayoutRow>): real {
    if rows == [] then 0.0 else HeightSum(rows[..|rows| - 1]) + rows[|rows| - 1].height
  }

  /** Heights of the rows plus the gaps between them. */
  function TotalHeight(rows: seq<LayoutRow>): real {
    HeightSum(rows) + (|rows| as real - 1.0) * Gap
  }

  /** Every row is non-empty, names valid assets and fits the container (or is a single asset). */
  predicate RowsWellFormed(ratios: seq<real>, width: real, rows: seq<LayoutRow>) {
    forall k :: 0 <= k < |rows| ==>
      rows[k].assets != [] && InBounds(ratios, rows[k].assets) && Fits(ratios, width, rows[k].assets)
  }

  /**
    Every row that has a successor was closed because the successor's first
    asset would overflow it, and was then stretched to fill the container.
   */
  predicate RowsChained(ratios: seq<real>, width: real, rows: seq<LayoutRow>)
    requires RowsWellFormed(ratios, width, rows)
  {
    forall k, j :: 0 <= k < |rows| && 0 <= j < |rows| && j == k + 1 ==>
      Overflows(ratios, width, rows[k].assets, rows[j].assets[0]) && IsJustified(ratios, width, rows[k])
  }

  /** RowsWellFormed and RowsChained, stated row by row from the last one backwards. */
  predicate RowsPacked(ratios: seq<real>, width: real, rows: seq<LayoutRow>)
    decreases |rows|
  {
    if rows == [] then true
    else
      var n := |rows|;
      && RowsPacked(ratios, width, rows[..n - 1])
      && rows[n - 1].assets != [] && InBounds(ratios, rows[n - 1].assets) && Fits(ratios, width, rows[n - 1].assets)
      && (n > 1 ==>
            && rows[n - 2].assets != [] && InBounds(ratios, rows[n - 2].assets)
            && Overflows(ratios, width, rows[n - 2].assets, rows[n - 1].assets[0])
            && IsJustified(ratios, width, rows[n - 2]))
  }

  lemma {:induction false} RowsPackedMeansChained(ratios: seq<real>, width: real, rows: seq<LayoutRow>)
    requires RowsPacked(ratios, width, rows)
    ensures RowsWellFormed(ratios, width, rows) && RowsChained(ratios, width, rows)
  {
    if rows != [] {
      var init := rows[..|rows| - 1];
      RowsPackedMeansChained(ratios, width, init);
      assert forall k :: 0 <= k < |init| ==> init[k] == rows[k];
    }
  }

  /**
    What the packer promises about the rows of assets start..|ratios|-1
    laid out in a container of the given width.
   */
  predicate IsGreedyLayoutFrom(ratios: seq<real>, width: real, start: nat, rows: seq<LayoutRow>)
    requires start <= |ratios|
  {
    // every asset appears once, in order
    && Indices(rows) == Range(start, |ratios|)
    && RowsWellFormed(ratios, width, rows)
    && RowsChained(ratios, width, rows)
    // the trailing row keeps the target height
    && (|rows| > 0 ==> rows[|rows| - 1].height == TargetRowHeight)
  }

  predicate IsGreedyLayout(ratios: seq<real>, width: real, rows: seq<LayoutRow>) {
    IsGreedyLayoutFrom(ratios, width, 0, rows)
  }

  lemma RatioSumSnoc(ratios: seq<real>, idxs: seq<nat>, i: nat)
    requires InBounds(ratios, idxs) && i < |ratios|
    ensures InBounds(ratios, idxs + [i])
    ensures RatioSum(ratios, idxs + [i]) == RatioSum(ratios, idxs) + ratios[i]
  {
    assert (idxs + [i])[..|idxs|] == idxs;
  }

  lemma NaturalWidthSnoc(ratios: seq<real>, idxs: seq<nat>, i: nat)
    requires InBounds(ratios, idxs) && i < |ratios|
    ensures InBounds(ratios, idxs + [i])
    ensures idxs == [] ==> NaturalWidth(ratios, idxs + [i]) == TargetRowHeight * ratios[i]
    ensures idxs != [] ==>
      NaturalWidth(ratios, idxs + [i]) == NaturalWidth(ratios, idxs) + Gap + TargetRowHeight * ratios[i]
  {
    RatioSumSnoc(ratios, idxs, i);
  }

  lemma IndicesSnoc(rows: seq<LayoutRow>, row: LayoutRow)
    ensures Indices(rows + [row]) == Indices(rows) + row.assets
    ensures HeightSum(rows + [row]) == HeightSum(rows) + row.height
  {
    assert (rows + [row])[..|rows|] == rows;
  }

  lemma RangeSnoc(lo: nat, hi: nat)
    requires lo <= hi
    ensures Range(lo, hi + 1) == Range(lo, hi) + [hi]
  {
  }

  /** Appending a well-formed row that the previous last row overflows into keeps the rows packed. */
  lemma AppendRow(ratios: seq<real>, width: real, rows: seq<LayoutRow>, row: LayoutRow)
    requires RowsPacked(ratios, width, rows)
    requires row.assets != [] && InBounds(ratios, row.assets) && Fits(ratios, width, row.assets)
    requires rows != [] ==>
      rows[|rows| - 1].assets != [] && InBounds(ratios, rows[|rows| - 1].assets)
      && Overflows(ratios, width, rows[|rows| - 1].assets, row.assets[0]) && IsJustified(ratios, width, rows[|rows| - 1])
    ensures RowsPacked(ratios, width, rows + [row])
  {
    assert (rows + [row])[..|rows|] == rows;
  }

  lemma {:induction false} RatioSumPositive(ratios: seq<real>, idxs: seq<nat>)
    requires AllPositive(ratios) && InBounds(ratios, idxs) && idxs != []
    ensures RatioSum(ratios, idxs) > 0.0
  {
    var init := idxs[..|idxs| - 1];
    if init != [] {
      RatioSumPositive(ratios, init);
    }
  }

  /**
    The state of the packer after it has looked at assets 0..i-1: the closed
    rows, the open row and its natural width.
   */
  predicate PackingState(ratios: seq<real>, width: real, i: nat, rows: seq<LayoutRow>,
                         currentRow: seq<nat>, currentRowWidth: real)
  {
    && i <= |ratios|
    && Indices(rows) + currentRow == Range(0, i)
    && (currentRow == []) == (i == 0)
    && InBounds(ratios, currentRow)
    && (currentRow == [] ==> currentRowWidth == 0.0)
    && (currentRow != [] ==>
          currentRowWidth == NaturalWidth(ratios, currentRow) && Fits(ratios, width, currentRow))
    && RowsPacked(ratios, width, rows)
    && (rows != [] ==>
          IsJustified(ratios, width, rows[|rows| - 1])
          && currentRow != [] && currentRow[0] < |ratios|
          && Overflows(ratios, width, rows[|rows| - 1].assets, currentRow[0]))
  }

  /** Stretching a row to height (width - gaps) / sum-of-ratios justifies it. */
  lemma JustifiedHeight(ratios: seq<real>, width: real, idxs: seq<nat>)
    requires InBounds(ratios, idxs) && RatioSum(ratios, idxs) > 0.0
    ensures IsJustified(ratios, width,
      LayoutRow(idxs, (width - (|idxs| - 1) as real * Gap) / RatioSum(ratios, idxs)))
  {
    var s := RatioSum(ratios, idxs);
    var a := width - (|idxs| - 1) as real * Gap;
    assert (a / s) * s == a;
  }

  /** The open row is closed, justified, and asset i starts a new row. */
  lemma CloseRowStep(ratios: seq<real>, width: real, i: nat, rows: seq<LayoutRow>,
                     currentRow: seq<nat>, currentRowWidth: real)
    requires AllPositive(ratios) && i < |ratios|
    requires PackingState(ratios, width, i, rows, currentRow, currentRowWidth)
    requires currentRow != [] && currentRowWidth + Gap + TargetRowHeight * ratios[i] > width
    ensures RatioSum(ratios, currentRow) > 0.0
    ensures PackingState(ratios, width, i + 1,
      rows + [LayoutRow(currentRow, (width - (|currentRow| - 1) as real * Gap) / RatioSum(ratios, currentRow))],
      [i], TargetRowHeight * ratios[i])
  {
    RatioSumPositive(ratios, currentRow);
    var available := width - (|currentRow| - 1) as real * Gap;
    var row := LayoutRow(currentRow, available / RatioSum(ratios, currentRow));
    JustifiedHeight(ratios, width, currentRow);
    IndicesSnoc(rows, row);
    NaturalWidthSnoc(ratios, [], i);
    assert [] + [i] == [i];
    AppendRow(ratios, width, rows, row);
    assert Indices(rows + [row]) + [i] == Range(0, i) + [i];
    RangeSnoc(0, i);
  }

  /** Asset i joins the open row. */
  lemma ExtendRowStep(ratios: seq<real>, width: real, i: nat, rows: seq<LayoutRow>,
                      currentRow: seq<nat>, currentRowWidth: real)
    requires i < |ratios|
    requires PackingState(ratios, width, i, rows, currentRow, currentRowWidth)
    requires currentRow == [] || currentRowWidth + Gap + TargetRowHeight * ratios[i] <= width
    ensures PackingState(ratios, width, i + 1, rows, currentRow + [i],
      currentRowWidth + (if currentRow == [] then 0.0 else Gap) + TargetRowHeight * ratios[i])
  {
    NaturalWidthSnoc(ratios, currentRow, i);
    if currentRow == [] {
      assert currentRow + [i] == [i];
    }
    assert Indices(rows) + (currentRow + [i]) == Range(0, i) + [i];
    RangeSnoc(0, i);
  }

  /** Once every asset has been seen, pushing the open row at the target height completes the layout. */
  lemma FinishStep(ratios: seq<real>, width: real, rows: seq<LayoutRow>,
                   currentRow: seq<nat>, currentRowWidth: real)
    requires PackingState(ratios, width, |ratios|, rows, currentRow, currentRowWidth)
    requires currentRow != []
    requires AllPositive(ratios)
    ensures IsGreedyLayout(ratios, width, rows + [LayoutRow(currentRow, TargetRowHeight)])
    ensures rows + [LayoutRow(currentRow, TargetRowHeight)] == GreedyLayout(ratios, width)
  {
    var last := LayoutRow(currentRow, TargetRowHeight);
    IndicesSnoc(rows, last);
    AppendRow(ratios, width, rows, last);
    RowsPackedMeansChained(ratios, width, rows + [last]);
    GreedyLayoutIsUnique(ratios, width, rows + [last]);
  }

  /** With no open row there are no assets at all, and no rows. */
  lemma FinishEmpty(ratios: seq<real>, width: real, rows: seq<LayoutRow>, currentRowWidth: real)
    requires PackingState(ratios, width, |ratios|, rows, [], currentRowWidth)
    ensures rows == [] && ratios == []
    ensures IsGreedyLayout(ratios, width, rows)
    ensures rows == GreedyLayout(ratios, width)
  {
  }

  /** One iteration of the packing loop of calculateJustifiedLayout: asset
      `i` either closes the open row (which is then justified) and starts a
      new one, or joins the open row. */
  method PackAsset(ratios: seq<real>, containerWidth: real, i: nat, rows: seq<LayoutRow>,
                   currentRow: seq<nat>, currentRowWidth: real)
    returns (rows': seq<LayoutRow>, currentRow': seq<nat>, currentRowWidth': real)
    requires AllPositive(ratios) && i < |ratios|
    requires PackingState(ratios, containerWidth, i, rows, currentRow, currentRowWidth)
    ensures PackingState(ratios, containerWidth, i + 1, rows', currentRow', currentRowWidth')
  {
    var ratio := ratios[i];
    var assetWidth := TargetRowHeight * ratio;
    var gapWidth := if |currentRow| > 0 then Gap else 0.0;

    if currentRowWidth + gapWidth + assetWidth > containerWidth && |currentRow| > 0 {
      CloseRowStep(ratios, containerWidth, i, rows, currentRow, currentRowWidth);
      var availableWidth := containerWidth - (|currentRow| - 1) as real * Gap;
      var sumOfRatios := RatioSum(ratios, currentRow);
      var rowHeight := availableWidth / sumOfRatios;
      rows' := rows + [LayoutRow(currentRow, rowHeight)];
      currentRow' := [i];
      currentRowWidth' := assetWidth;
    } else {
      ExtendRowStep(ratios, containerWidth, i, rows, currentRow, currentRowWidth);
      rows' := rows;
      currentRow' := currentRow + [i];
      currentRowWidth' := currentRowWidth + gapWidth + assetWidth;
    }
  }

  /** The packing loop of calculateJustifiedLayout: every row but the one
      still open is closed and justified to the container width. */
  method PackRows(ratios: seq<real>, containerWidth: real)
    returns (rows: seq<LayoutRow>, currentRow: seq<nat>, currentRowWidth: real)
    requires AllPositive(ratios)
    ensures currentRow == [] ==> ratios == [] && rows == []
    ensures currentRow != [] ==>
      && IsGreedyLayout(ratios, containerWidth, rows + [LayoutRow(currentRow, TargetRowHeight)])
      && rows + [LayoutRow(currentRow, TargetRowHeight)] == GreedyLayout(ratios, containerWidth)
  {
    rows := [];
    currentRow := [];
    currentRowWidth := 0.0;
    for i := 0 to |ratios|
      invariant PackingState(ratios, containerWidth, i, rows, currentRow, currentRowWidth)
    {
      rows, currentRow, currentRowWidth :=
        PackAsset(ratios, containerWidth, i, rows, currentRow, currentRowWidth);
    }
    if currentRow != [] {
      FinishStep(ratios, containerWidth, rows, currentRow, currentRowWidth);
    } else {
      FinishEmpty(ratios, containerWidth, rows, currentRowWidth);
    }
  }

  /**
    calculateJustifiedLayout: walks the ratios once, closing (and justifying)
    the current row whenever the next asset would overflow it; the last row
    keeps the target height. The rows are the unique greedy layout.
   */
  method CalculateJustifiedLayout(ratios: seq<real>, viewportWidth: real, padding: real)
    returns (result: LayoutResult)
    requires AllPositive(ratios)
    ensures IsGreedyLayout(ratios, viewportWidth - padding, result.rows)
    ensures result.rows == GreedyLayout(ratios, viewportWidth - padding)
    ensures result.totalHeight == TotalHeight(result.rows)
    ensures |ratios| == 0 ==> result.rows == [] && result.totalHeight == -Gap
  {
    var containerWidth := viewportWidth - padding;
    var rows, currentRow, currentRowWidth := PackRows(ratios, containerWidth);
    if |currentRow| > 0 {
      rows := rows + [LayoutRow(currentRow, TargetRowHeight)];
    }
    result := LayoutResult(rows, HeightSum(rows) + (|rows| as real - 1.0) * Gap);
  }

  /** Height of a bucket's section: its header, plus its grid and a margin when it has assets. */
  function BucketHeight(ratios: seq<real>, viewportWidth: real): real
    requires AllPositive(ratios)
  {
    if |ratios| == 0 then HeaderHeight
    else HeaderHeight + TotalHeight(GreedyLayout(ratios, viewportWidth - DefaultPadding)) + HeaderMargin
  }

  method CalculateBucketHeight(ratios: seq<real>, viewportWidth: real) returns (h: real)
    requires AllPositive(ratios)
    ensures h == BucketHeight(ratios, viewportWidth)
  {
    if |ratios| == 0 {
      return HeaderHeight;
    }
    var layout := CalculateJustifiedLayout(ratios, viewportWidth, DefaultPadding);
    h := HeaderHeight + layout.totalHeight + HeaderMargin;
  }

  /**
    A bucket whose assets all fit one row at the target height is a single
    row tall: header, 280 pixels of thumbnails and the margin.
   */
  lemma BucketHeightOneRow(ratios: seq<real>, viewportWidth: real)
    requires AllPositive(ratios) && |ratios| > 0
    requires InBounds(ratios, Range(0, |ratios|))
    requires NaturalWidth(ratios, Range(0, |ratios|)) <= viewportWidth - DefaultPadding
    ensures GreedyLayout(ratios, viewportWidth - DefaultPadding) == [LayoutRow(Range(0, |ratios|), TargetRowHeight)]
    ensures BucketHeight(ratios, viewportWidth) == HeaderHeight + TargetRowHeight + HeaderMargin
  {
    var width := viewportWidth - DefaultPadding;
    RowEndOfFittingRow(ratios, width, 0, 1, |ratios|);
    var row := FirstRowOf(ratios, width, 0);
    FirstRowOfJustified(ratios, width, 0);
    assert RowsFrom(ratios, width, |ratios|) == [];
    assert GreedyLayout(ratios, width) == [row];
    assert HeightSum([row]) == HeightSum([row][..0]) + row.height;
  }

  /** Range(lo, hi) holds lo + k at position k. */
  lemma {:induction false} RangeAt(lo: nat, hi: nat)
    requires lo <= hi
    ensures forall k :: 0 <= k < hi - lo ==> Range(lo, hi)[k] == lo + k
    decreases hi - lo
  {
    if lo < hi {
      RangeAt(lo, hi - 1);
    }
  }

  lemma RangeSplit(lo: nat, mid: nat, hi: nat)
    requires lo <= mid <= hi
    ensures Range(lo, hi) == Range(lo, mid) + Range(mid, hi)
  {
    RangeAt(lo, hi);
    RangeAt(lo, mid);
    RangeAt(mid, hi);
  }

  /** Indices read from the front: the first row's assets come first. */
  lemma {:induction false} IndicesCons(rows: seq<LayoutRow>)
    requires rows != []
    ensures Indices(rows) == rows[0].assets + Indices(rows[1..])
  {
    if |rows| > 1 {
      var init := rows[..|rows| - 1];
      IndicesCons(init);
      assert init[1..] == rows[1..][..|rows| - 2];
    } else {
      assert rows[1..] == [];
    }
  }

  /** The first row of a layout of start..n-1 is start..e-1, and the rest lay out e..n-1. */
  lemma FirstRowIsRange(start: nat, n: nat, rows: seq<LayoutRow>)
    requires start <= n && rows != [] && Indices(rows) == Range(start, n)
    ensures start + |rows[0].assets| <= n
    ensures rows[0].assets == Range(start, start + |rows[0].assets|)
    ensures Indices(rows[1..]) == Range(start + |rows[0].assets|, n)
  {
    var a := rows[0].assets;
    var rest := Indices(rows[1..]);
    IndicesCons(rows);
    assert |a| + |rest| == n - start;
    var e := start + |a|;
    RangeSplit(start, e, n);
    assert a == (a + rest)[..|a|];
    assert Range(start, e) == (Range(start, e) + Range(e, n))[..|a|];
    assert rest == (a + rest)[|a|..];
    assert Range(e, n) == (Range(start, e) + Range(e, n))[|a|..];
  }

  /** Adding the next asset to a row starting at `start` widens it by a gap and the asset. */
  lemma NaturalWidthStep(ratios: seq<real>, start: nat, e: nat)
    requires start < e < |ratios|
    ensures InBounds(ratios, Range(start, e)) && InBounds(ratios, Range(start, e + 1))
    ensures NaturalWidth(ratios, Range(start, e + 1))
         == NaturalWidth(ratios, Range(start, e)) + Gap + TargetRowHeight * ratios[e]
  {
    RangeAt(start, e);
    RangeSnoc(start, e);
    NaturalWidthSnoc(ratios, Range(start, e), e);
  }

  /** With positive ratios, a longer row from the same start is wider. */
  lemma {:induction false} NaturalWidthGrows(ratios: seq<real>, start: nat, e1: nat, e2: nat)
    requires AllPositive(ratios) && start < e1 <= e2 <= |ratios|
    ensures InBounds(ratios, Range(start, e1)) && InBounds(ratios, Range(start, e2))
    ensures NaturalWidth(ratios, Range(start, e1)) <= NaturalWidth(ratios, Range(start, e2))
    decreases e2 - e1
  {
    RangeAt(start, e1);
    RangeAt(start, e2);
    if e1 < e2 {
      NaturalWidthGrows(ratios, start, e1, e2 - 1);
      NaturalWidthStep(ratios, start, e2 - 1);
    }
  }

  /** Dropping the first row, start..e-1, of a layout of start..n-1 leaves a layout of e..n-1. */
  lemma LayoutTail(ratios: seq<real>, width: real, start: nat, rows: seq<LayoutRow>)
    requires start <= |ratios| && rows != []
    requires IsGreedyLayoutFrom(ratios, width, start, rows)
    ensures start + |rows[0].assets| <= |ratios|
    ensures rows[0].assets == Range(start, start + |rows[0].assets|)
    ensures IsGreedyLayoutFrom(ratios, width, start + |rows[0].assets|, rows[1..])
  {
    FirstRowIsRange(start, |ratios|, rows);
    var tail := rows[1..];
    assert forall k :: 0 <= k < |tail| ==> tail[k] == rows[k + 1];
    assert RowsWellFormed(ratios, width, tail);
    forall k, j | 0 <= k < |tail| && 0 <= j < |tail| && j == k + 1
      ensures Overflows(ratios, width, tail[k].assets, tail[j].assets[0]) && IsJustified(ratios, width, tail[k])
    {
      assert tail[k] == rows[k + 1] && tail[j] == rows[j + 1];
    }
  }

  /**
    The first row of a layout is the last row, at the target height, exactly
    when it takes every remaining asset; otherwise it was closed by the next
    asset and justified.
   */
  lemma FirstRow(ratios: seq<real>, width: real, start: nat, rows: seq<LayoutRow>)
    requires start <= |ratios| && rows != []
    requires IsGreedyLayoutFrom(ratios, width, start, rows)
    requires start + |rows[0].assets| <= |ratios|
    requires Indices(rows[1..]) == Range(start + |rows[0].assets|, |ratios|)
    ensures rows[0].assets != [] && InBounds(ratios, rows[0].assets) && Fits(ratios, width, rows[0].assets)
    ensures |rows| == 1 <==> start + |rows[0].assets| == |ratios|
    ensures |rows| == 1 ==> rows[0].height == TargetRowHeight
    ensures |rows| > 1 ==>
      && start + |rows[0].assets| < |ratios|
      && Overflows(ratios, width, rows[0].assets, start + |rows[0].assets|)
      && IsJustified(ratios, width, rows[0])
  {
    var e := start + |rows[0].assets|;
    if |rows| > 1 {
      var tail := rows[1..];
      assert tail[0] == rows[1] && rows[1].assets != [];
      IndicesCons(tail);
      assert Indices(tail)[0] == rows[1].assets[0];
      RangeAt(e, |ratios|);
      assert rows[1].assets[0] == e;
      assert Overflows(ratios, width, rows[0].assets, rows[1].assets[0]);
    }
  }

  /** A justified row's height is fixed by its assets and the width. */
  lemma JustifiedUnique(ratios: seq<real>, width: real, a: LayoutRow, b: LayoutRow)
    requires AllPositive(ratios) && a.assets == b.assets && a.assets != [] && InBounds(ratios, a.assets)
    requires IsJustified(ratios, width, a) && IsJustified(ratios, width, b)
    ensures a == b
  {
    RatioSumPositive(ratios, a.assets);
    var s := RatioSum(ratios, a.assets);
    assert (a.height - b.height) * s == 0.0;
  }

  /** Every index of start..e-1 is below e. */
  lemma RangeInBounds(ratios: seq<real>, lo: nat, hi: nat)
    requires lo <= hi <= |ratios|
    ensures InBounds(ratios, Range(lo, hi))
  {
    RangeAt(lo, hi);
  }

  /**
    What LayoutTail and FirstRow say about a layout's first row: it is
    start..e-1, fits, and is either last at the target height or justified
    after overflowing into asset e.
   */
  predicate FirstRowShape(ratios: seq<real>, width: real, start: nat, rows: seq<LayoutRow>)
    requires rows != []
  {
    var e := start + |rows[0].assets|;
    && e <= |ratios|
    && rows[0].assets == Range(start, e)
    && rows[0].assets != [] && InBounds(ratios, rows[0].assets) && Fits(ratios, width, rows[0].assets)
    && (|rows| == 1 <==> e == |ratios|)
    && (|rows| == 1 ==> rows[0].height == TargetRowHeight)
    && (|rows| > 1 ==>
          e < |ratios| && Overflows(ratios, width, rows[0].assets, e) && IsJustified(ratios, width, rows[0]))
  }

  /** Every row of the layout has the shape FirstRowShape describes, in turn from the front. */
  predicate RowShapes(ratios: seq<real>, width: real, start: nat, rows: seq<LayoutRow>)
    decreases |rows|
  {
    if rows == [] then start == |ratios|
    else FirstRowShape(ratios, width, start, rows)
         && RowShapes(ratios, width, start + |rows[0].assets|, rows[1..])
  }

  lemma {:induction false} LayoutRowShapes(ratios: seq<real>, width: real, start: nat, rows: seq<LayoutRow>)
    requires start <= |ratios| && IsGreedyLayoutFrom(ratios, width, start, rows)
    ensures RowShapes(ratios, width, start, rows)
    decreases |rows|
  {
    if rows == [] {
      RangeAt(start, |ratios|);
    } else {
      LayoutTail(ratios, width, start, rows);
      FirstRow(ratios, width, start, rows);
      LayoutRowShapes(ratios, width, start + |rows[0].assets|, rows[1..]);
    }
  }

  /**
    Where the greedy packer closes a row that starts at asset `start` and so
    far holds start..e-1: at the first asset that would overflow it, or at
    the end of the input.
   */
  function RowEnd(ratios: seq<real>, width: real, start: nat, e: nat): (r: nat)
    requires start < e <= |ratios|
    ensures e <= r <= |ratios|
    decreases |ratios| - e
  {
    RangeInBounds(ratios, start, e);
    if e == |ratios| then e
    else if NaturalWidth(ratios, Range(start, e)) + Gap + TargetRowHeight * ratios[e] > width then e
    else RowEnd(ratios, width, start, e + 1)
  }

  /** The row the packer emits for the assets from `start` on: start..RowEnd-1. */
  function FirstRowOf(ratios: seq<real>, width: real, start: nat): (row: LayoutRow)
    requires AllPositive(ratios) && start < |ratios|
    ensures 0 < |row.assets| && start + |row.assets| <= |ratios|
  {
    var e := RowEnd(ratios, width, start, start + 1);
    var assets := Range(start, e);
    RangeInBounds(ratios, start, e);
    RatioSumPositive(ratios, assets);
    LayoutRow(assets,
      if e == |ratios| then TargetRowHeight
      else (width - (|assets| - 1) as real * Gap) / RatioSum(ratios, assets))
  }

  /** FirstRowOf is justified, or keeps the target height when it is the last row. */
  lemma FirstRowOfJustified(ratios: seq<real>, width: real, start: nat)
    requires AllPositive(ratios) && start < |ratios|
    ensures FirstRowOf(ratios, width, start).assets == Range(start, RowEnd(ratios, width, start, start + 1))
    ensures InBounds(ratios, FirstRowOf(ratios, width, start).assets)
    ensures start + |FirstRowOf(ratios, width, start).assets| == |ratios| ==>
      FirstRowOf(ratios, width, start).height == TargetRowHeight
    ensures start + |FirstRowOf(ratios, width, start).assets| < |ratios| ==>
      IsJustified(ratios, width, FirstRowOf(ratios, width, start))
  {
    var e := RowEnd(ratios, width, start, start + 1);
    RangeInBounds(ratios, start, e);
    RatioSumPositive(ratios, Range(start, e));
    JustifiedHeight(ratios, width, Range(start, e));
  }

  /** The rows of the greedy layout of assets start..n-1, computed from the front. */
  function RowsFrom(ratios: seq<real>, width: real, start: nat): seq<LayoutRow>
    requires AllPositive(ratios) && start <= |ratios|
    decreases |ratios| - start
  {
    if start == |ratios| then []
    else
      var row := FirstRowOf(ratios, width, start);
      [row] + RowsFrom(ratios, width, start + |row.assets|)
  }

  /** The justified layout of all the assets in a container of the given width. */
  function GreedyLayout(ratios: seq<real>, width: real): seq<LayoutRow>
    requires AllPositive(ratios)
  {
    RowsFrom(ratios, width, 0)
  }

  /**
    A row start..end-1 that fits, and that overflows into asset `end` unless
    it reaches the end of the input, is where RowEnd closes it, from any
    point inside it.
   */
  lemma {:induction false} RowEndOfFittingRow(ratios: seq<real>, width: real, start: nat, e: nat, end: nat)
    requires AllPositive(ratios) && start < e <= end <= |ratios|
    requires InBounds(ratios, Range(start, end)) && Fits(ratios, width, Range(start, end))
    requires end < |ratios| ==> Overflows(ratios, width, Range(start, end), end)
    ensures RowEnd(ratios, width, start, e) == end
    decreases end - e
  {
    if e < end {
      NaturalWidthStep(ratios, start, e);
      NaturalWidthGrows(ratios, start, e + 1, end);
      RowEndOfFittingRow(ratios, width, start, e + 1, end);
    }
  }

  lemma RowShapeIsFirstRowOf(ratios: seq<real>, width: real, start: nat, rows: seq<LayoutRow>)
    requires AllPositive(ratios) && rows != [] && FirstRowShape(ratios, width, start, rows)
    ensures start < |ratios| && rows[0] == FirstRowOf(ratios, width, start)
  {
    var end := start + |rows[0].assets|;
    RowEndOfFittingRow(ratios, width, start, start + 1, end);
    var row := FirstRowOf(ratios, width, start);
    FirstRowOfJustified(ratios, width, start);
    if |rows| > 1 {
      JustifiedUnique(ratios, width, rows[0], row);
    }
  }

  lemma {:induction false} RowShapesAreGreedy(ratios: seq<real>, width: real, start: nat, rows: seq<LayoutRow>)
    requires AllPositive(ratios) && start <= |ratios| && RowShapes(ratios, width, start, rows)
    ensures rows == RowsFrom(ratios, width, start)
    decreases |rows|
  {
    if rows != [] {
      RowShapeIsFirstRowOf(ratios, width, start, rows);
      RowShapesAreGreedy(ratios, width, start + |rows[0].assets|, rows[1..]);
      assert rows == [rows[0]] + rows[1..];
    }
  }

  /**
    The packer's contract determines the rows: the only layout that meets
    it is GreedyLayout, so any two layouts of the same assets agree.
   */
  lemma GreedyLayoutIsUnique(ratios: seq<real>, width: real, rows: seq<LayoutRow>)
    requires AllPositive(ratios) && IsGreedyLayout(ratios, width, rows)
    ensures rows == GreedyLayout(ratios, width)
  {
    LayoutRowShapes(ratios, width, 0, rows);
    RowShapesAreGreedy(ratios, width, 0, rows);
  }

  /** For s > 0, x * s has the sign of x. */
  lemma ScaleSign(x: real, s: real)
    requires s > 0.0
    ensures x >= 0.0 <==> x * s >= 0.0
  {
    if x < 0.0 {
      assert x * s == -((-x) * s);
    }
  }

  /**
    A row that was closed before the end is stretched above the target
    height exactly when its assets fit the container at that height; so every
    closed row of two or more assets is at least TargetRowHeight tall.
   */
  lemma ClosedRowHeight(ratios: seq<real>, width: real, rows: seq<LayoutRow>, k: nat)
    requires AllPositive(ratios) && IsGreedyLayout(ratios, width, rows) && k + 1 < |rows|
    ensures rows[k].height >= TargetRowHeight <==> NaturalWidth(ratios, rows[k].assets) <= width
    ensures |rows[k].assets| > 1 ==> rows[k].height >= TargetRowHeight
  {
    assert IsJustified(ratios, width, rows[k]) by {
      assert Overflows(ratios, width, rows[k].assets, rows[k + 1].assets[0]);
    }
    RatioSumPositive(ratios, rows[k].assets);
    var s := RatioSum(ratios, rows[k].assets);
    assert (rows[k].height - TargetRowHeight) * s == width - NaturalWidth(ratios, rows[k].assets);
    ScaleSign(rows[k].height - TargetRowHeight, s);
  }
}
