/** The two loops of query.go over result frames: the repair before LongToMulti, and the size totals. */
module FrameWork {
  import opened Prelude

  datatype Kind = Time | NullableTime | Other(tag: nat)

  /** A cell is None when it is null. */
  datatype Field = Field(name: string, labels: map<string, string>, config: int, kind: Kind, cells: seq<Option<int>>)

  datatype FrameType = Untyped | TimeSeriesLong

  datatype Meta = Meta(frameType: FrameType, major: nat, minor: nat, rest: int)

  const EMPTY_META: Meta := Meta(Untyped, 0, 0, 0)

  class Frame {
    var fields: seq<Field>
    var meta: Option<Meta>

    constructor (fields: seq<Field>, meta: Option<Meta>)
      ensures this.fields == fields && this.meta == meta
    {
      this.fields, this.meta := fields, meta;
    }
  }

  // ---------- fixFrameForLongToMulti ----------

  datatype FixError = NilFrame | NoTimeField | NullTimes

  predicate IsTime(f: Field) {
    f.kind.Time? || f.kind.NullableTime?
  }

  /** The index of the first time field, or the number of fields. */
  function FirstTime(fields: seq<Field>): (i: nat)
    ensures i <= |fields|
    ensures forall j :: 0 <= j < i ==> !IsTime(fields[j])
    ensures i < |fields| ==> IsTime(fields[i])
  {
    if fields == [] || IsTime(fields[0]) then 0 else 1 + FirstTime(fields[1..])
  }

  predicate HasNull(f: Field) {
    exists j :: 0 <= j < |f.cells| && f.cells[j].None?
  }

  /** The outcome for a frame that is there: the error, or the new fields and meta. */
  datatype Fixed = NotFixed(err: FixError) | Fixed(fields: seq<Field>, meta: Option<Meta>)

  function Fix(fields: seq<Field>, meta: Option<Meta>): Fixed {
    var i := FirstTime(fields);
    if i == |fields| then NotFixed(NoTimeField)
    else if fields[i].kind.Time? then Fixed(fields, meta)
    else if HasNull(fields[i]) then NotFixed(NullTimes)
    else
      var m := if meta.None? then EMPTY_META else meta.value;
      Fixed(fields[i := fields[i].(kind := Time)], Some(m.(frameType := TimeSeriesLong, major := 0, minor := 1)))
  }

  method FixFrameForLongToMulti(frame: Frame?) returns (err: Option<FixError>)
    modifies frame
    ensures frame == null ==> err == Some(NilFrame)
    ensures frame != null ==>
              match old(Fix(frame.fields, frame.meta))
              case NotFixed(e) => err == Some(e) && frame.fields == old(frame.fields) && frame.meta == old(frame.meta)
              case Fixed(fields, meta) => err == None && frame.fields == fields && frame.meta == meta
  {
    if frame == null {
      return Some(NilFrame);
    }
    var first := FirstTime(frame.fields);
    if first == |frame.fields| {
      return Some(NoTimeField);
    }
    var timeField := frame.fields[first];
    if timeField.kind.NullableTime? {
      var n := |timeField.cells|;
      var newValues := new int[n];
      for i := 0 to n
        invariant frame.fields == old(frame.fields) && frame.meta == old(frame.meta)
        invariant forall j :: 0 <= j < i ==> timeField.cells[j] == Some(newValues[j])
      {
        var val := timeField.cells[i];
        if val.None? {
          assert HasNull(timeField);
          return Some(NullTimes);
        }
        newValues[i] := val.value;
      }
      var values := newValues[..];
      var newField := Field(timeField.name, timeField.labels, timeField.config, Time, seq(n, j requires 0 <= j < n => Some(values[j])));
      assert newField.cells == timeField.cells;
      frame.fields := frame.fields[first := newField];
      if frame.meta.None? {
        frame.meta := Some(EMPTY_META);
      }
      frame.meta := Some(frame.meta.value.(frameType := TimeSeriesLong, major := 0, minor := 1));
    }
    return None;
  }

  /**
   On success the first time field is where it was, not nullable, otherwise the
   same in every cell; all other fields are the same; a repaired frame is marked
   as a long series, version 0.1, with the rest of its meta kept; and a second
   call changes nothing.
   */
  lemma FixKeepsCells(fields: seq<Field>, meta: Option<Meta>)
    requires Fix(fields, meta).Fixed?
    ensures var fixed := Fix(fields, meta);
      && |fixed.fields| == |fields| && FirstTime(fixed.fields) == FirstTime(fields) < |fields|
      && fixed.fields[FirstTime(fields)].kind.Time?
      && (forall i :: 0 <= i < |fields| ==> fixed.fields[i].(kind := Time) == fields[i].(kind := Time))
      && (forall i :: 0 <= i < |fields| && i != FirstTime(fields) ==> fixed.fields[i] == fields[i])
      && (fields[FirstTime(fields)].kind.Time? ==> fixed.meta == meta)
      && (fields[FirstTime(fields)].kind.NullableTime? ==>
            fixed.meta == Some(Meta(TimeSeriesLong, 0, 1, if meta.Some? then meta.value.rest else 0)))
      && RowLen(fixed.fields) == RowLen(fields)
      && Fix(fixed.fields, fixed.meta) == fixed
  {
    var fixed, t := Fix(fields, meta), FirstTime(fields);
    FirstTimeIs(fixed.fields, t);
    SameRowLen(fixed.fields, fields);
  }

  lemma {:induction false} FirstTimeIs(fields: seq<Field>, t: nat)
    requires t < |fields| && IsTime(fields[t]) && forall j :: 0 <= j < t ==> !IsTime(fields[j])
    ensures FirstTime(fields) == t
    decreases t
  {
    if t > 0 {
      FirstTimeIs(fields[1..], t - 1);
    }
  }

  lemma SameRowLen(a: seq<Field>, b: seq<Field>)
    requires |a| == |b| && forall i :: 0 <= i < |a| ==> a[i].cells == b[i].cells
    ensures RowLen(a) == RowLen(b)
  {
    assert EqualLengths(a) == EqualLengths(b);
  }

  /** It fails exactly without a time field, or when the first one is nullable and holds a null, and says which. */
  lemma FixFailsExactly(fields: seq<Field>, meta: Option<Meta>)
    ensures Fix(fields, meta).NotFixed? <==>
              || (forall i :: 0 <= i < |fields| ==> !IsTime(fields[i]))
              || exists i :: 0 <= i < |fields| && fields[i].kind.NullableTime? && HasNull(fields[i])
                             && forall j :: 0 <= j < i ==> !IsTime(fields[j])
    ensures Fix(fields, meta) == NotFixed(NoTimeField) <==> forall i :: 0 <= i < |fields| ==> !IsTime(fields[i])
    ensures Fix(fields, meta) != NotFixed(NilFrame)
  {
    hide HasNull;
    var t := FirstTime(fields);
    if i :| 0 <= i < |fields| && IsTime(fields[i]) && forall j :: 0 <= j < i ==> !IsTime(fields[j]) {
      FirstTimeIs(fields, i);
    }
  }

  // ---------- observeResponseSize ----------

  predicate EqualLengths(fields: seq<Field>) {
    forall i :: 0 <= i < |fields| ==> |fields[i].cells| == |fields[0].cells|
  }

  /** The row count of a frame, or None where its fields have different lengths. */
  function RowLen(fields: seq<Field>): Option<nat> {
    if fields == [] then Some(0) else if EqualLengths(fields) then Some(|fields[0].cells|) else None
  }

  /** int64 arithmetic. */
  function Wrap(x: int): int {
    (x + 0x8000_0000_0000_0000) % 0x1_0000_0000_0000_0000 - 0x8000_0000_0000_0000
  }

  lemma {:induction false} WrapShift(x: int, q: int)
    ensures Wrap(x + q * 0x1_0000_0000_0000_0000) == Wrap(x)
    decreases if q < 0 then -q else q
  {
    if q > 0 {
      WrapShift(x + 0x1_0000_0000_0000_0000, q - 1);
    } else if q < 0 {
      WrapShift(x - 0x1_0000_0000_0000_0000, q + 1);
    }
  }

  lemma WrapIsShift(x: int) returns (q: int)
    ensures Wrap(x) == x + q * 0x1_0000_0000_0000_0000
  {
    q := -((x + 0x8000_0000_0000_0000) / 0x1_0000_0000_0000_0000);
  }

  lemma WrapAdd(a: int, b: int)
    ensures Wrap(Wrap(a) + Wrap(b)) == Wrap(a + b)
  {
    hide Wrap;
    var p := WrapIsShift(a);
    var q := WrapIsShift(b);
    WrapShift(a + b, p + q);
  }

  lemma WrapSmall(x: int)
    requires -0x8000_0000_0000_0000 <= x < 0x8000_0000_0000_0000
    ensures Wrap(x) == x
  {
  }

  /** The number of cells of a frame, field by field. */
  function CellCount(fields: seq<Field>): nat {
    if fields == [] then 0 else CellCount(fields[..|fields| - 1]) + |fields[|fields| - 1].cells|
  }

  lemma {:induction false} CellsOfEqualFields(fields: seq<Field>, rows: nat)
    requires forall i :: 0 <= i < |fields| ==> |fields[i].cells| == rows
    ensures CellCount(fields) == rows * |fields|
  {
    if fields != [] {
      CellsOfEqualFields(fields[..|fields| - 1], rows);
    }
  }

  function FrameRows(frame: Frame?): nat
    reads frame
  {
    if frame == null || RowLen(frame.fields).None? then 0 else RowLen(frame.fields).value
  }

  function FrameCells(frame: Frame?): nat
    reads frame
  {
    if frame == null then 0 else CellCount(frame.fields)
  }

  function TotalRows(frames: seq<Frame?>): nat
    reads frames
  {
    if frames == [] then 0 else TotalRows(frames[..|frames| - 1]) + FrameRows(frames[|frames| - 1])
  }

  function TotalCells(frames: seq<Frame?>): nat
    reads frames
  {
    if frames == [] then 0 else TotalCells(frames[..|frames| - 1]) + FrameCells(frames[|frames| - 1])
  }

  /** Every frame that is there has fields of one length. */
  predicate Regular(frames: seq<Frame?>)
    reads frames
  {
    forall i :: 0 <= i < |frames| && frames[i] != null ==> EqualLengths(frames[i].fields)
  }

  datatype Observed = Skipped | Emitted(rows: int, cells: int)

  method ObserveResponseSize(frames: seq<Frame?>) returns (observed: Observed)
    ensures observed.Emitted? <==> Regular(frames)
    ensures observed.Emitted? ==> observed == Emitted(Wrap(TotalRows(frames)), Wrap(TotalCells(frames)))
    ensures observed.Emitted? && TotalRows(frames) < 0x8000_0000_0000_0000 && TotalCells(frames) < 0x8000_0000_0000_0000 ==>
              observed == Emitted(TotalRows(frames), TotalCells(frames))
    ensures observed.Emitted? ==> observed == Emitted(Wrap(|RowsOf(frames)|), Wrap(|CellsOf(frames)|))
  {
    hide Wrap, CellCount, EqualLengths, RowsOf, CellsOf;
    var totalRows, totalCells := 0, 0;
    WrapSmall(0);
    for k := 0 to |frames|
      invariant Regular(frames[..k])
      invariant totalRows == Wrap(TotalRows(frames[..k])) && totalCells == Wrap(TotalCells(frames[..k]))
    {
      TotalsStep(frames, k);
      var frame := frames[k];
      if frame == null {
        continue;
      }
      var rowLen := RowLen(frame.fields);
      if rowLen.None? {
        return Skipped;
      }
      CellsOfRegular(frame.fields);
      WrapAdd(TotalRows(frames[..k]), rowLen.value);
      WrapAdd(TotalCells(frames[..k]), rowLen.value * |frame.fields|);
      totalRows := Wrap(totalRows + Wrap(rowLen.value));
      totalCells := Wrap(totalCells + Wrap(rowLen.value * |frame.fields|));
    }
    assert frames[..|frames|] == frames;
    TotalsCount(frames);
    if TotalRows(frames) < 0x8000_0000_0000_0000 && TotalCells(frames) < 0x8000_0000_0000_0000 {
      WrapSmall(TotalRows(frames));
      WrapSmall(TotalCells(frames));
    }
    return Emitted(totalRows, totalCells);
  }

  lemma TotalsStep(frames: seq<Frame?>, k: nat)
    requires k < |frames|
    ensures TotalRows(frames[..k + 1]) == TotalRows(frames[..k]) + FrameRows(frames[k])
    ensures TotalCells(frames[..k + 1]) == TotalCells(frames[..k]) + FrameCells(frames[k])
    ensures Regular(frames[..k + 1]) <==> Regular(frames[..k]) && (frames[k] != null ==> RowLen(frames[k].fields).Some?)
    ensures frames[k] != null && RowLen(frames[k].fields).None? ==> !Regular(frames)
  {
    assert frames[..k + 1][..k] == frames[..k];
    assert forall i :: 0 <= i < k ==> frames[..k + 1][i] == frames[..k][i];
    if frames[k] != null {
      assert EqualLengths(frames[k].fields) <==> RowLen(frames[k].fields).Some?;
    }
  }

  lemma CellsOfRegular(fields: seq<Field>)
    requires RowLen(fields).Some?
    ensures CellCount(fields) == RowLen(fields).value * |fields|
  {
    CellsOfEqualFields(fields, RowLen(fields).value);
  }

  // ---------- the totals, counted ----------

  datatype Row = Row(frame: nat, row: nat)

  datatype Cell = Cell(frame: nat, field: nat, row: nat)

  /** The rows of the frames that are there: those of their first fields. */
  ghost function RowsOf(frames: seq<Frame?>): set<Row>
    reads frames
  {
    set f: nat, j: nat | f < |frames| && frames[f] != null && frames[f].fields != [] && j < |frames[f].fields[0].cells| :: Row(f, j)
  }

  /** The values in all fields of the frames that are there. */
  ghost function CellsOf(frames: seq<Frame?>): set<Cell>
    reads frames
  {
    set f: nat, i: nat, j: nat | f < |frames| && frames[f] != null && i < |frames[f].fields| && j < |frames[f].fields[i].cells| :: Cell(f, i, j)
  }

  ghost function ColumnOf(f: nat, i: nat, n: nat): set<Cell> {
    set j: nat | j < n :: Cell(f, i, j)
  }

  ghost function FieldsOf(f: nat, fields: seq<Field>): set<Cell> {
    set i: nat, j: nat | i < |fields| && j < |fields[i].cells| :: Cell(f, i, j)
  }

  ghost function FrameRowsOf(f: nat, n: nat): set<Row> {
    set j: nat | j < n :: Row(f, j)
  }

  lemma {:induction false} ColumnSize(f: nat, i: nat, n: nat)
    ensures |ColumnOf(f, i, n)| == n
  {
    if n > 0 {
      ColumnSize(f, i, n - 1);
      assert ColumnOf(f, i, n) == ColumnOf(f, i, n - 1) + {Cell(f, i, n - 1)};
    } else {
      assert ColumnOf(f, i, n) == {};
    }
  }

  lemma {:induction false} FrameRowsSize(f: nat, n: nat)
    ensures |FrameRowsOf(f, n)| == n
  {
    if n > 0 {
      FrameRowsSize(f, n - 1);
      assert FrameRowsOf(f, n) == FrameRowsOf(f, n - 1) + {Row(f, n - 1)};
    } else {
      assert FrameRowsOf(f, n) == {};
    }
  }

  lemma {:induction false} FieldsSize(f: nat, fields: seq<Field>)
    ensures |FieldsOf(f, fields)| == CellCount(fields)
  {
    if fields == [] {
      assert FieldsOf(f, fields) == {};
    } else {
      var n := |fields| - 1;
      FieldsSize(f, fields[..n]);
      ColumnSize(f, n, |fields[n].cells|);
      assert FieldsOf(f, fields) == FieldsOf(f, fields[..n]) + ColumnOf(f, n, |fields[n].cells|);
      assert FieldsOf(f, fields[..n]) !! ColumnOf(f, n, |fields[n].cells|);
    }
  }

  /** The totals are the numbers of rows and of values there are. */
  lemma {:induction false} TotalsCount(frames: seq<Frame?>)
    requires Regular(frames)
    ensures TotalRows(frames) == |RowsOf(frames)| && TotalCells(frames) == |CellsOf(frames)|
  {
    if frames == [] {
      assert RowsOf(frames) == {} && CellsOf(frames) == {};
    } else {
      var n := |frames| - 1;
      TotalsCount(frames[..n]);
      LastFrame(frames);
    }
  }

  lemma LastFrame(frames: seq<Frame?>)
    requires frames != [] && Regular(frames)
    ensures var n := |frames| - 1;
      && |RowsOf(frames)| == |RowsOf(frames[..n])| + FrameRows(frames[n])
      && |CellsOf(frames)| == |CellsOf(frames[..n])| + FrameCells(frames[n])
  {
    hide RowsOf, CellsOf, FieldsOf, FrameRowsOf, CellCount;
    var n := |frames| - 1;
    LastFrameCells(frames);
    LastFrameRows(frames);
    FrameRowsSize(n, FrameRows(frames[n]));
    if frames[n] != null {
      FieldsSize(n, frames[n].fields);
    }
  }

  lemma LastFrameCells(frames: seq<Frame?>)
    requires frames != []
    ensures var n := |frames| - 1;
      var last := if frames[n] == null then {} else FieldsOf(n, frames[n].fields);
      CellsOf(frames) == CellsOf(frames[..n]) + last && CellsOf(frames[..n]) !! last
  {
    var n := |frames| - 1;
    var init := frames[..n];
    var last := if frames[n] == null then {} else FieldsOf(n, frames[n].fields);
    assert forall f: nat :: f < n ==> init[f] == frames[f];
    forall c: Cell
      ensures c in CellsOf(frames) <==> c in CellsOf(init) || c in last
    {
      if c.frame < n {
        assert init[c.frame] == frames[c.frame];
      }
    }
  }

  lemma LastFrameRows(frames: seq<Frame?>)
    requires frames != [] && Regular(frames)
    ensures var n := |frames| - 1;
      var last := FrameRowsOf(n, FrameRows(frames[n]));
      RowsOf(frames) == RowsOf(frames[..n]) + last && RowsOf(frames[..n]) !! last
  {
    hide EqualLengths;
    var n := |frames| - 1;
    var init := frames[..n];
    var last := FrameRowsOf(n, FrameRows(frames[n]));
    assert forall f: nat :: f < n ==> init[f] == frames[f];
    forall r: Row
      ensures r in RowsOf(frames) <==> r in RowsOf(init) || r in last
    {
      if r.frame < n {
        assert init[r.frame] == frames[r.frame];
      }
    }
  }
}
