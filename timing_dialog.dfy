/** The timing dialog of the subtitle editor (src/components/subtitles/TimingDialog.tsx):
    shift cues by a fixed offset, stretch them by a ratio, or map them linearly so that
    two chosen instants land where wanted. Each handler either returns early and
    changes nothing (`None`), or hands the editor one timing change per cue. */
module TimingDialog {
  import opened Text
  import opened SubtitleEntries

  /** New start and end, in milliseconds, for the cue with `id`. */
  datatype TimeChange = TimeChange(id: string, startTime: int, endTime: int)

  datatype ShiftMode = AllEntries | SelectedOnly

  /** `Math.max(0, t)`: no time goes below zero. */
  function Clamp(t: int): (r: int)
    ensures r >= 0 && r >= t && (r == 0 || r == t)
  {
    if t < 0 then 0 else t
  }

  /** JavaScript's `Math.round` on an exact value: the nearest integer, halves upwards. */
  function JsRound(x: real): (n: int)
    ensures x - 0.5 < n as real <= x + 0.5
  {
    (x + 0.5).Floor
  }

  lemma RoundInteger(n: int)
    ensures JsRound(n as real) == n
  {
  }

  lemma RoundMonotone(x: real, y: real)
    requires x <= y
    ensures JsRound(x) <= JsRound(y)
  {
  }

  // ---------------------------------------------------------------------------
  // Shift
  // ---------------------------------------------------------------------------

  /** Which cues a shift moves: the selected ones in selection mode when something is
      selected, every cue otherwise. */
  function ShiftTargets(entries: seq<SubtitleEntry>, mode: ShiftMode, selected: set<string>): seq<SubtitleEntry>
  {
    if mode == SelectedOnly then Scope(entries, selected) else entries
  }

  function ShiftTime(t: int, shiftMs: int): int
  {
    Clamp(t + shiftMs)
  }

  /** A zero shift returns early; otherwise every target gets its start and end moved by
      the shift, clamped at zero. */
  function HandleShift(entries: seq<SubtitleEntry>, shiftMs: int, mode: ShiftMode, selected: set<string>): Option<seq<TimeChange>>
  {
    if shiftMs == 0 then None
    else
      var targets := ShiftTargets(entries, mode, selected);
      Some(seq(|targets|, k requires 0 <= k < |targets| =>
             TimeChange(targets[k].id, ShiftTime(targets[k].startTime, shiftMs), ShiftTime(targets[k].endTime, shiftMs))))
  }

  /** A shift of zero changes nothing. Any other shift gives one change per target, in
      order and with the target's id; the new times are never negative, and a cue that
      stays clear of zero keeps its length. */
  lemma ShiftSpec(entries: seq<SubtitleEntry>, shiftMs: int, mode: ShiftMode, selected: set<string>)
    ensures HandleShift(entries, shiftMs, mode, selected).None? <==> shiftMs == 0
    ensures shiftMs != 0 ==>
              var targets := ShiftTargets(entries, mode, selected);
              var u := HandleShift(entries, shiftMs, mode, selected).value;
              |u| == |targets|
              && forall k :: 0 <= k < |u| ==>
                   u[k].id == targets[k].id && u[k].startTime >= 0 && u[k].endTime >= 0
                   && u[k].startTime == Clamp(targets[k].startTime + shiftMs)
                   && u[k].endTime == Clamp(targets[k].endTime + shiftMs)
                   && u[k].startTime >= targets[k].startTime + shiftMs && u[k].endTime >= targets[k].endTime + shiftMs
                   && (targets[k].startTime + shiftMs >= 0 && targets[k].endTime >= targets[k].startTime
                       ==> u[k].endTime - u[k].startTime == targets[k].endTime - targets[k].startTime)
  {
  }

  /** In selection mode with a non-empty selection, exactly the selected cues move, in
      cue order; otherwise all of them do. */
  lemma ShiftTargetsSpec(entries: seq<SubtitleEntry>, mode: ShiftMode, selected: set<string>)
    ensures mode == SelectedOnly && |selected| > 0 ==>
              ShiftTargets(entries, mode, selected) == SelectedEntries(entries, selected)
              && forall e :: e in ShiftTargets(entries, mode, selected) <==> e in entries && e.id in selected
    ensures mode == AllEntries || |selected| == 0 ==> ShiftTargets(entries, mode, selected) == entries
  {
  }

  /** A shift that keeps a time clear of zero is undone by the opposite shift. */
  lemma ShiftBack(t: int, shiftMs: int)
    requires t >= 0 && t + shiftMs >= 0
    ensures ShiftTime(ShiftTime(t, shiftMs), -shiftMs) == t
  {
  }

  // ---------------------------------------------------------------------------
  // Scale
  // ---------------------------------------------------------------------------

  function ScaleTime(t: int, ratio: real): int
  {
    Clamp(JsRound(t as real * ratio))
  }

  /** A ratio of exactly one returns early; otherwise every cue's start and end are
      multiplied by the ratio, rounded and clamped at zero. */
  function HandleScale(entries: seq<SubtitleEntry>, ratio: real): Option<seq<TimeChange>>
  {
    if ratio == 1.0 then None
    else
      Some(seq(|entries|, k requires 0 <= k < |entries| =>
             TimeChange(entries[k].id, ScaleTime(entries[k].startTime, ratio), ScaleTime(entries[k].endTime, ratio))))
  }

  /** Scaling by one is skipped; any other ratio changes every cue, in order, to times
      that are never negative and, for a non-negative ratio, never out of order. */
  lemma ScaleSpec(entries: seq<SubtitleEntry>, ratio: real)
    ensures HandleScale(entries, ratio).None? <==> ratio == 1.0
    ensures ratio != 1.0 ==>
              var u := HandleScale(entries, ratio).value;
              |u| == |entries|
              && forall k :: 0 <= k < |u| ==>
                   u[k].id == entries[k].id && u[k].startTime >= 0 && u[k].endTime >= 0
                   && u[k].startTime == Clamp(JsRound(entries[k].startTime as real * ratio))
                   && u[k].endTime == Clamp(JsRound(entries[k].endTime as real * ratio))
                   && (ratio >= 0.0 && entries[k].startTime <= entries[k].endTime ==> u[k].startTime <= u[k].endTime)
  {
    if ratio != 1.0 {
      var u := HandleScale(entries, ratio).value;
      forall k | 0 <= k < |u| && ratio >= 0.0 && entries[k].startTime <= entries[k].endTime
        ensures u[k].startTime <= u[k].endTime
      {
        ScaleMonotone(entries[k].startTime, entries[k].endTime, ratio);
      }
    }
  }

  /** A non-negative ratio keeps scaled times in order. */
  lemma ScaleMonotone(s: int, e: int, ratio: real)
    requires ratio >= 0.0 && s <= e
    ensures ScaleTime(s, ratio) <= ScaleTime(e, ratio)
  {
    assert s as real * ratio <= e as real * ratio;
    RoundMonotone(s as real * ratio, e as real * ratio);
  }

  /** The early return for a ratio of one loses nothing: scaling by one would leave
      every non-negative time as it is. */
  lemma ScaleByOne(t: int)
    requires t >= 0
    ensures ScaleTime(t, 1.0) == t
  {
    RoundInteger(t);
  }

  // ---------------------------------------------------------------------------
  // Two-point sync
  // ---------------------------------------------------------------------------

  /** The line through (point1Original, point1Desired) and (point2Original, point2Desired):
      its slope and its offset. */
  function Slope(p1o: real, p1d: real, p2o: real, p2d: real): real
    requires p1o != p2o
  {
    (p2d - p1d) / (p2o - p1o)
  }

  function Offset(p1o: real, p1d: real, p2o: real, p2d: real): real
    requires p1o != p2o
  {
    p1d - Slope(p1o, p1d, p2o, p2d) * p1o
  }

  function SyncTime(t: int, a: real, b: real): int
  {
    Clamp(JsRound(a * t as real + b))
  }

  /** Equal original points return early; otherwise every cue goes through the line. */
  function HandleTwoPointSync(entries: seq<SubtitleEntry>, p1o: real, p1d: real, p2o: real, p2d: real): Option<seq<TimeChange>>
  {
    if p1o == p2o then None
    else
      var a := Slope(p1o, p1d, p2o, p2d);
      var b := Offset(p1o, p1d, p2o, p2d);
      Some(seq(|entries|, k requires 0 <= k < |entries| =>
             TimeChange(entries[k].id, SyncTime(entries[k].startTime, a, b), SyncTime(entries[k].endTime, a, b))))
  }

  /** Over exact reals, before rounding and clamping, the line sends each original point
      to its desired point. */
  lemma TwoPointLine(p1o: real, p1d: real, p2o: real, p2d: real)
    requires p1o != p2o
    ensures var a := Slope(p1o, p1d, p2o, p2d);
            var b := Offset(p1o, p1d, p2o, p2d);
            a * p1o + b == p1d && a * p2o + b == p2d
  {
    var a := Slope(p1o, p1d, p2o, p2d);
    assert a * (p2o - p1o) == p2d - p1d;
  }

  /** Equal original points are skipped; otherwise every cue changes, in order, to times
      that are never negative, and a cue starting exactly at a whole-millisecond original
      point starts at its desired point (or at zero if that is negative). */
  lemma TwoPointSpec(entries: seq<SubtitleEntry>, p1o: real, p1d: real, p2o: real, p2d: real)
    ensures HandleTwoPointSync(entries, p1o, p1d, p2o, p2d).None? <==> p1o == p2o
    ensures p1o != p2o ==>
              var u := HandleTwoPointSync(entries, p1o, p1d, p2o, p2d).value;
              |u| == |entries|
              && forall k :: 0 <= k < |u| ==>
                   u[k].id == entries[k].id && u[k].startTime >= 0 && u[k].endTime >= 0
                   && u[k].startTime == Clamp(JsRound(Slope(p1o, p1d, p2o, p2d) * entries[k].startTime as real + Offset(p1o, p1d, p2o, p2d)))
                   && u[k].endTime == Clamp(JsRound(Slope(p1o, p1d, p2o, p2d) * entries[k].endTime as real + Offset(p1o, p1d, p2o, p2d)))
                   && (entries[k].startTime as real == p1o && p1d.Floor as real == p1d ==> u[k].startTime == Clamp(p1d.Floor))
                   && (entries[k].startTime as real == p2o && p2d.Floor as real == p2d ==> u[k].startTime == Clamp(p2d.Floor))
  {
    if p1o != p2o {
      TwoPointLine(p1o, p1d, p2o, p2d);
      RoundInteger(p1d.Floor);
      RoundInteger(p2d.Floor);
    }
  }
}
