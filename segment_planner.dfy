/** The segment-building halves of `_createRemoveFilter` and
    `_createSpeedFilter`: a walk over the silences with a `lastEnd` cursor that
    starts at 0, pushing the gap before each silence when the silence starts
    after the cursor, and a tail up to the duration when the cursor is still
    before it. */
module SegmentPlanner {
  import opened Numbers
  import opened SilenceLog

  /** A span kept in remove mode, `{start, end}`. It is pushed only after a
      comparison that succeeded, so both ends are finite. */
  datatype Span = Span(start: real, end: real)

  /** A speed-mode segment, `{start, end, speed}`. */
  datatype Segment = Segment(start: Num, end: Num, speed: real)

  // ---------------------------------------------------------------------------
  // Remove mode

  datatype RemoveState = RemoveState(kept: seq<Span>, lastEnd: Num)

  function RemoveStep(st: RemoveState, s: Silence): RemoveState {
    RemoveState(
      if Gt(s.start, st.lastEnd) then st.kept + [Span(st.lastEnd.v, s.start.v)] else st.kept,
      s.end)
  }

  /** The loop state after the silences `sils`. */
  function RemoveScan(sils: seq<Silence>): RemoveState {
    if |sils| == 0 then RemoveState([], Finite(0.0))
    else RemoveStep(RemoveScan(sils[..|sils| - 1]), sils[|sils| - 1])
  }

  /** The spans remove mode keeps: the gaps and the tail. */
  function RemoveSegments(sils: seq<Silence>, duration: Num): seq<Span> {
    var st := RemoveScan(sils);
    if Lt(st.lastEnd, duration) then st.kept + [Span(st.lastEnd.v, duration.v)] else st.kept
  }

  /** The `forEach` loop of `_createRemoveFilter` and the tail push after it. */
  method BuildRemoveSegments(silences: seq<Silence>, duration: Num) returns (segments: seq<Span>)
    ensures segments == RemoveSegments(silences, duration)
  {
    segments := [];
    var lastEnd := Finite(0.0);
    for i := 0 to |silences|
      invariant RemoveState(segments, lastEnd) == RemoveScan(silences[..i])
    {
      var silence := silences[i];
      if Gt(silence.start, lastEnd) {
        segments := segments + [Span(lastEnd.v, silence.start.v)];
      }
      lastEnd := silence.end;
      assert silences[..i + 1][..i] == silences[..i];
    }
    assert silences[..|silences|] == silences;
    if Lt(lastEnd, duration) {
      segments := segments + [Span(lastEnd.v, duration.v)];
    }
  }

  // ---------------------------------------------------------------------------
  // Speed mode

  datatype SpeedState = SpeedState(segments: seq<Segment>, lastEnd: Num)

  function SpeedStep(st: SpeedState, s: Silence, factor: real): SpeedState {
    var before := if Gt(s.start, st.lastEnd) then st.segments + [Segment(st.lastEnd, s.start, 1.0)] else st.segments;
    SpeedState(before + [Segment(s.start, s.end, factor)], s.end)
  }

  function SpeedScan(sils: seq<Silence>, factor: real): SpeedState {
    if |sils| == 0 then SpeedState([], Finite(0.0))
    else SpeedStep(SpeedScan(sils[..|sils| - 1], factor), sils[|sils| - 1], factor)
  }

  /** The segments speed mode plays: normal-speed gaps, sped-up silences and a
      normal-speed tail. */
  function SpeedSegments(sils: seq<Silence>, duration: Num, factor: real): seq<Segment> {
    var st := SpeedScan(sils, factor);
    if Lt(st.lastEnd, duration) then st.segments + [Segment(st.lastEnd, duration, 1.0)] else st.segments
  }

  /** The `forEach` loop of `_createSpeedFilter` and the tail push after it. */
  method BuildSpeedSegments(silences: seq<Silence>, duration: Num, factor: real) returns (segments: seq<Segment>)
    ensures segments == SpeedSegments(silences, duration, factor)
  {
    segments := [];
    var lastEnd := Finite(0.0);
    for i := 0 to |silences|
      invariant SpeedState(segments, lastEnd) == SpeedScan(silences[..i], factor)
    {
      var silence := silences[i];
      if Gt(silence.start, lastEnd) {
        segments := segments + [Segment(lastEnd, silence.start, 1.0)];
      }
      segments := segments + [Segment(silence.start, silence.end, factor)];
      lastEnd := silence.end;
      assert silences[..i + 1][..i] == silences[..i];
    }
    assert silences[..|silences|] == silences;
    if Lt(lastEnd, duration) {
      segments := segments + [Segment(lastEnd, duration, 1.0)];
    }
  }

  // ---------------------------------------------------------------------------
  // Properties that hold for every input

  predicate Positive(spans: seq<Span>) {
    forall k :: 0 <= k < |spans| ==> spans[k].start < spans[k].end
  }

  lemma {:induction false} RemoveScanPositive(sils: seq<Silence>)
    ensures Positive(RemoveScan(sils).kept)
    ensures |RemoveScan(sils).kept| <= |sils|
    decreases |sils|
  {
    if |sils| > 0 {
      RemoveScanPositive(sils[..|sils| - 1]);
    }
  }

  /** Remove mode never emits an empty or inverted span, and emits at most one
      span per silence plus the tail. */
  lemma RemoveSegmentsPositive(sils: seq<Silence>, duration: Num)
    ensures Positive(RemoveSegments(sils, duration))
    ensures |RemoveSegments(sils, duration)| <= |sils| + 1
  {
    RemoveScanPositive(sils);
  }

  function AsKept(s: Span): Segment {
    Segment(Finite(s.start), Finite(s.end), 1.0)
  }

  /** The kept spans as normal-speed segments. */
  function KeptAll(spans: seq<Span>): (r: seq<Segment>)
    ensures |r| == |spans|
    ensures forall i :: 0 <= i < |spans| ==> r[i] == AsKept(spans[i])
  {
    if |spans| == 0 then [] else KeptAll(spans[..|spans| - 1]) + [AsKept(spans[|spans| - 1])]
  }

  function SpedAll(sils: seq<Silence>, factor: real): (r: seq<Segment>)
    ensures |r| == |sils|
  {
    if |sils| == 0 then [] else SpedAll(sils[..|sils| - 1], factor) + [Segment(sils[|sils| - 1].start, sils[|sils| - 1].end, factor)]
  }

  /** The segments played at normal speed, in order. */
  function NormalSpeed(segs: seq<Segment>): seq<Segment> {
    if |segs| == 0 then []
    else NormalSpeed(segs[..|segs| - 1]) + (if segs[|segs| - 1].speed == 1.0 then [segs[|segs| - 1]] else [])
  }

  /** The segments played at another speed, in order. */
  function Retimed(segs: seq<Segment>): seq<Segment> {
    if |segs| == 0 then []
    else Retimed(segs[..|segs| - 1]) + (if segs[|segs| - 1].speed != 1.0 then [segs[|segs| - 1]] else [])
  }

  lemma FiltersAppend(a: seq<Segment>, x: Segment)
    ensures NormalSpeed(a + [x]) == NormalSpeed(a) + (if x.speed == 1.0 then [x] else [])
    ensures Retimed(a + [x]) == Retimed(a) + (if x.speed != 1.0 then [x] else [])
  {
    assert (a + [x])[..|a|] == a;
  }

  /** Speed mode walks the silences exactly as remove mode does: the cursor
      agrees, and it emits one segment per silence besides remove mode's gaps. */
  lemma {:induction false} SpeedScanFollowsRemove(sils: seq<Silence>, factor: real)
    ensures SpeedScan(sils, factor).lastEnd == RemoveScan(sils).lastEnd
    ensures |SpeedScan(sils, factor).segments| == |sils| + |RemoveScan(sils).kept|
    decreases |sils|
  {
    if |sils| > 0 {
      SpeedScanFollowsRemove(sils[..|sils| - 1], factor);
    }
  }

  /** While walking, the normal-speed segments are remove mode's kept spans. */
  lemma {:induction false} SpeedScanKeeps(sils: seq<Silence>, factor: real)
    requires factor != 1.0
    ensures NormalSpeed(SpeedScan(sils, factor).segments) == KeptAll(RemoveScan(sils).kept)
    decreases |sils|
  {
    if |sils| > 0 {
      var p := sils[..|sils| - 1];
      var s := sils[|sils| - 1];
      SpeedScanKeeps(p, factor);
      SpeedScanFollowsRemove(p, factor);
      var st := SpeedScan(p, factor);
      var rt := RemoveScan(p);
      var sped := Segment(s.start, s.end, factor);
      if Gt(s.start, st.lastEnd) {
        var gap := Segment(st.lastEnd, s.start, 1.0);
        FiltersAppend(st.segments, gap);
        FiltersAppend(st.segments + [gap], sped);
        assert AsKept(Span(rt.lastEnd.v, s.start.v)) == gap;
        assert (rt.kept + [Span(rt.lastEnd.v, s.start.v)])[..|rt.kept|] == rt.kept;
      } else {
        FiltersAppend(st.segments, sped);
      }
    }
  }

  /** While walking, the other segments are the silences at the factor. */
  lemma {:induction false} SpeedScanRetimes(sils: seq<Silence>, factor: real)
    requires factor != 1.0
    ensures Retimed(SpeedScan(sils, factor).segments) == SpedAll(sils, factor)
    decreases |sils|
  {
    if |sils| > 0 {
      var p := sils[..|sils| - 1];
      var s := sils[|sils| - 1];
      SpeedScanRetimes(p, factor);
      var st := SpeedScan(p, factor);
      var sped := Segment(s.start, s.end, factor);
      if Gt(s.start, st.lastEnd) {
        var gap := Segment(st.lastEnd, s.start, 1.0);
        FiltersAppend(st.segments, gap);
        FiltersAppend(st.segments + [gap], sped);
      } else {
        FiltersAppend(st.segments, sped);
      }
    }
  }

  /** The segments with every retimed one played at `factor` instead. */
  function Respeed(segs: seq<Segment>, factor: real): (r: seq<Segment>)
    ensures |r| == |segs|
  {
    seq(|segs|, i requires 0 <= i < |segs| => if segs[i].speed == 1.0 then segs[i] else segs[i].(speed := factor))
  }

  lemma RespeedSnoc(segs: seq<Segment>, x: Segment, factor: real)
    ensures Respeed(segs + [x], factor) == Respeed(segs, factor) + Respeed([x], factor)
  {
  }

  /** The walk at any factor is the walk at factor 2 with the sped-up
      segments retimed to that factor: the cursor does not depend on it. */
  lemma {:induction false} SpeedScanRespeed(sils: seq<Silence>, factor: real)
    ensures SpeedScan(sils, factor).lastEnd == SpeedScan(sils, 2.0).lastEnd
    ensures SpeedScan(sils, factor).segments == Respeed(SpeedScan(sils, 2.0).segments, factor)
    decreases |sils|
  {
    if |sils| > 0 {
      var p := sils[..|sils| - 1];
      var s := sils[|sils| - 1];
      SpeedScanRespeed(p, factor);
      var st := SpeedScan(p, 2.0);
      var sped := Segment(s.start, s.end, 2.0);
      assert Respeed([sped], factor) == [Segment(s.start, s.end, factor)];
      if Gt(s.start, st.lastEnd) {
        var gap := Segment(st.lastEnd, s.start, 1.0);
        RespeedSnoc(st.segments, gap, factor);
        RespeedSnoc(st.segments + [gap], sped, factor);
        assert Respeed([gap], factor) == [gap];
      } else {
        RespeedSnoc(st.segments, sped, factor);
      }
    }
  }

  /** Speed mode at any factor, 1 included, is its plan at factor 2 with each
      sped-up segment played at that factor instead: each silence still
      becomes one segment, in input order, between the same normal-speed
      spans (see `SpeedInterleavesRemove`). */
  lemma SpeedSegmentsRespeed(sils: seq<Silence>, duration: Num, factor: real)
    ensures SpeedSegments(sils, duration, factor) == Respeed(SpeedSegments(sils, duration, 2.0), factor)
  {
    SpeedScanRespeed(sils, factor);
    var st := SpeedScan(sils, 2.0);
    if Lt(st.lastEnd, duration) {
      var tail := Segment(st.lastEnd, duration, 1.0);
      RespeedSnoc(st.segments, tail, factor);
      assert Respeed([tail], factor) == [tail];
    }
  }

  /** Speed mode emits every silence, sped up and in input order, and between
      them exactly the spans remove mode keeps, at normal speed. */
  lemma SpeedInterleavesRemove(sils: seq<Silence>, duration: Num, factor: real)
    requires factor != 1.0
    ensures NormalSpeed(SpeedSegments(sils, duration, factor)) == KeptAll(RemoveSegments(sils, duration))
    ensures Retimed(SpeedSegments(sils, duration, factor)) == SpedAll(sils, factor)
  {
    SpeedScanFollowsRemove(sils, factor);
    SpeedScanKeeps(sils, factor);
    SpeedScanRetimes(sils, factor);
    var st := SpeedScan(sils, factor);
    var rt := RemoveScan(sils);
    if Lt(st.lastEnd, duration) {
      var tail := Segment(st.lastEnd, duration, 1.0);
      FiltersAppend(st.segments, tail);
      assert AsKept(Span(rt.lastEnd.v, duration.v)) == tail;
      assert (rt.kept + [Span(rt.lastEnd.v, duration.v)])[..|rt.kept|] == rt.kept;
    }
  }

  /** Speed mode has one segment per silence plus remove mode's spans, so
      between n and 2n + 1 segments for n silences, and never none when there
      is a silence. */
  lemma SpeedSegmentCount(sils: seq<Silence>, duration: Num, factor: real)
    ensures |SpeedSegments(sils, duration, factor)| == |sils| + |RemoveSegments(sils, duration)|
    ensures |sils| <= |SpeedSegments(sils, duration, factor)| <= 2 * |sils| + 1
  {
    SpeedScanFollowsRemove(sils, factor);
    RemoveSegmentsPositive(sils, duration);
  }

  // ---------------------------------------------------------------------------
  // Tiling of [0, duration] for a well-formed detection

  /** Silences as a detector produces them: finite, of positive length, in
      order without overlap, inside [0, duration]. */
  predicate WellFormed(sils: seq<Silence>, duration: Num) {
    && duration.Finite?
    && duration.v >= 0.0
    && (forall i :: 0 <= i < |sils| ==>
          sils[i].start.Finite? && sils[i].end.Finite? && 0.0 <= sils[i].start.v < sils[i].end.v <= duration.v)
    && (forall i :: 0 <= i < |sils| - 1 ==> sils[i].end.v <= sils[i + 1].start.v)
  }

  /** The instant `t` lies in one of the spans. */
  predicate InSpans(spans: seq<Span>, t: real) {
    |spans| > 0 && (InSpans(spans[..|spans| - 1], t) || spans[|spans| - 1].start <= t < spans[|spans| - 1].end)
  }

  /** The instant `t` lies in one of the silences. */
  predicate InSilences(sils: seq<Silence>, t: real) {
    |sils| > 0 && (InSilences(sils[..|sils| - 1], t) || Within(sils[|sils| - 1], t))
  }

  /** The instant `t` lies in the silence `[start, end)`. */
  predicate Within(s: Silence, t: real) {
    s.start.Finite? && s.end.Finite? && s.start.v <= t < s.end.v
  }

  function SpanLength(spans: seq<Span>): real {
    if |spans| == 0 then 0.0 else SpanLength(spans[..|spans| - 1]) + (spans[|spans| - 1].end - spans[|spans| - 1].start)
  }

  function SilenceLength(sils: seq<Silence>): real {
    if |sils| == 0 then 0.0
    else
      var s := sils[|sils| - 1];
      SilenceLength(sils[..|sils| - 1]) + (if s.start.Finite? && s.end.Finite? then s.end.v - s.start.v else 0.0)
  }

  /** Spans in ascending order with room between each two. */
  predicate Ascending(spans: seq<Span>) {
    forall k :: 0 <= k < |spans| - 1 ==> spans[k].end < spans[k + 1].start
  }

  /** The cursor after the silences is the end of the last one. */
  lemma RemoveCursor(sils: seq<Silence>)
    ensures RemoveScan(sils).lastEnd == (if |sils| == 0 then Finite(0.0) else sils[|sils| - 1].end)
  {
  }

  /** In a well-formed detection each silence starts at or after the cursor
      left by the ones before it. */
  lemma CursorBeforeNext(sils: seq<Silence>, duration: Num)
    requires WellFormed(sils, duration) && |sils| > 0
    ensures RemoveScan(sils[..|sils| - 1]).lastEnd.Finite?
    ensures 0.0 <= RemoveScan(sils[..|sils| - 1]).lastEnd.v <= sils[|sils| - 1].start.v
  {
    var p := sils[..|sils| - 1];
    RemoveCursor(p);
    if |p| > 0 {
      assert p[|p| - 1] == sils[|sils| - 2];
    }
  }

  lemma {:induction false} SilencesBeforeCursor(sils: seq<Silence>, duration: Num, t: real)
    requires WellFormed(sils, duration)
    requires InSilences(sils, t)
    ensures RemoveScan(sils).lastEnd.Finite? && 0.0 <= t < RemoveScan(sils).lastEnd.v
    decreases |sils|
  {
    var p := sils[..|sils| - 1];
    RemoveCursor(sils);
    if InSilences(p, t) {
      assert WellFormed(p, duration);
      SilencesBeforeCursor(p, duration, t);
      CursorBeforeNext(sils, duration);
    }
  }

  lemma InSpansAppend(spans: seq<Span>, x: Span, t: real)
    ensures InSpans(spans + [x], t) <==> InSpans(spans, t) || x.start <= t < x.end
  {
    assert (spans + [x])[..|spans|] == spans;
  }

  /** The kept spans so far are the instants before the cursor that no silence covers. */
  lemma {:induction false} RemoveScanCovers(sils: seq<Silence>, duration: Num, t: real)
    requires WellFormed(sils, duration)
    ensures RemoveScan(sils).lastEnd.Finite?
    ensures InSpans(RemoveScan(sils).kept, t) <==> 0.0 <= t < RemoveScan(sils).lastEnd.v && !InSilences(sils, t)
    decreases |sils|
  {
    RemoveCursor(sils);
    if |sils| > 0 {
      var p := sils[..|sils| - 1];
      var s := sils[|sils| - 1];
      assert WellFormed(p, duration);
      RemoveScanCovers(p, duration, t);
      CursorBeforeNext(sils, duration);
      var st := RemoveScan(p);
      if InSilences(p, t) {
        SilencesBeforeCursor(p, duration, t);
      }
      if Gt(s.start, st.lastEnd) {
        InSpansAppend(st.kept, Span(st.lastEnd.v, s.start.v), t);
      }
    }
  }

  /** The kept spans so far ascend and end before the cursor. */
  lemma {:induction false} RemoveScanAscends(sils: seq<Silence>, duration: Num)
    requires WellFormed(sils, duration)
    ensures Ascending(RemoveScan(sils).kept)
    ensures |RemoveScan(sils).kept| > 0 ==> RemoveScan(sils).lastEnd.Finite? && RemoveScan(sils).kept[|RemoveScan(sils).kept| - 1].end < RemoveScan(sils).lastEnd.v
    decreases |sils|
  {
    RemoveCursor(sils);
    if |sils| > 0 {
      var p := sils[..|sils| - 1];
      assert WellFormed(p, duration);
      RemoveScanAscends(p, duration);
      CursorBeforeNext(sils, duration);
    }
  }

  /** The kept length so far is the cursor minus the silences' lengths. */
  lemma {:induction false} RemoveScanLength(sils: seq<Silence>, duration: Num)
    requires WellFormed(sils, duration)
    ensures RemoveScan(sils).lastEnd.Finite?
    ensures SpanLength(RemoveScan(sils).kept) == RemoveScan(sils).lastEnd.v - SilenceLength(sils)
    decreases |sils|
  {
    RemoveCursor(sils);
    if |sils| > 0 {
      var p := sils[..|sils| - 1];
      var s := sils[|sils| - 1];
      assert WellFormed(p, duration);
      RemoveScanLength(p, duration);
      CursorBeforeNext(sils, duration);
      var st := RemoveScan(p);
      if Gt(s.start, st.lastEnd) {
        assert (st.kept + [Span(st.lastEnd.v, s.start.v)])[..|st.kept|] == st.kept;
      }
    }
  }

  /** For a well-formed detection, the kept spans and the silences together
      cover [0, duration] without overlap: an instant of [0, duration) is kept
      exactly when no silence covers it, no kept instant lies outside
      [0, duration), the spans are in ascending order with room between each
      two, and the kept length is the duration minus the silences' lengths. */
  lemma RemoveTiling(sils: seq<Silence>, duration: Num)
    requires WellFormed(sils, duration)
    ensures duration.Finite?
    ensures forall t :: 0.0 <= t < duration.v ==> (InSpans(RemoveSegments(sils, duration), t) <==> !InSilences(sils, t))
    ensures forall t :: InSpans(RemoveSegments(sils, duration), t) ==> 0.0 <= t < duration.v
    ensures Ascending(RemoveSegments(sils, duration))
    ensures SpanLength(RemoveSegments(sils, duration)) == duration.v - SilenceLength(sils)
  {
    RemoveCursor(sils);
    RemoveScanAscends(sils, duration);
    RemoveScanLength(sils, duration);
    var st := RemoveScan(sils);
    var segs := RemoveSegments(sils, duration);
    assert st.lastEnd.v <= duration.v;
    var tail := Span(st.lastEnd.v, duration.v);
    if Lt(st.lastEnd, duration) {
      assert (st.kept + [tail])[..|st.kept|] == st.kept;
    }
    forall t ensures InSpans(segs, t) <==> 0.0 <= t < duration.v && !InSilences(sils, t) {
      RemoveScanCovers(sils, duration, t);
      if InSilences(sils, t) {
        SilencesBeforeCursor(sils, duration, t);
      }
      if Lt(st.lastEnd, duration) {
        InSpansAppend(st.kept, tail, t);
      }
    }
  }

  // ---------------------------------------------------------------------------
  // Contiguity of speed mode for a well-formed detection

  function SegmentLength(segs: seq<Segment>): real {
    if |segs| == 0 then 0.0
    else
      var g := segs[|segs| - 1];
      SegmentLength(segs[..|segs| - 1]) + (if g.start.Finite? && g.end.Finite? then g.end.v - g.start.v else 0.0)
  }

  /** Consecutive segments meet, every segment is finite and of positive
      length, and the first starts at 0. */
  predicate Contiguous(segs: seq<Segment>) {
    && (forall k :: 0 <= k < |segs| ==>
          segs[k].start.Finite? && segs[k].end.Finite? && segs[k].start.v < segs[k].end.v)
    && (forall k :: 0 <= k < |segs| - 1 ==> segs[k].end == segs[k + 1].start)
    && (|segs| > 0 ==> segs[0].start == Finite(0.0))
  }

  predicate SpeedCovers(segs: seq<Segment>, upTo: Num) {
    && Contiguous(segs)
    && upTo.Finite?
    && (|segs| > 0 ==> segs[|segs| - 1].end == upTo)
    && (|segs| == 0 ==> upTo == Finite(0.0))
    && SegmentLength(segs) == upTo.v
  }

  lemma ExtendCover(segs: seq<Segment>, upTo: Num, x: Segment)
    requires SpeedCovers(segs, upTo)
    requires x.start == upTo && x.end.Finite? && upTo.v < x.end.v
    ensures SpeedCovers(segs + [x], x.end)
  {
    var r := segs + [x];
    assert r[..|segs|] == segs;
    forall k | 0 <= k < |r| - 1 ensures r[k].end == r[k + 1].start {
      if k == |segs| - 1 {
        assert r[k] == segs[|segs| - 1];
      } else {
        assert r[k] == segs[k] && r[k + 1] == segs[k + 1];
      }
    }
  }

  lemma {:induction false} SpeedScanCovers(sils: seq<Silence>, duration: Num, factor: real)
    requires WellFormed(sils, duration)
    ensures SpeedCovers(SpeedScan(sils, factor).segments, SpeedScan(sils, factor).lastEnd)
    ensures |sils| > 0 ==> SpeedScan(sils, factor).lastEnd == sils[|sils| - 1].end
    decreases |sils|
  {
    if |sils| > 0 {
      var p := sils[..|sils| - 1];
      var s := sils[|sils| - 1];
      assert WellFormed(p, duration);
      SpeedScanCovers(p, duration, factor);
      var st := SpeedScan(p, factor);
      assert s.start.v >= st.lastEnd.v by {
        if |p| > 0 {
          assert p[|p| - 1] == sils[|sils| - 2];
        }
      }
      if Gt(s.start, st.lastEnd) {
        var gap := Segment(st.lastEnd, s.start, 1.0);
        ExtendCover(st.segments, st.lastEnd, gap);
        ExtendCover(st.segments + [gap], s.start, Segment(s.start, s.end, factor));
      } else {
        assert s.start == st.lastEnd;
        ExtendCover(st.segments, st.lastEnd, Segment(s.start, s.end, factor));
      }
    }
  }

  /** For a well-formed detection with at least one silence, speed mode covers
      [0, duration] with no gap: each segment ends where the next begins, the
      first begins at 0, the last ends at the duration, and the lengths add up
      to the duration. */
  lemma SpeedContiguity(sils: seq<Silence>, duration: Num, factor: real)
    requires WellFormed(sils, duration)
    ensures SpeedCovers(SpeedSegments(sils, duration, factor), duration)
  {
    SpeedScanCovers(sils, duration, factor);
    var st := SpeedScan(sils, factor);
    if Lt(st.lastEnd, duration) {
      ExtendCover(st.segments, st.lastEnd, Segment(st.lastEnd, duration, 1.0));
    } else {
      assert st.lastEnd == duration;
    }
  }

  // ---------------------------------------------------------------------------
  // Worked examples

  /** Two silences inside a ten-second clip leave three kept spans. */
  lemma RemoveExample()
    ensures RemoveSegments([Silence(Finite(1.0), Finite(2.0)), Silence(Finite(4.0), Finite(5.0))], Finite(10.0))
         == [Span(0.0, 1.0), Span(2.0, 4.0), Span(5.0, 10.0)]
  {
    var a := Silence(Finite(1.0), Finite(2.0));
    var b := Silence(Finite(4.0), Finite(5.0));
    assert [a, b][..1] == [a];
    assert [a][..0] == [];
    assert RemoveScan([a]) == RemoveState([Span(0.0, 1.0)], Finite(2.0));
    assert RemoveScan([a, b]) == RemoveState([Span(0.0, 1.0), Span(2.0, 4.0)], Finite(5.0));
  }

  /** A clip that is silent from start to end keeps nothing. */
  lemma AllSilentExample(d: real)
    requires d > 0.0
    ensures RemoveSegments([Silence(Finite(0.0), Finite(d))], Finite(d)) == []
  {
    assert [Silence(Finite(0.0), Finite(d))][..0] == [];
    assert RemoveScan([Silence(Finite(0.0), Finite(d))]) == RemoveState([], Finite(d));
  }

  /** Without sorted, non-overlapping silences the tiling fails: a silence
      nested in an earlier one moves the cursor back to its own end, and the
      tail then keeps part of the first silence. */
  lemma NestedSilencesRewind()
    ensures RemoveSegments([Silence(Finite(1.0), Finite(5.0)), Silence(Finite(3.0), Finite(4.0))], Finite(10.0))
         == [Span(0.0, 1.0), Span(4.0, 10.0)]
  {
    var a := Silence(Finite(1.0), Finite(5.0));
    var b := Silence(Finite(3.0), Finite(4.0));
    assert [a, b][..1] == [a];
    assert [a][..0] == [];
    assert RemoveScan([a]) == RemoveState([Span(0.0, 1.0)], Finite(5.0));
    assert RemoveScan([a, b]) == RemoveState([Span(0.0, 1.0)], Finite(4.0));
  }

  /** The output duration of a speed plan: each segment's length divided by its speed. */
  function PlayedLength(segs: seq<Segment>): real
    requires forall k :: 0 <= k < |segs| ==> segs[k].speed != 0.0
  {
    if |segs| == 0 then 0.0
    else
      var g := segs[|segs| - 1];
      PlayedLength(segs[..|segs| - 1]) + (if g.start.Finite? && g.end.Finite? then (g.end.v - g.start.v) / g.speed else 0.0)
  }

  lemma PlayedLengthSnoc(segs: seq<Segment>, g: Segment)
    requires forall k :: 0 <= k < |segs| ==> segs[k].speed != 0.0
    requires g.speed != 0.0 && g.start.Finite? && g.end.Finite?
    ensures PlayedLength(segs + [g]) == PlayedLength(segs) + (g.end.v - g.start.v) / g.speed
  {
    assert (segs + [g])[..|segs|] == segs;
  }

  /** One silence in a five-second clip at double speed gives three segments. */
  lemma SpeedExample()
    ensures SpeedSegments([Silence(Finite(1.0), Finite(2.0))], Finite(5.0), 2.0)
         == [Segment(Finite(0.0), Finite(1.0), 1.0), Segment(Finite(1.0), Finite(2.0), 2.0), Segment(Finite(2.0), Finite(5.0), 1.0)]
  {
    var s := Silence(Finite(1.0), Finite(2.0));
    assert [s][..0] == [];
    assert SpeedScan([s], 2.0) == SpeedState([Segment(Finite(0.0), Finite(1.0), 1.0), Segment(Finite(1.0), Finite(2.0), 2.0)], Finite(2.0));
  }

  /** Those three segments play for 4.5 seconds instead of 5. */
  lemma SpeedExamplePlayedLength()
    ensures PlayedLength([Segment(Finite(0.0), Finite(1.0), 1.0), Segment(Finite(1.0), Finite(2.0), 2.0), Segment(Finite(2.0), Finite(5.0), 1.0)]) == 4.5
  {
    var x := Segment(Finite(0.0), Finite(1.0), 1.0);
    var y := Segment(Finite(1.0), Finite(2.0), 2.0);
    var z := Segment(Finite(2.0), Finite(5.0), 1.0);
    PlayedLengthSnoc([], x);
    assert [] + [x] == [x];
    PlayedLengthSnoc([x], y);
    assert [x] + [y] == [x, y];
    PlayedLengthSnoc([x, y], z);
    assert [x, y] + [z] == [x, y, z];
  }
}
