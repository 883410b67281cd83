/** The `JumpCutter` object: its three settings with their defaults, the two
    filter builders, and `process`, which checks its arguments, plans the edit
    from the detection log and chooses between running a filter graph and
    copying the input unchanged. The media engine is not modelled: the log
    text, the probed duration and number formatting are parameters. */
module Cutter {
  import opened Numbers
  import opened SilenceLog
  import opened SegmentPlanner
  import opened FilterGraph

  datatype Result<T> = Ok(value: T) | Err(message: string)

  /** The constructor's options object; an absent field is `None`. */
  datatype Options = Options(silenceThreshold: Option<Num>, minSilenceDuration: Option<Num>, speedFactor: Option<Num>)

  const DefaultThreshold: real := -30.0
  const DefaultMinSilence: real := 0.5
  const DefaultSpeedFactor: real := 2.0

  /** `value || fallback` for a number option: absent, 0 and NaN fall back. */
  function OrDefault(value: Option<Num>, fallback: real): (r: real)
    ensures value.Some? && Truthy(value.value) ==> r == value.value.v
    ensures !(value.Some? && Truthy(value.value)) ==> r == fallback
    ensures fallback != 0.0 ==> r != 0.0
  {
    if value.Some? && Truthy(value.value) then value.value.v else fallback
  }

  /** The arguments of `process`; an absent field is `None`. */
  datatype Request = Request(input: Option<string>, output: Option<string>, mode: Option<string>)

  datatype Mode = Remove | Speed

  const PathsRequired: string := "Input and output paths are required"
  const InvalidMode: string := "Mode must be either \"remove\" or \"speed\""

  /** A path argument that is present and not the empty string. */
  predicate Given(path: Option<string>) {
    path.Some? && |path.value| > 0
  }

  /** The mode after the `mode = "remove"` default. */
  function ModeName(req: Request): string {
    if req.mode.Some? then req.mode.value else "remove"
  }

  /** The checks at the top of `process`: paths first, then the mode. */
  function Validate(req: Request): (r: Result<Mode>)
    ensures r == Err(PathsRequired) <==> !Given(req.input) || !Given(req.output)
    ensures r == Err(InvalidMode) <==> Given(req.input) && Given(req.output) && ModeName(req) != "remove" && ModeName(req) != "speed"
    ensures r == Ok(Remove) <==> Given(req.input) && Given(req.output) && ModeName(req) == "remove"
    ensures r == Ok(Speed) <==> Given(req.input) && Given(req.output) && ModeName(req) == "speed"
  {
    if !Given(req.input) || !Given(req.output) then Err(PathsRequired)
    else if ModeName(req) == "remove" then Ok(Remove)
    else if ModeName(req) == "speed" then Ok(Speed)
    else Err(InvalidMode)
  }

  /** What `_createRemoveFilter` returns; `None` stands for `null`. */
  function RemoveFilter(sils: seq<Silence>, duration: Num, fmt: Num -> string): Option<string> {
    if |sils| == 0 then None
    else
      var segs := RemoveSegments(sils, duration);
      if |segs| == 0 then None else Some(RemoveGraph(segs, fmt))
  }

  /** What `_createSpeedFilter` returns; `None` stands for `null`. */
  function SpeedFilter(sils: seq<Silence>, duration: Num, factor: real, fmt: Num -> string): Option<string> {
    if |sils| == 0 then None
    else
      var segs := SpeedSegments(sils, duration, factor);
      if |segs| == 0 then None else Some(SpeedGraph(segs, fmt))
  }

  /** What the engine is asked to do: run a filter graph, or copy the input. */
  datatype Action = Copy | Run(graph: string)

  function ActionFor(filter: Option<string>): Action {
    if filter.Some? then Run(filter.value) else Copy
  }

  /** The outcome of `process` for a request, a detection log, a probed
      duration and a speed factor. */
  function Plan(req: Request, log: string, duration: Num, factor: real, fmt: Num -> string): Result<Action> {
    match Validate(req)
    case Err(msg) => Err(msg)
    case Ok(Remove) => Ok(ActionFor(RemoveFilter(Parse(log), duration, fmt)))
    case Ok(Speed) => Ok(ActionFor(SpeedFilter(Parse(log), duration, factor, fmt)))
  }

  class JumpCutter {
    const silenceThreshold: real
    const minSilenceDuration: real
    const speedFactor: real

    /** Each setting takes the option when it is a non-zero number and the
        default otherwise, so no setting is ever 0. */
    constructor (options: Options)
      ensures silenceThreshold == OrDefault(options.silenceThreshold, DefaultThreshold)
      ensures minSilenceDuration == OrDefault(options.minSilenceDuration, DefaultMinSilence)
      ensures speedFactor == OrDefault(options.speedFactor, DefaultSpeedFactor)
      ensures silenceThreshold != 0.0 && minSilenceDuration != 0.0 && speedFactor != 0.0
    {
      silenceThreshold := OrDefault(options.silenceThreshold, DefaultThreshold);
      minSilenceDuration := OrDefault(options.minSilenceDuration, DefaultMinSilence);
      speedFactor := OrDefault(options.speedFactor, DefaultSpeedFactor);
    }

    method CreateRemoveFilter(silences: seq<Silence>, duration: Num, fmt: Num -> string) returns (filter: Option<string>)
      ensures filter == RemoveFilter(silences, duration, fmt)
    {
      if |silences| == 0 {
        return None;
      }
      var segments := BuildRemoveSegments(silences, duration);
      if |segments| == 0 {
        return None;
      }
      return Some(RemoveGraph(segments, fmt));
    }

    method CreateSpeedFilter(silences: seq<Silence>, duration: Num, fmt: Num -> string) returns (filter: Option<string>)
      ensures filter == SpeedFilter(silences, duration, speedFactor, fmt)
    {
      if |silences| == 0 {
        return None;
      }
      var segments := BuildSpeedSegments(silences, duration, speedFactor);
      if |segments| == 0 {
        return None;
      }
      return Some(SpeedGraph(segments, fmt));
    }

    /** `process`: validate, parse the detection log, build the filter of the
        chosen mode and run it, or copy when there is none. */
    method Process(req: Request, log: string, duration: Num, fmt: Num -> string) returns (r: Result<Action>)
      ensures r == Plan(req, log, duration, speedFactor, fmt)
    {
      var mode := Validate(req);
      if mode.Err? {
        return Err(mode.message);
      }
      var silences := ParseSilenceInfo(log);
      var filter;
      if mode.value == Remove {
        filter := CreateRemoveFilter(silences, duration, fmt);
      } else {
        filter := CreateSpeedFilter(silences, duration, fmt);
      }
      return Ok(ActionFor(filter));
    }
  }

  // ---------------------------------------------------------------------------
  // Properties

  /** The defaults and the custom settings the test suite checks. */
  lemma SettingsExamples()
    ensures OrDefault(None, DefaultThreshold) == -30.0
    ensures OrDefault(None, DefaultMinSilence) == 0.5
    ensures OrDefault(None, DefaultSpeedFactor) == 2.0
    ensures OrDefault(Some(Finite(-40.0)), DefaultThreshold) == -40.0
    ensures OrDefault(Some(Finite(1.0)), DefaultMinSilence) == 1.0
    ensures OrDefault(Some(Finite(3.0)), DefaultSpeedFactor) == 3.0
    ensures OrDefault(Some(Finite(0.0)), DefaultThreshold) == -30.0
    ensures OrDefault(Some(NaN), DefaultSpeedFactor) == 2.0
  {
  }

  /** The two rejections the test suite checks: no paths at all, and an
      unknown mode. A missing path is reported even when the mode is also
      wrong. */
  lemma ValidationExamples()
    ensures Validate(Request(None, None, None)) == Err(PathsRequired)
    ensures Validate(Request(Some("test.mp4"), Some("out.mp4"), Some("invalid"))) == Err(InvalidMode)
    ensures Validate(Request(Some("test.mp4"), None, Some("invalid"))) == Err(PathsRequired)
    ensures Validate(Request(Some("test.mp4"), Some("out.mp4"), None)) == Ok(Remove)
  {
  }

  /** A rejected request is rejected with the same message whatever the
      detection would have found: validation comes before detection. */
  lemma RejectedBeforeDetection(req: Request, log1: string, d1: Num, log2: string, d2: Num, factor: real, fmt: Num -> string)
    requires Validate(req).Err?
    ensures Plan(req, log1, d1, factor, fmt) == Plan(req, log2, d2, factor, fmt) == Err(Validate(req).message)
  {
  }

  lemma {:induction false} PositiveSpansHaveLength(spans: seq<Span>)
    requires Positive(spans)
    ensures SpanLength(spans) >= 0.0
    ensures |spans| > 0 ==> SpanLength(spans) > 0.0
    decreases |spans|
  {
    if |spans| > 0 {
      var p := spans[..|spans| - 1];
      assert Positive(p) by {
        forall k | 0 <= k < |p| ensures p[k].start < p[k].end {
          assert p[k] == spans[k];
        }
      }
      PositiveSpansHaveLength(p);
    }
  }

  /** Remove mode copies the input exactly when there is no silence or, for a
      well-formed detection, when the silences fill the whole clip. */
  lemma RemoveCopiesIff(sils: seq<Silence>, duration: Num, fmt: Num -> string)
    requires WellFormed(sils, duration)
    ensures RemoveFilter(sils, duration, fmt).None? <==> |sils| == 0 || SilenceLength(sils) == duration.v
  {
    RemoveTiling(sils, duration);
    RemoveSegmentsPositive(sils, duration);
    PositiveSpansHaveLength(RemoveSegments(sils, duration));
  }

  /** Speed mode copies the input exactly when there is no silence. */
  lemma SpeedCopiesIff(sils: seq<Silence>, duration: Num, factor: real, fmt: Num -> string)
    ensures SpeedFilter(sils, duration, factor, fmt).None? <==> |sils| == 0
  {
    SpeedSegmentCount(sils, duration, factor);
  }

  /** The detection log of the test suite, in remove mode on a ten-second
      clip: the three spans around the two silences are cut out and joined. */
  lemma TestLogRemovePlan(fmt: Num -> string)
    ensures Plan(Request(Some("test.mp4"), Some("out.mp4"), None), TestLog, Finite(10.0), 2.0, fmt)
         == Ok(Run(RemoveGraph([Span(0.0, 1.5), Span(2.5, 4.0), Span(5.0, 10.0)], fmt)))
  {
    TestLogParsed();
    TestLogSpans();
  }

  lemma TestLogSpans()
    ensures RemoveSegments([Silence(Finite(1.5), Finite(2.5)), Silence(Finite(4.0), Finite(5.0))], Finite(10.0))
         == [Span(0.0, 1.5), Span(2.5, 4.0), Span(5.0, 10.0)]
  {
    var a := Silence(Finite(1.5), Finite(2.5));
    var b := Silence(Finite(4.0), Finite(5.0));
    assert [a, b][..1] == [a];
    assert [a][..0] == [];
    assert RemoveScan([a]) == RemoveState([Span(0.0, 1.5)], Finite(2.5));
    assert RemoveScan([a, b]) == RemoveState([Span(0.0, 1.5), Span(2.5, 4.0)], Finite(5.0));
  }
}
