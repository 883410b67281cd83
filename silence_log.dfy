/** The reader of ffmpeg's `silencedetect` log (`_parseSilenceInfo`): the
    accumulated log text is split into lines, each line is classified by two
    regular expressions, and a single pending start is paired with the next
    end line. */
module SilenceLog {
  import opened Strings
  import opened Numbers

  const StartLabel: string := "silence_start: "
  const EndLabel: string := "silence_end: "

  /** A silence interval as the reader emits it; nothing checks that `start < end`. */
  datatype Silence = Silence(start: Num, end: Num)

  /** What one log line contributes. */
  datatype Event = Start(at: Num) | End(at: Num) | Other

  /** The pattern `<key>([\d.]+)` matches `line` at index `i`. */
  predicate MatchesAt(line: string, key: string, i: int) {
    0 <= i && i + |key| < |line| && line[i..i + |key|] == key && IsNumberChar(line[i + |key|])
  }

  /** The longest prefix of `s` made of characters of `[\d.]` (the greedy `+`). */
  function NumberRun(s: string): (r: string)
    ensures |r| <= |s| && r == s[..|r|]
    ensures IsNumberText(r)
    ensures |r| == |s| || !IsNumberChar(s[|r|])
    decreases |s|
  {
    if |s| == 0 || !IsNumberChar(s[0]) then "" else [s[0]] + NumberRun(s[1..])
  }

  /** The first capture group of `line.match(/<key>([\d.]+)/)`, scanning for the
      leftmost position where the whole pattern matches. */
  function Capture(line: string, key: string): Option<string>
    decreases |line|
  {
    if |line| <= |key| then None
    else if MatchesAt(line, key, 0) then Some(NumberRun(line[|key|..]))
    else Capture(line[1..], key)
  }

  lemma MatchShift(line: string, key: string, i: nat)
    requires |line| > 0
    ensures MatchesAt(line, key, i + 1) <==> MatchesAt(line[1..], key, i)
  {
    if i + 1 + |key| < |line| {
      assert line[1..][i..i + |key|] == line[i + 1..i + 1 + |key|];
      assert line[1..][i + |key|] == line[i + 1 + |key|];
    }
  }

  /** Capture follows the regular expression's semantics: it fails exactly when
      the pattern matches nowhere, and otherwise captures the greedy run of
      `[\d.]` after the leftmost match. */
  lemma {:induction false} CaptureIsLeftmostMatch(line: string, key: string)
    ensures Capture(line, key).None? <==> forall i :: !MatchesAt(line, key, i)
    ensures forall i :: MatchesAt(line, key, i) && (forall j :: 0 <= j < i ==> !MatchesAt(line, key, j))
                        ==> Capture(line, key) == Some(NumberRun(line[i + |key|..]))
    decreases |line|
  {
    if |line| <= |key| {
    } else if MatchesAt(line, key, 0) {
    } else {
      var tail := line[1..];
      CaptureIsLeftmostMatch(tail, key);
      forall i: nat ensures MatchesAt(line, key, i + 1) <==> MatchesAt(tail, key, i) {
        MatchShift(line, key, i);
      }
      forall i | MatchesAt(line, key, i) && (forall j :: 0 <= j < i ==> !MatchesAt(line, key, j))
        ensures Capture(line, key) == Some(NumberRun(line[i + |key|..]))
      {
        var k: nat := i - 1;
        assert MatchesAt(tail, key, k);
        forall j | 0 <= j < k ensures !MatchesAt(tail, key, j) {
          assert !MatchesAt(line, key, j + 1);
        }
        assert tail[k + |key|..] == line[i + |key|..];
      }
      if Capture(line, key).None? {
        forall i ensures !MatchesAt(line, key, i) {
          if i >= 1 {
            assert !MatchesAt(tail, key, i - 1);
          }
        }
      } else {
        var k :| MatchesAt(tail, key, k);
        assert MatchesAt(line, key, k + 1);
      }
    }
  }

  /** One log line: a start when `silence_start: ` is followed by a `[\d.]`
      character anywhere in it; otherwise an end under the same rule for
      `silence_end: `; otherwise nothing. A line matching both is a start. */
  function Classify(line: string): Event {
    match Capture(line, StartLabel)
    case Some(v) => Start(ParseDecimal(v))
    case None =>
      match Capture(line, EndLabel)
      case Some(v) => End(ParseDecimal(v))
      case None => Other
  }

  /** A line is a start exactly when the start pattern matches somewhere in
      it, and an end exactly when the end pattern matches and the start
      pattern does not. */
  lemma ClassifyMatches(line: string)
    ensures Classify(line).Start? <==> exists i :: MatchesAt(line, StartLabel, i)
    ensures Classify(line).End? <==> (forall i :: !MatchesAt(line, StartLabel, i)) && (exists i :: MatchesAt(line, EndLabel, i))
  {
    CaptureIsLeftmostMatch(line, StartLabel);
    CaptureIsLeftmostMatch(line, EndLabel);
  }

  /** The events of the lines, in order: event `i` is line `i` classified. */
  function Events(lines: seq<string>): (evs: seq<Event>)
    ensures |evs| == |lines|
  {
    seq(|lines|, i requires 0 <= i < |lines| => Classify(lines[i]))
  }

  /** The reader's state: intervals emitted so far and the start still waiting
      for its end (`currentSilence.start`). */
  datatype ParserState = ParserState(silences: seq<Silence>, pending: Option<Num>)

  const Initial: ParserState := ParserState([], None)

  /** A start (re)sets the pending start; an end with a pending start emits the
      pair and clears it; any other line, or an end with nothing pending, changes
      nothing. */
  function Step(st: ParserState, e: Event): ParserState {
    match e
    case Start(t) => ParserState(st.silences, Some(t))
    case End(t) =>
      if st.pending.Some? then ParserState(st.silences + [Silence(st.pending.value, t)], None) else st
    case Other => st
  }

  /** The state after reading `evs` from state `st`. */
  function FoldFrom(st: ParserState, evs: seq<Event>): ParserState {
    if |evs| == 0 then st else Step(FoldFrom(st, evs[..|evs| - 1]), evs[|evs| - 1])
  }

  function Fold(evs: seq<Event>): ParserState {
    FoldFrom(Initial, evs)
  }

  /** `_parseSilenceInfo(data)` as a function of the log text. */
  function Parse(data: string): seq<Silence> {
    Fold(Events(Split(data, '\n'))).silences
  }

  /** `_parseSilenceInfo`: a loop over the lines with a pending start. */
  method ParseSilenceInfo(data: string) returns (silences: seq<Silence>)
    ensures silences == Parse(data)
  {
    var lines := Split(data, '\n');
    silences := [];
    var pending: Option<Num> := None;
    var i := 0;
    while i < |lines|
      invariant 0 <= i <= |lines|
      invariant ParserState(silences, pending) == Fold(Events(lines[..i]))
    {
      var line := lines[i];
      ghost var before := ParserState(silences, pending);
      var startMatch := Capture(line, StartLabel);
      var endMatch := Capture(line, EndLabel);
      if startMatch.Some? {
        pending := Some(ParseDecimal(startMatch.value));
      } else if endMatch.Some? && pending.Some? {
        silences := silences + [Silence(pending.value, ParseDecimal(endMatch.value))];
        pending := None;
      }
      ParseStep(lines, i, before);
      i := i + 1;
    }
    assert lines[..|lines|] == lines;
  }

  /** One step of the fold is `_parseSilenceInfo`'s `if (startMatch) ... else if
      (endMatch && ...)` on the two captures of the line. */
  lemma LineStep(st: ParserState, line: string)
    ensures Step(st, Classify(line))
         == if Capture(line, StartLabel).Some? then ParserState(st.silences, Some(ParseDecimal(Capture(line, StartLabel).value)))
            else if Capture(line, EndLabel).Some? && st.pending.Some? then
              ParserState(st.silences + [Silence(st.pending.value, ParseDecimal(Capture(line, EndLabel).value))], None)
            else st
  {
  }

  /** Reading line `i` takes the state after the first `i` lines to the state
      after the first `i + 1`. */
  lemma ParseStep(lines: seq<string>, i: nat, st: ParserState)
    requires i < |lines| && st == Fold(Events(lines[..i]))
    ensures Fold(Events(lines[..i + 1]))
         == if Capture(lines[i], StartLabel).Some? then ParserState(st.silences, Some(ParseDecimal(Capture(lines[i], StartLabel).value)))
            else if Capture(lines[i], EndLabel).Some? && st.pending.Some? then
              ParserState(st.silences + [Silence(st.pending.value, ParseDecimal(Capture(lines[i], EndLabel).value))], None)
            else st
  {
    LineStep(st, lines[i]);
    EventsSnoc(lines, i);
    FoldSnoc(Events(lines[..i]), Classify(lines[i]));
  }

  lemma EventsSnoc(lines: seq<string>, i: nat)
    requires i < |lines|
    ensures Events(lines[..i + 1]) == Events(lines[..i]) + [Classify(lines[i])]
  {
    assert forall k :: 0 <= k < i ==> lines[..i + 1][k] == lines[..i][k];
  }

  lemma FoldSnoc(evs: seq<Event>, e: Event)
    ensures Fold(evs + [e]) == Step(Fold(evs), e)
  {
    assert (evs + [e])[..|evs|] == evs;
  }

  // ---------------------------------------------------------------------------
  // Pairing laws

  lemma {:induction false} FoldAppend(st: ParserState, x: seq<Event>, y: seq<Event>)
    ensures FoldFrom(st, x + y) == FoldFrom(FoldFrom(st, x), y)
    decreases |y|
  {
    if |y| == 0 {
      assert x + y == x;
    } else {
      assert (x + y)[..|x + y| - 1] == x + y[..|y| - 1];
      FoldAppend(st, x, y[..|y| - 1]);
    }
  }

  lemma FoldPair(st: ParserState, a: Event, b: Event)
    ensures FoldFrom(st, [a, b]) == Step(Step(st, a), b)
  {
    assert [a, b][..1] == [a];
    assert [a][..0] == [];
    assert FoldFrom(st, [a]) == Step(st, a);
  }

  /** A line that is neither a start nor an end changes nothing. */
  lemma OtherIgnored(p: seq<Event>, q: seq<Event>)
    ensures Fold(p + [Other] + q) == Fold(p + q)
  {
    FoldAppend(Initial, p + [Other], q);
    FoldAppend(Initial, p, [Other]);
    FoldAppend(Initial, p, q);
    assert [Other][..0] == [];
  }

  /** An end line with no pending start is ignored. */
  lemma UnmatchedEndIgnored(p: seq<Event>, t: Num, q: seq<Event>)
    requires Fold(p).pending.None?
    ensures Fold(p + [End(t)] + q) == Fold(p + q)
  {
    FoldAppend(Initial, p + [End(t)], q);
    FoldAppend(Initial, p, [End(t)]);
    FoldAppend(Initial, p, q);
    assert [End(t)][..0] == [];
  }

  /** A second start before an end replaces the first. */
  lemma StartOverwrites(p: seq<Event>, a: Num, b: Num, q: seq<Event>)
    ensures Fold(p + [Start(a), Start(b)] + q) == Fold(p + [Start(b)] + q)
  {
    FoldAppend(Initial, p + [Start(a), Start(b)], q);
    FoldAppend(Initial, p, [Start(a), Start(b)]);
    FoldPair(Fold(p), Start(a), Start(b));
    FoldAppend(Initial, p + [Start(b)], q);
    FoldAppend(Initial, p, [Start(b)]);
    assert [Start(b)][..0] == [];
  }

  /** A start followed by an end emits exactly that interval, after the ones
      already emitted, and leaves nothing pending. */
  lemma PairEmitted(p: seq<Event>, a: Num, b: Num)
    ensures Fold(p + [Start(a), End(b)]) == ParserState(Fold(p).silences + [Silence(a, b)], None)
  {
    FoldAppend(Initial, p, [Start(a), End(b)]);
    FoldPair(Fold(p), Start(a), End(b));
  }

  predicate NoEnd(q: seq<Event>) {
    forall k :: 0 <= k < |q| ==> !q[k].End?
  }

  lemma {:induction false} NoEndKeepsSilences(st: ParserState, q: seq<Event>)
    requires NoEnd(q)
    ensures FoldFrom(st, q).silences == st.silences
    decreases |q|
  {
    if |q| > 0 {
      NoEndKeepsSilences(st, q[..|q| - 1]);
    }
  }

  /** A start that no end follows yields no interval. */
  lemma TrailingStartDropped(p: seq<Event>, a: Num, q: seq<Event>)
    requires NoEnd(q)
    ensures Fold(p + [Start(a)] + q).silences == Fold(p).silences
  {
    FoldAppend(Initial, p + [Start(a)], q);
    FoldAppend(Initial, p, [Start(a)]);
    assert [Start(a)][..0] == [];
    NoEndKeepsSilences(Fold(p + [Start(a)]), q);
  }

  // ---------------------------------------------------------------------------
  // Counting and provenance

  function Starts(evs: seq<Event>): nat {
    if |evs| == 0 then 0 else Starts(evs[..|evs| - 1]) + (if evs[|evs| - 1].Start? then 1 else 0)
  }

  function Ends(evs: seq<Event>): nat {
    if |evs| == 0 then 0 else Ends(evs[..|evs| - 1]) + (if evs[|evs| - 1].End? then 1 else 0)
  }

  /** Every interval uses up one start line and one end line, so there are at
      most as many intervals as there are of either. */
  lemma {:induction false} IntervalCountBounds(evs: seq<Event>)
    ensures |Fold(evs).silences| <= Ends(evs)
    ensures |Fold(evs).silences| + (if Fold(evs).pending.Some? then 1 else 0) <= Starts(evs)
    decreases |evs|
  {
    if |evs| > 0 {
      IntervalCountBounds(evs[..|evs| - 1]);
    }
  }

  /** Every emitted interval is made of a start value and a later end value
      read from the log; nothing is invented. */
  lemma {:induction false} IntervalsComeFromLog(evs: seq<Event>)
    ensures forall k :: 0 <= k < |Fold(evs).silences| ==>
      exists i, j :: 0 <= i < j < |evs| && evs[i] == Start(Fold(evs).silences[k].start) && evs[j] == End(Fold(evs).silences[k].end)
    ensures Fold(evs).pending.Some? ==> exists i :: 0 <= i < |evs| && evs[i] == Start(Fold(evs).pending.value)
    decreases |evs|
  {
    if |evs| > 0 {
      var n := |evs| - 1;
      var prev := evs[..n];
      IntervalsComeFromLog(prev);
      var st := Fold(prev);
      var cur := Fold(evs);
      assert cur == Step(st, evs[n]);
      forall k | 0 <= k < |cur.silences|
        ensures exists i, j :: 0 <= i < j < |evs| && evs[i] == Start(cur.silences[k].start) && evs[j] == End(cur.silences[k].end)
      {
        if k < |st.silences| {
          assert cur.silences[k] == st.silences[k];
          var i, j :| 0 <= i < j < |prev| && prev[i] == Start(st.silences[k].start) && prev[j] == End(st.silences[k].end);
          assert evs[i] == prev[i] && evs[j] == prev[j];
        } else {
          assert evs[n].End? && st.pending.Some?;
          assert cur.silences[k] == Silence(st.pending.value, evs[n].at);
          var i :| 0 <= i < |prev| && prev[i] == Start(st.pending.value);
          assert evs[i] == prev[i];
        }
      }
      if cur.pending.Some? {
        if evs[n].Start? {
          assert evs[n] == Start(cur.pending.value);
        } else {
          assert cur.pending == st.pending;
          var i :| 0 <= i < |prev| && prev[i] == Start(st.pending.value);
          assert evs[i] == prev[i];
        }
      }
    } else {
      assert Fold(evs) == Initial;
    }
  }

  // ---------------------------------------------------------------------------
  // Recognition

  /** The pattern cannot match at `i` when one character of the label differs. */
  lemma Mismatch(line: string, key: string, i: int, j: int)
    requires 0 <= i && 0 <= j < |key|
    requires i + |key| < |line| ==> line[i + j] != key[j]
    ensures !MatchesAt(line, key, i)
  {
    if i + |key| < |line| {
      assert line[i..i + |key|][j] == line[i + j];
    }
  }

  /** A start label followed by a minus sign and a `[\d.]` run matches neither
      pattern. */
  lemma {:induction false} NoMatchBeforeMinus(v: string)
    requires IsNumberText(v)
    ensures Capture(StartLabel + "-" + v, StartLabel).None?
    ensures Capture(StartLabel + "-" + v, EndLabel).None?
  {
    var line := StartLabel + "-" + v;
    assert line[9] == 't' && line[15] == '-';
    forall i ensures !MatchesAt(line, StartLabel, i) {
      if i == 8 {
        Mismatch(line, StartLabel, i, 1);
      } else if 0 < i < 15 {
        assert line[i] == StartLabel[i];
        Mismatch(line, StartLabel, i, 0);
      } else if i >= 16 {
        if i + |StartLabel| < |line| {
          assert line[i] == v[i - 16];
        }
        Mismatch(line, StartLabel, i, 0);
      } else if i == 15 {
        Mismatch(line, StartLabel, i, 0);
      }
    }
    forall i ensures !MatchesAt(line, EndLabel, i) {
      if i == 0 {
        Mismatch(line, EndLabel, i, 8);
      } else if i == 8 {
        Mismatch(line, EndLabel, i, 1);
      } else if 0 < i < 15 {
        assert line[i] == StartLabel[i];
        Mismatch(line, EndLabel, i, 0);
      } else if i >= 16 {
        if i + |EndLabel| < |line| {
          assert line[i] == v[i - 16];
        }
        Mismatch(line, EndLabel, i, 0);
      } else if i == 15 {
        Mismatch(line, EndLabel, i, 0);
      }
    }
    CaptureIsLeftmostMatch(line, StartLabel);
    CaptureIsLeftmostMatch(line, EndLabel);
  }

  /** An end label followed by a `[\d.]` run never matches the start pattern. */
  lemma {:induction false} NoStartInEndLine(v: string)
    requires IsNumberText(v)
    ensures Capture(EndLabel + v, StartLabel).None?
  {
    var line := EndLabel + v;
    forall i ensures !MatchesAt(line, StartLabel, i) {
      if i == 0 {
        Mismatch(line, StartLabel, i, 8);
      } else if 0 < i < 13 {
        assert line[i] == EndLabel[i];
        Mismatch(line, StartLabel, i, 0);
      } else if i >= 13 {
        if i + |StartLabel| < |line| {
          assert line[i] == v[i - 13];
        }
        Mismatch(line, StartLabel, i, 0);
      }
    }
    CaptureIsLeftmostMatch(line, StartLabel);
  }

  /** A negative timestamp is not matched by `[\d.]+`, so a start line with one,
      however indented, is skipped. */
  lemma NegativeStartSkipped(pad: string, v: string)
    requires AllSpaces(pad) && IsNumberText(v)
    ensures Classify(pad + StartLabel + "-" + v) == Other
  {
    NoMatchBeforeMinus(v);
    assert pad + StartLabel + "-" + v == pad + (StartLabel + "-" + v);
    NoCaptureAfterPadding(pad, StartLabel, StartLabel + "-" + v);
    NoCaptureAfterPadding(pad, EndLabel, StartLabel + "-" + v);
  }

  // ---------------------------------------------------------------------------
  // The detection log of the test suite

  predicate AllSpaces(pad: string) {
    forall k :: 0 <= k < |pad| ==> pad[k] == ' '
  }

  lemma {:induction false} CaptureAfterPadding(pad: string, key: string, v: string)
    requires AllSpaces(pad) && |key| > 0 && key[0] != ' '
    requires |v| > 0 && IsNumberText(v)
    ensures Capture(pad + key + v, key) == Some(v)
    decreases |pad|
  {
    var line := pad + key + v;
    if |pad| == 0 {
      assert line == key + v;
      assert line[..|key|] == key;
      assert line[|key|..] == v;
      assert NumberRun(v) == v;
    } else {
      assert line[0] == ' ' && line[..|key|][0] == line[0];
      assert line[1..] == pad[1..] + key + v;
      CaptureAfterPadding(pad[1..], key, v);
    }
  }

  lemma {:induction false} NoCaptureAfterPadding(pad: string, key: string, rest: string)
    requires AllSpaces(pad) && |key| > 0 && key[0] != ' '
    requires Capture(rest, key).None?
    ensures Capture(pad + rest, key).None?
    decreases |pad|
  {
    var line := pad + rest;
    if |pad| == 0 {
      assert line == rest;
    } else if |line| > |key| {
      assert line[0] == ' ' && line[..|key|][0] == line[0];
      assert line[1..] == pad[1..] + rest;
      NoCaptureAfterPadding(pad[1..], key, rest);
    }
  }

  lemma PaddedStartLine(pad: string, v: string)
    requires AllSpaces(pad) && |v| > 0 && IsNumberText(v)
    ensures Classify(pad + StartLabel + v) == Start(ParseDecimal(v))
  {
    CaptureAfterPadding(pad, StartLabel, v);
  }

  lemma PaddedEndLine(pad: string, v: string)
    requires AllSpaces(pad) && |v| > 0 && IsNumberText(v)
    ensures Classify(pad + EndLabel + v) == End(ParseDecimal(v))
  {
    var bare := EndLabel + v;
    NoStartInEndLine(v);
    NoCaptureAfterPadding(pad, StartLabel, bare);
    assert pad + EndLabel + v == pad + bare;
    CaptureAfterPadding(pad, EndLabel, v);
  }

  const Pad: string := "            "

  /** The detection log used by the test suite: a leading newline, four
      indented lines and an indented closing line. */
  const TestLog: string :=
    "\n" + Pad + "silence_start: 1.5" + "\n" + Pad + "silence_end: 2.5" + "\n"
    + Pad + "silence_start: 4.0" + "\n" + Pad + "silence_end: 5.0" + "\n" + "        "

  function TestLines(): seq<string> {
    ["", Pad + StartLabel + "1.5", Pad + EndLabel + "2.5", Pad + StartLabel + "4.0", Pad + EndLabel + "5.0", "        "]
  }

  lemma Regroup(nl: string, p: string, a: string, b: string, c: string, d: string, q: string)
    ensures nl + p + a + nl + p + b + nl + p + c + nl + p + d + nl + q
         == nl + ((p + a) + nl + ((p + b) + nl + ((p + c) + nl + ((p + d) + nl + q))))
  {
  }

  lemma SplitSixLines(l0: string, l1: string, l2: string, l3: string, l4: string, l5: string)
    requires '\n' !in l0 && '\n' !in l1 && '\n' !in l2 && '\n' !in l3 && '\n' !in l4 && '\n' !in l5
    ensures Split(l0 + "\n" + (l1 + "\n" + (l2 + "\n" + (l3 + "\n" + (l4 + "\n" + l5)))), '\n')
         == [l0, l1, l2, l3, l4, l5]
  {
    var r4 := l4 + "\n" + l5;
    var r3 := l3 + "\n" + r4;
    var r2 := l2 + "\n" + r3;
    var r1 := l1 + "\n" + r2;
    SplitAfterPiece(l0, '\n', r1);
    SplitAfterPiece(l1, '\n', r2);
    SplitAfterPiece(l2, '\n', r3);
    SplitAfterPiece(l3, '\n', r4);
    SplitAfterPiece(l4, '\n', l5);
    SplitNoSeparator(l5, '\n');
  }

  lemma LabelledLines()
    ensures "silence_start: 1.5" == StartLabel + "1.5"
    ensures "silence_end: 2.5" == EndLabel + "2.5"
    ensures "silence_start: 4.0" == StartLabel + "4.0"
    ensures "silence_end: 5.0" == EndLabel + "5.0"
  {
  }

  lemma TestLogNested()
    ensures TestLog == "" + "\n" + (TestLines()[1] + "\n" + (TestLines()[2] + "\n" + (TestLines()[3] + "\n"
                       + (TestLines()[4] + "\n" + "        "))))
  {
    LabelledLines();
    Regroup("\n", Pad, StartLabel + "1.5", EndLabel + "2.5", StartLabel + "4.0", EndLabel + "5.0", "        ");
  }

  lemma TestLogLines()
    ensures Split(TestLog, '\n') == TestLines()
  {
    var lines := TestLines();
    TestLogNested();
    assert forall i :: 0 <= i < |lines| ==> '\n' !in lines[i];
    SplitSixLines(lines[0], lines[1], lines[2], lines[3], lines[4], lines[5]);
  }

  /** A line of spaces, the empty line included, matches neither pattern. */
  lemma BlankLineIgnored(blank: string)
    requires AllSpaces(blank)
    ensures Classify(blank) == Other
    ensures Classify("") == Other
  {
    assert blank == blank + "";
    NoCaptureAfterPadding(blank, StartLabel, "");
    NoCaptureAfterPadding(blank, EndLabel, "");
  }

  /** A blank line, four indented labelled lines and an indented blank line
      classify as nothing, start, end, start, end, nothing. */
  lemma {:induction false} IndentedPairsEvents(pad: string, blank: string, v1: string, v2: string, v3: string, v4: string)
    requires AllSpaces(pad) && AllSpaces(blank)
    requires |v1| > 0 && |v2| > 0 && |v3| > 0 && |v4| > 0
    requires IsNumberText(v1) && IsNumberText(v2) && IsNumberText(v3) && IsNumberText(v4)
    ensures Events(["", pad + StartLabel + v1, pad + EndLabel + v2, pad + StartLabel + v3, pad + EndLabel + v4, blank])
         == [Other, Start(ParseDecimal(v1)), End(ParseDecimal(v2)), Start(ParseDecimal(v3)), End(ParseDecimal(v4)), Other]
  {
    PaddedStartLine(pad, v1);
    PaddedEndLine(pad, v2);
    PaddedStartLine(pad, v3);
    PaddedEndLine(pad, v4);
    BlankLineIgnored(blank);
    EventsOfSix("", pad + StartLabel + v1, pad + EndLabel + v2, pad + StartLabel + v3, pad + EndLabel + v4, blank,
                Other, Start(ParseDecimal(v1)), End(ParseDecimal(v2)), Start(ParseDecimal(v3)), End(ParseDecimal(v4)), Other);
  }

  lemma EventsOfSix(l0: string, l1: string, l2: string, l3: string, l4: string, l5: string,
                    e0: Event, e1: Event, e2: Event, e3: Event, e4: Event, e5: Event)
    requires Classify(l0) == e0 && Classify(l1) == e1 && Classify(l2) == e2
    requires Classify(l3) == e3 && Classify(l4) == e4 && Classify(l5) == e5
    ensures Events([l0, l1, l2, l3, l4, l5]) == [e0, e1, e2, e3, e4, e5]
  {
    var ls := [l0, l1, l2, l3, l4, l5];
    var es := [e0, e1, e2, e3, e4, e5];
    forall k | 0 <= k < 6 ensures Events(ls)[k] == es[k] {
      assert Events(ls)[k] == Classify(ls[k]);
    }
  }

  lemma TestLogEvents()
    ensures Events(TestLines()) == [Other, Start(Finite(1.5)), End(Finite(2.5)), Start(Finite(4.0)), End(Finite(5.0)), Other]
  {
    ParseDecimalExamples();
    IndentedPairsEvents(Pad, "        ", "1.5", "2.5", "4.0", "5.0");
  }

  lemma TwoPairsFolded(a: Num, b: Num, c: Num, d: Num)
    ensures Fold([Other, Start(a), End(b), Start(c), End(d), Other]).silences == [Silence(a, b), Silence(c, d)]
  {
    var pairs := [Start(a), End(b), Start(c), End(d)];
    OtherIgnored([], pairs + [Other]);
    assert [Other, Start(a), End(b), Start(c), End(d), Other] == [] + [Other] + (pairs + [Other]);
    OtherIgnored(pairs, []);
    assert [] + (pairs + [Other]) == pairs + [Other] + [];
    assert pairs + [] == pairs;
    PairEmitted([Start(a), End(b)], c, d);
    PairEmitted([], a, b);
    assert [] + [Start(a), End(b)] == [Start(a), End(b)];
    assert [Start(a), End(b)] + [Start(c), End(d)] == pairs;
    assert Fold([]) == Initial;
  }

  /** Two start/end pairs read from the test log give the two intervals the
      test expects. */
  lemma TestLogParsed()
    ensures Parse(TestLog) == [Silence(Finite(1.5), Finite(2.5)), Silence(Finite(4.0), Finite(5.0))]
  {
    TestLogLines();
    TestLogEvents();
    TwoPairsFolded(Finite(1.5), Finite(2.5), Finite(4.0), Finite(5.0));
  }
}
