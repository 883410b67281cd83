/** The filter-graph text handed to the media engine: one video chain and one
    audio chain per segment, each cutting the segment out of the input and
    resetting its timestamps (and, in speed mode, retiming it), then one concat
    step per stream that joins the chains' outputs in segment order. Parts are
    joined with `;`. How a JavaScript number is written inside a template
    string is a parameter `fmt`. */
module FilterGraph {
  import opened Strings
  import opened Numbers
  import opened SegmentPlanner

  datatype Media = Video | Audio

  /** Number text never holds the graph's separators (JavaScript writes
      digits, `.`, `-`, `e`, `+`, `NaN` or `Infinity`). */
  ghost predicate PlainNumbers(fmt: Num -> string) {
    forall n :: ';' !in fmt(n) && ',' !in fmt(n)
  }

  /** The output pad of chain `i`: `[vi]` or `[ai]`. */
  function Label(m: Media, i: nat): string {
    (if m == Video then "[v" else "[a") + NatStr(i) + "]"
  }

  /** Cut `[start, end)` out of the input stream and restart its timestamps at 0. */
  function Trim(m: Media, start: Num, end: Num, fmt: Num -> string): string {
    (if m == Video then "[0:v]trim=" else "[0:a]atrim=") + fmt(start) + ":" + fmt(end)
      + (if m == Video then ",setpts=PTS-STARTPTS" else ",asetpts=PTS-STARTPTS")
  }

  /** The retiming filter of speed mode, omitted at speed 1. */
  function SpeedSuffix(m: Media, speed: real, fmt: Num -> string): string {
    if speed == 1.0 then ""
    else if m == Video then ",setpts=PTS/" + fmt(Finite(speed))
    else ",atempo=" + fmt(Finite(speed))
  }

  /** Chain `i` of remove mode. */
  function RemoveChain(m: Media, span: Span, i: nat, fmt: Num -> string): string {
    Trim(m, Finite(span.start), Finite(span.end), fmt) + Label(m, i)
  }

  /** Chain `i` of speed mode. */
  function SpeedChain(m: Media, seg: Segment, i: nat, fmt: Num -> string): string {
    Trim(m, seg.start, seg.end, fmt) + SpeedSuffix(m, seg.speed, fmt) + Label(m, i)
  }

  /** The labels `[v0]..[v(k-1)]` or `[a0]..[a(k-1)]`. */
  function LabelList(m: Media, k: nat): seq<string> {
    seq(k, i requires 0 <= i < k => Label(m, i))
  }

  /** The concat step of one stream over `k` chains. */
  function ConcatLine(m: Media, k: nat): string {
    Flatten(LabelList(m, k)) + "concat=n=" + NatStr(k)
      + (if m == Video then ":v=1:a=0[outv]" else ":v=0:a=1[outa]")
  }

  /** Video chains, then audio chains, then the two concat steps. */
  function Assemble(video: seq<string>, audio: seq<string>, k: nat): seq<string> {
    video + audio + [ConcatLine(Video, k), ConcatLine(Audio, k)]
  }

  function RemoveParts(spans: seq<Span>, fmt: Num -> string): seq<string> {
    Assemble(seq(|spans|, i requires 0 <= i < |spans| => RemoveChain(Video, spans[i], i, fmt)),
             seq(|spans|, i requires 0 <= i < |spans| => RemoveChain(Audio, spans[i], i, fmt)),
             |spans|)
  }

  function SpeedParts(segs: seq<Segment>, fmt: Num -> string): seq<string> {
    Assemble(seq(|segs|, i requires 0 <= i < |segs| => SpeedChain(Video, segs[i], i, fmt)),
             seq(|segs|, i requires 0 <= i < |segs| => SpeedChain(Audio, segs[i], i, fmt)),
             |segs|)
  }

  /** The filter string of `_createRemoveFilter`. */
  function RemoveGraph(spans: seq<Span>, fmt: Num -> string): string {
    Join(RemoveParts(spans, fmt), ';')
  }

  /** The filter string of `_createSpeedFilter`. */
  function SpeedGraph(segs: seq<Segment>, fmt: Num -> string): string {
    Join(SpeedParts(segs, fmt), ';')
  }

  // ---------------------------------------------------------------------------
  // Remove mode renders as speed mode at speed 1

  /** The remove-mode graph of some spans is the speed-mode graph of the same
      spans played at speed 1: the two renderers differ only in the retiming
      suffix. */
  lemma RemoveGraphIsUnitSpeed(spans: seq<Span>, fmt: Num -> string)
    ensures RemoveParts(spans, fmt) == SpeedParts(KeptAll(spans), fmt)
    ensures RemoveGraph(spans, fmt) == SpeedGraph(KeptAll(spans), fmt)
  {
    var segs := KeptAll(spans);
    forall m: Media, i | 0 <= i < |spans|
      ensures RemoveChain(m, spans[i], i, fmt) == SpeedChain(m, segs[i], i, fmt)
    {
      assert Trim(m, Finite(spans[i].start), Finite(spans[i].end), fmt) + "" == Trim(m, Finite(spans[i].start), Finite(spans[i].end), fmt);
    }
    assert RemoveParts(spans, fmt) == SpeedParts(segs, fmt);
  }

  // ---------------------------------------------------------------------------
  // Separators

  lemma DigitsAvoid(s: string, c: char)
    requires AllDigits(s) && !IsDigit(c)
    ensures c !in s
  {
    forall j | 0 <= j < |s| ensures s[j] != c {
    }
  }

  lemma {:induction false} FlattenAvoids(parts: seq<string>, c: char)
    requires forall i :: 0 <= i < |parts| ==> c !in parts[i]
    ensures c !in Flatten(parts)
    decreases |parts|
  {
    if |parts| > 0 {
      FlattenAvoids(parts[1..], c);
    }
  }

  lemma LabelAvoids(m: Media, i: nat, c: char)
    requires c == ';' || c == ','
    ensures c !in Label(m, i)
  {
    DigitsAvoid(NatStr(i), c);
  }

  lemma TrimAvoidsSemicolon(m: Media, start: Num, end: Num, fmt: Num -> string)
    requires PlainNumbers(fmt)
    ensures ';' !in Trim(m, start, end, fmt)
  {
    assert ';' !in fmt(start) && ';' !in fmt(end);
  }

  lemma SuffixAvoidsSemicolon(m: Media, speed: real, fmt: Num -> string)
    requires PlainNumbers(fmt)
    ensures ';' !in SpeedSuffix(m, speed, fmt)
  {
    assert ';' !in fmt(Finite(speed));
  }

  lemma ChainAvoidsSemicolon(m: Media, seg: Segment, i: nat, fmt: Num -> string)
    requires PlainNumbers(fmt)
    ensures ';' !in SpeedChain(m, seg, i, fmt)
  {
    LabelAvoids(m, i, ';');
    TrimAvoidsSemicolon(m, seg.start, seg.end, fmt);
    SuffixAvoidsSemicolon(m, seg.speed, fmt);
  }

  lemma ConcatAvoidsSemicolon(m: Media, k: nat)
    ensures ';' !in ConcatLine(m, k)
  {
    forall i | 0 <= i < k ensures ';' !in LabelList(m, k)[i] {
      LabelAvoids(m, i, ';');
    }
    FlattenAvoids(LabelList(m, k), ';');
    DigitsAvoid(NatStr(k), ';');
  }

  /** No part of a speed-mode graph holds the separator. */
  lemma SpeedPartsAvoidSemicolon(segs: seq<Segment>, fmt: Num -> string)
    requires PlainNumbers(fmt)
    ensures |SpeedParts(segs, fmt)| == 2 * |segs| + 2
    ensures forall j :: 0 <= j < |SpeedParts(segs, fmt)| ==> ';' !in SpeedParts(segs, fmt)[j]
  {
    var parts := SpeedParts(segs, fmt);
    var k := |segs|;
    forall j | 0 <= j < |parts| ensures ';' !in parts[j] {
      if j < k {
        ChainAvoidsSemicolon(Video, segs[j], j, fmt);
      } else if j < 2 * k {
        ChainAvoidsSemicolon(Audio, segs[j - k], j - k, fmt);
      } else {
        ConcatAvoidsSemicolon(if j == 2 * k then Video else Audio, k);
      }
    }
  }

  /** The order of the parts: video chains, audio chains, video concat, audio
      concat. */
  lemma SpeedPartsOrder(segs: seq<Segment>, fmt: Num -> string)
    ensures forall i :: 0 <= i < |segs| ==>
              SpeedParts(segs, fmt)[i] == SpeedChain(Video, segs[i], i, fmt)
              && SpeedParts(segs, fmt)[|segs| + i] == SpeedChain(Audio, segs[i], i, fmt)
    ensures SpeedParts(segs, fmt)[2 * |segs|] == ConcatLine(Video, |segs|)
    ensures SpeedParts(segs, fmt)[2 * |segs| + 1] == ConcatLine(Audio, |segs|)
  {
    var video := seq(|segs|, i requires 0 <= i < |segs| => SpeedChain(Video, segs[i], i, fmt));
    var audio := seq(|segs|, i requires 0 <= i < |segs| => SpeedChain(Audio, segs[i], i, fmt));
    AssembleOrder(video, audio, |segs|);
  }

  lemma AssembleOrder(video: seq<string>, audio: seq<string>, k: nat)
    requires |video| == k && |audio| == k
    ensures forall i :: 0 <= i < k ==> Assemble(video, audio, k)[i] == video[i] && Assemble(video, audio, k)[k + i] == audio[i]
    ensures Assemble(video, audio, k)[2 * k] == ConcatLine(Video, k)
    ensures Assemble(video, audio, k)[2 * k + 1] == ConcatLine(Audio, k)
  {
  }

  /** The speed-mode graph for k segments cuts back at `;` into exactly its
      2k + 2 parts: k video chains, k audio chains, the video concat and the
      audio concat, in that order. */
  lemma SpeedGraphParts(segs: seq<Segment>, fmt: Num -> string)
    requires PlainNumbers(fmt)
    ensures Split(SpeedGraph(segs, fmt), ';') == SpeedParts(segs, fmt)
    ensures Count(SpeedGraph(segs, fmt), ';') == 2 * |segs| + 1
    ensures forall i :: 0 <= i < |segs| ==>
              SpeedParts(segs, fmt)[i] == SpeedChain(Video, segs[i], i, fmt)
              && SpeedParts(segs, fmt)[|segs| + i] == SpeedChain(Audio, segs[i], i, fmt)
    ensures SpeedParts(segs, fmt)[2 * |segs|] == ConcatLine(Video, |segs|)
    ensures SpeedParts(segs, fmt)[2 * |segs| + 1] == ConcatLine(Audio, |segs|)
  {
    SpeedPartsAvoidSemicolon(segs, fmt);
    SpeedPartsOrder(segs, fmt);
    SplitJoin(SpeedParts(segs, fmt), ';');
  }

  /** The same holds for the remove-mode graph. */
  lemma RemoveGraphParts(spans: seq<Span>, fmt: Num -> string)
    requires PlainNumbers(fmt)
    ensures Split(RemoveGraph(spans, fmt), ';') == RemoveParts(spans, fmt)
    ensures Count(RemoveGraph(spans, fmt), ';') == 2 * |spans| + 1
  {
    RemoveGraphIsUnitSpeed(spans, fmt);
    SpeedGraphParts(KeptAll(spans), fmt);
  }

  // ---------------------------------------------------------------------------
  // Speed suffixes

  lemma CountLeadingComma(s: string)
    requires ',' !in s
    ensures Count([','] + s, ',') == 1
  {
    assert ([','] + s)[1..] == s;
    CountAbsent(s, ',');
  }

  lemma OneCommaShape(a: string, x: string, y: string, r: string)
    requires ',' !in a && ',' !in x && ',' !in y && ',' !in r
    ensures Count(a + x + ":" + y + ([','] + r), ',') == 1
  {
    var head := a + x + ":" + y;
    assert ',' !in head;
    CountAbsent(head, ',');
    CountLeadingComma(r);
    CountAppend(head, [','] + r, ',');
  }

  /** The cut-and-reset part of a chain holds exactly one `,`. */
  lemma TrimHasOneComma(m: Media, start: Num, end: Num, fmt: Num -> string)
    requires PlainNumbers(fmt)
    ensures Count(Trim(m, start, end, fmt), ',') == 1
  {
    assert ',' !in fmt(start) && ',' !in fmt(end);
    if m == Video {
      assert ",setpts=PTS-STARTPTS" == [','] + "setpts=PTS-STARTPTS";
      OneCommaShape("[0:v]trim=", fmt(start), fmt(end), "setpts=PTS-STARTPTS");
    } else {
      assert ",asetpts=PTS-STARTPTS" == [','] + "asetpts=PTS-STARTPTS";
      OneCommaShape("[0:a]atrim=", fmt(start), fmt(end), "asetpts=PTS-STARTPTS");
    }
  }

  lemma SuffixCommas(m: Media, speed: real, fmt: Num -> string)
    requires PlainNumbers(fmt)
    ensures Count(SpeedSuffix(m, speed, fmt), ',') == if speed == 1.0 then 0 else 1
  {
    var text := fmt(Finite(speed));
    assert ',' !in text;
    if speed != 1.0 {
      var retime := if m == Video then "setpts=PTS/" + text else "atempo=" + text;
      assert SpeedSuffix(m, speed, fmt) == [','] + retime;
      CountLeadingComma(retime);
    }
  }

  /** Every chain resets its timestamps once, so it holds one `,`; it holds a
      second `,` (the `setpts=PTS/s` or `atempo=s` retiming) exactly when the
      segment's speed is not 1. */
  lemma SpeedSuffixIffRetimed(m: Media, seg: Segment, i: nat, fmt: Num -> string)
    requires PlainNumbers(fmt)
    ensures Count(SpeedChain(m, seg, i, fmt), ',') == if seg.speed == 1.0 then 1 else 2
  {
    var trim := Trim(m, seg.start, seg.end, fmt);
    var suffix := SpeedSuffix(m, seg.speed, fmt);
    TrimHasOneComma(m, seg.start, seg.end, fmt);
    SuffixCommas(m, seg.speed, fmt);
    LabelAvoids(m, i, ',');
    CountAbsent(Label(m, i), ',');
    CountAppend(trim, suffix, ',');
    CountAppend(trim + suffix, Label(m, i), ',');
  }

  /** Remove-mode chains never carry a retiming suffix. */
  lemma RemoveChainNotRetimed(m: Media, span: Span, i: nat, fmt: Num -> string)
    requires PlainNumbers(fmt)
    ensures Count(RemoveChain(m, span, i, fmt), ',') == 1
  {
    SpeedSuffixIffRetimed(m, AsKept(span), i, fmt);
    assert Trim(m, Finite(span.start), Finite(span.end), fmt) + "" == Trim(m, Finite(span.start), Finite(span.end), fmt);
  }

  // ---------------------------------------------------------------------------
  // Labels

  /** Labels name their stream and index: two labels are equal exactly when
      both stream and index agree. */
  lemma LabelsDistinct(m1: Media, i: nat, m2: Media, j: nat)
    ensures Label(m1, i) == Label(m2, j) <==> m1 == m2 && i == j
  {
    var a := Label(m1, i);
    var b := Label(m2, j);
    if a == b {
      assert a[1] == b[1];
      assert a[2..|a| - 1] == NatStr(i);
      assert b[2..|b| - 1] == NatStr(j);
      NatStrInjective(i, j);
    }
  }

  predicate EndsWith(s: string, suffix: string) {
    |suffix| <= |s| && s[|s| - |suffix|..] == suffix
  }

  /** The concat step of a stream lists the label of every chain of that
      stream once, at the chain's index, and no label of the other stream or of
      an index beyond the last chain. */
  lemma ConcatListsEachLabelOnce(m: Media, k: nat, m2: Media, i: nat)
    ensures |LabelList(m, k)| == k
    ensures forall j :: 0 <= j < k ==> (LabelList(m, k)[j] == Label(m2, i) <==> m2 == m && j == i)
  {
    forall j | 0 <= j < k ensures LabelList(m, k)[j] == Label(m2, i) <==> m2 == m && j == i {
      LabelsDistinct(m, j, m2, i);
    }
  }

  /** Chain `i` of each stream writes exactly the pad its concat step reads at
      position `i`. */
  lemma ChainsFeedConcat(segs: seq<Segment>, fmt: Num -> string)
    ensures forall i :: 0 <= i < |segs| ==> EndsWith(SpeedChain(Video, segs[i], i, fmt), LabelList(Video, |segs|)[i])
    ensures forall i :: 0 <= i < |segs| ==> EndsWith(SpeedChain(Audio, segs[i], i, fmt), LabelList(Audio, |segs|)[i])
  {
    forall m: Media, i | 0 <= i < |segs| ensures EndsWith(SpeedChain(m, segs[i], i, fmt), Label(m, i)) {
      var front := Trim(m, segs[i].start, segs[i].end, fmt) + SpeedSuffix(m, segs[i].speed, fmt);
      assert SpeedChain(m, segs[i], i, fmt)[|front|..] == Label(m, i);
    }
  }

  // ---------------------------------------------------------------------------
  // A worked example

  lemma FirstVideoLabel()
    ensures Label(Video, 0) == "[v0]"
  {
    assert NatStr(0) == "0";
  }

  lemma FirstAudioLabel()
    ensures Label(Audio, 0) == "[a0]"
  {
    assert NatStr(0) == "0";
  }

  /** Over a single chain the concat step lists only pad 0. */
  lemma ConcatOverSingle(m: Media)
    ensures ConcatLine(m, 1) == Label(m, 0) + "concat=n=1" + (if m == Video then ":v=1:a=0[outv]" else ":v=0:a=1[outa]")
  {
    assert NatStr(1) == "1";
    assert LabelList(m, 1) == [Label(m, 0)];
    assert Flatten([Label(m, 0)]) == Label(m, 0) + Flatten([]);
  }

  lemma VideoConcatOverOne()
    ensures ConcatLine(Video, 1) == "[v0]concat=n=1:v=1:a=0[outv]"
  {
    FirstVideoLabel();
    ConcatOverSingle(Video);
  }

  lemma AudioConcatOverOne()
    ensures ConcatLine(Audio, 1) == "[a0]concat=n=1:v=0:a=1[outa]"
  {
    FirstAudioLabel();
    ConcatOverSingle(Audio);
  }

  /** One kept span gives a video chain, an audio chain and two concat
      steps over one pad each. */
  lemma OneSpanParts(span: Span, fmt: Num -> string)
    ensures RemoveParts([span], fmt)
         == [Trim(Video, Finite(span.start), Finite(span.end), fmt) + "[v0]",
             Trim(Audio, Finite(span.start), Finite(span.end), fmt) + "[a0]",
             "[v0]concat=n=1:v=1:a=0[outv]",
             "[a0]concat=n=1:v=0:a=1[outa]"]
  {
    FirstVideoLabel();
    FirstAudioLabel();
    VideoConcatOverOne();
    AudioConcatOverOne();
    var video := seq(1, i requires 0 <= i < 1 => RemoveChain(Video, [span][i], i, fmt));
    var audio := seq(1, i requires 0 <= i < 1 => RemoveChain(Audio, [span][i], i, fmt));
    assert video == [RemoveChain(Video, span, 0, fmt)];
    assert audio == [RemoveChain(Audio, span, 0, fmt)];
  }
}
