/** The slice notation of paderbox/io/audioread.py: a path may end in
    `::[start:stop]` or `::[start:stop,channel]`, where `channel` is an
    index or a `lo:hi` range and every number is an optional run of
    decimal digits. `_PATTERN` is the regular expression

        \[(\d+)?:(\d+)?(?:,(?:(\d+)?:(\d+)?|(\d+)?))?\]

    Here it is a syntax tree (`SliceSyntax`), its printed form (`Render`)
    and a matcher (`Match`) proved to accept exactly the printed forms of
    well-formed trees, each with its one tree. */
module AudioSlice {
  import opened Common
  import opened AudioTypes

  const UnpackFailure: string := "not enough values to unpack"

  predicate IsDigit(c: char) {
    '0' <= c <= '9'
  }

  predicate IsDigits(s: string) {
    forall i :: 0 <= i < |s| ==> IsDigit(s[i])
  }

  /** `int(s)` for a run of decimal digits (leading zeros allowed). */
  function DigitsValue(s: string): nat
    requires IsDigits(s)
  {
    if s == [] then 0
    else 10 * DigitsValue(s[..|s| - 1]) + (s[|s| - 1] as int - '0' as int)
  }

  /** What the group `(\d+)?` captures: nothing, or a nonempty digit run. */
  predicate GroupOk(g: Option<string>) {
    g.Some? ==> |g.value| > 0 && IsDigits(g.value)
  }

  function GroupText(g: Option<string>): string {
    if g.Some? then g.value else ""
  }

  /** The part after the sample range: absent (`[a:b]`), the first
      alternative `,c:d`, or the second alternative `,e` (possibly empty). */
  datatype ChannelSyntax =
    | NoChannelPart
    | RangePart(lo: Option<string>, hi: Option<string>)
    | IndexPart(index: Option<string>)

  datatype SliceSyntax = SliceSyntax(start: Option<string>, stop: Option<string>, channel: ChannelSyntax)

  predicate WellFormed(t: SliceSyntax) {
    && GroupOk(t.start)
    && GroupOk(t.stop)
    && match t.channel
       case NoChannelPart => true
       case RangePart(lo, hi) => GroupOk(lo) && GroupOk(hi)
       case IndexPart(e) => GroupOk(e)
  }

  /** The text after the sample range, closing bracket included. */
  function RenderTail(c: ChannelSyntax): string {
    match c
    case NoChannelPart => "]"
    case RangePart(lo, hi) => "," + (GroupText(lo) + (":" + (GroupText(hi) + "]")))
    case IndexPart(e) => "," + (GroupText(e) + "]")
  }

  /** The text a syntax tree stands for. */
  function Render(t: SliceSyntax): string {
    "[" + (GroupText(t.start) + (":" + (GroupText(t.stop) + RenderTail(t.channel))))
  }

  /** The longest prefix of digits of `s`, and what follows it: how the
      greedy `(\d+)?` divides the text. */
  function SplitDigits(s: string): (r: (string, string))
    ensures s == r.0 + r.1
    ensures IsDigits(r.0)
    ensures r.1 != [] ==> !IsDigit(r.1[0])
  {
    if s != [] && IsDigit(s[0]) then
      var rest := SplitDigits(s[1..]);
      assert s == [s[0]] + rest.0 + rest.1;
      ([s[0]] + rest.0, rest.1)
    else ([], s)
  }

  /** The capture of `(\d+)?` for the digit run `d`. */
  function Capture(d: string): (g: Option<string>)
    ensures GroupText(g) == d
  {
    if d == [] then None else Some(d)
  }

  /** Matches what follows the sample range: "]", ",e]" or ",c:d]". */
  function MatchChannel(s: string): (r: Option<ChannelSyntax>)
    ensures r.Some? ==> RenderTail(r.value) == s
    ensures r.Some? ==> WellFormed(SliceSyntax(None, None, r.value))
  {
    if s == "]" then Some(NoChannelPart)
    else if s == [] || s[0] != ',' then None
    else
      var (c, rest) := SplitDigits(s[1..]);
      if rest == "]" then Some(IndexPart(Capture(c)))
      else if rest == [] || rest[0] != ':' then None
      else
        var (d, tail) := SplitDigits(rest[1..]);
        assert rest == ":" + (d + tail);
        if tail == "]" then Some(RangePart(Capture(c), Capture(d))) else None
  }

  /** `re.fullmatch(_PATTERN, s)`: the syntax tree of `s`, or `None`. */
  function Match(s: string): (r: Option<SliceSyntax>)
    ensures r.Some? ==> WellFormed(r.value) && Render(r.value) == s
  {
    if s == [] || s[0] != '[' then None
    else
      var (a, rest) := SplitDigits(s[1..]);
      if rest == [] || rest[0] != ':' then None
      else
        var (b, tail) := SplitDigits(rest[1..]);
        match MatchChannel(tail)
        case None => None
        case Some(c) =>
          MatchedParts(s, a, rest, b, tail, c);
          Some(SliceSyntax(Capture(a), Capture(b), c))
  }

  /** The pieces `Match` splits its input into make up a well-formed tree
      that prints as that input. */
  lemma MatchedParts(s: string, a: string, rest: string, b: string, tail: string, c: ChannelSyntax)
    requires s != [] && s[0] == '[' && s[1..] == a + rest
    requires rest != [] && rest[0] == ':' && rest[1..] == b + tail
    requires IsDigits(a) && IsDigits(b)
    requires RenderTail(c) == tail && WellFormed(SliceSyntax(None, None, c))
    ensures WellFormed(SliceSyntax(Capture(a), Capture(b), c))
    ensures Render(SliceSyntax(Capture(a), Capture(b), c)) == s
  {
    assert rest == ":" + (b + tail);
    assert s == "[" + (a + rest);
  }

  /** A digit run followed by text that does not start with a digit splits
      there. */
  lemma {:induction false} SplitDigitsOf(d: string, rest: string)
    requires IsDigits(d)
    requires rest != [] ==> !IsDigit(rest[0])
    ensures SplitDigits(d + rest) == (d, rest)
  {
    if d != [] {
      var s := d + rest;
      assert s[0] == d[0] && IsDigit(s[0]);
      assert s[1..] == d[1..] + rest;
      SplitDigitsOf(d[1..], rest);
      assert SplitDigits(s) == ([s[0]] + d[1..], rest);
      assert [d[0]] + d[1..] == d;
    } else {
      assert d + rest == rest;
    }
  }

  lemma CaptureOfText(g: Option<string>)
    requires GroupOk(g)
    ensures Capture(GroupText(g)) == g
  {
  }

  lemma MatchChannelComplete(c: ChannelSyntax)
    requires WellFormed(SliceSyntax(None, None, c))
    ensures MatchChannel(RenderTail(c)) == Some(c)
  {
    match c
    case NoChannelPart =>
    case RangePart(lo, hi) =>
      var s := RenderTail(c);
      var rest := ":" + (GroupText(hi) + "]");
      assert s[1..] == GroupText(lo) + rest;
      SplitDigitsOf(GroupText(lo), rest);
      assert rest[1..] == GroupText(hi) + "]";
      SplitDigitsOf(GroupText(hi), "]");
      CaptureOfText(lo);
      CaptureOfText(hi);
    case IndexPart(e) =>
      var s := RenderTail(c);
      assert s[1..] == GroupText(e) + "]";
      SplitDigitsOf(GroupText(e), "]");
      CaptureOfText(e);
  }

  /** Every well-formed tree is matched, and gives back exactly itself: the
      matcher is complete, and the printed form determines the tree. */
  lemma MatchComplete(t: SliceSyntax)
    requires WellFormed(t)
    ensures Match(Render(t)) == Some(t)
  {
    var s := Render(t);
    var g1, g2 := GroupText(t.start), GroupText(t.stop);
    var tail := RenderTail(t.channel);
    var rest := ":" + (g2 + tail);
    assert s[0] == '[' && s[1..] == g1 + rest;
    SplitDigitsOf(g1, rest);
    assert rest[1..] == g2 + tail;
    RenderTailShape(t.channel);
    SplitDigitsOf(g2, tail);
    MatchChannelComplete(t.channel);
    CaptureOfText(t.start);
    CaptureOfText(t.stop);
  }

  /** `.groups()` of a match, each converted with `int` (`None` stays). */
  datatype Groups = Groups(
    start: Option<nat>, stop: Option<nat>,
    channelStart: Option<nat>, channelStop: Option<nat>, channelIndex: Option<nat>)

  function GroupValue(g: Option<string>): Option<nat>
    requires GroupOk(g)
  {
    if g.Some? then Some(DigitsValue(g.value)) else None
  }

  function GroupsOf(t: SliceSyntax): Groups
    requires WellFormed(t)
  {
    match t.channel
    case NoChannelPart => Groups(GroupValue(t.start), GroupValue(t.stop), None, None, None)
    case RangePart(lo, hi) => Groups(GroupValue(t.start), GroupValue(t.stop), GroupValue(lo), GroupValue(hi), None)
    case IndexPart(e) => Groups(GroupValue(t.start), GroupValue(t.stop), None, None, GroupValue(e))
  }

  /** The channel selection of the five groups: a bare index wins; else a
      range if either of its bounds is given; else all channels. */
  function ChannelOf(g: Groups): Channel {
    if g.channelIndex.Some? then Index(g.channelIndex.value)
    else if g.channelStart.Some? || g.channelStop.Some? then
      Slice(if g.channelStart.Some? then Some(g.channelStart.value as int) else None,
            if g.channelStop.Some? then Some(g.channelStop.value as int) else None, None)
    else AllChannels
  }

  /** `_parse_audio_slice`'s result: the real path, start, stop, channel. */
  datatype ParsedPath = ParsedPath(path: string, start: nat, stop: Option<nat>, channel: Channel)

  /** What a well-formed annotation means after the real path `path`. */
  function Interpret(path: string, t: SliceSyntax): ParsedPath
    requires WellFormed(t)
  {
    var g := GroupsOf(t);
    ParsedPath(path, if g.start.Some? then g.start.value else 0, g.stop, ChannelOf(g))
  }

  predicate IsSeparatorAt(s: string, j: int) {
    0 <= j && j + 1 < |s| && s[j] == ':' && s[j + 1] == ':'
  }

  /** The start of the last "::" that ends at or before `n`, or -1. */
  function LastSeparatorBelow(s: string, n: nat): (i: int)
    requires n <= |s|
    ensures i == -1 || (IsSeparatorAt(s, i) && i + 2 <= n)
    ensures forall j :: i < j && j + 2 <= n ==> !IsSeparatorAt(s, j)
    decreases n
  {
    if n < 2 then -1
    else if IsSeparatorAt(s, n - 2) then n - 2
    else LastSeparatorBelow(s, n - 1)
  }

  /** The start of the last "::" in `s`, or -1 when there is none; this is
      where `s.rsplit('::', maxsplit=1)` splits. */
  function LastSeparator(s: string): (i: int)
    ensures i == -1 || IsSeparatorAt(s, i)
    ensures forall j :: i < j ==> !IsSeparatorAt(s, j)
  {
    LastSeparatorBelow(s, |s|)
  }

  /** `'::' in s`. */
  predicate HasSeparator(s: string) {
    LastSeparator(s) >= 0
  }

  /** `_parse_audio_slice(path, start, stop, channel)`. */
  function ParseAudioSlice(path: string, start: real, stop: Option<real>, channel: Channel)
    : (r: Result<ParsedPath, LoadError>)
    ensures start != 0.0 || stop.Some? || channel != AllChannels ==> r.Err? && r.error.AssertionError?
    ensures r.Ok? ==> exists t :: WellFormed(t) && path == r.value.path + "::" + Render(t)
                                 && r.value == Interpret(r.value.path, t)
  {
    if start != 0.0 then Err(AssertionError("start"))
    else if stop.Some? then Err(AssertionError("stop"))
    else if channel != AllChannels then Err(AssertionError("channel"))
    else
      var i := LastSeparator(path);
      if i < 0 then Err(ValueError(UnpackFailure))
      else
        var realPath, annotation := path[..i], path[i + 2..];
        if ' ' in annotation then Err(AssertionError(annotation))
        else
          match Match(annotation)
          case None => Err(ValueError(path))
          case Some(t) =>
            SplitAtSeparator(path, i);
            assert WellFormed(t) && path == realPath + "::" + Render(t);
            Ok(Interpret(realPath, t))
  }

  lemma SplitAtSeparator(s: string, i: int)
    requires IsSeparatorAt(s, i)
    ensures s == s[..i] + "::" + s[i + 2..]
  {
    assert s[i..i + 2] == "::";
    assert s == s[..i] + s[i..i + 2] + s[i + 2..];
  }

  /** The last "::" of `p + "::" + a` is the one after `p` when the
      annotation `a` holds no "::" and does not start with ':'. */
  lemma LastSeparatorAfterPath(p: string, a: string)
    requires NoSeparator(a) && (a != [] ==> a[0] != ':')
    ensures LastSeparator(p + "::" + a) == |p|
    ensures (p + "::" + a)[..|p|] == p && (p + "::" + a)[|p| + 2..] == a
  {
    var s := p + "::" + a;
    assert IsSeparatorAt(s, |p|);
    forall j | j > |p| ensures !IsSeparatorAt(s, j) {
      if j == |p| + 1 {
        if a != [] { assert s[j + 1] == a[0]; }
      } else if j + 1 < |s| {
        assert !IsSeparatorAt(a, j - |p| - 2);
        assert s[j] == a[j - |p| - 2] && s[j + 1] == a[j - |p| - 1];
      }
    }
    assert s[..|p|] == p && s[|p| + 2..] == a;
  }

  /** What `_parse_audio_slice` does with an annotation `a` after the real
      path `p` (explicit arguments at their defaults): a space is an
      assertion failure, text outside the grammar a `ValueError` naming the
      whole path, and matched text its meaning. */
  lemma ParseAudioSliceOutcome(p: string, a: string)
    requires NoSeparator(a) && (a != [] ==> a[0] != ':')
    ensures var r := ParseAudioSlice(p + "::" + a, 0.0, None, AllChannels);
            && (' ' in a ==> r == Err(AssertionError(a)))
            && (' ' !in a && Match(a).None? ==> r == Err(ValueError(p + "::" + a)))
            && (Match(a).Some? ==> r == Ok(Interpret(p, Match(a).value)))
  {
    LastSeparatorAfterPath(p, a);
    if Match(a).Some? {
      RenderShape(Match(a).value);
    }
  }

  /** The round trip: a path followed by "::" and a well-formed annotation
      parses back to that path and the annotation's meaning, whatever the
      path itself contains. */
  lemma ParseAudioSliceRoundTrip(p: string, t: SliceSyntax)
    requires WellFormed(t)
    ensures ParseAudioSlice(p + "::" + Render(t), 0.0, None, AllChannels) == Ok(Interpret(p, t))
  {
    RenderShape(t);
    MatchComplete(t);
    ParseAudioSliceOutcome(p, Render(t));
  }

  /** The channel selection has three cases: a bare index gives that index,
      else a range with a bound gives the half-open slice, else (`[a:b]`,
      `[a:b,]`, `[a:b,:]`) all channels. */
  lemma ChannelCases(p: string, t: SliceSyntax)
    requires WellFormed(t)
    ensures t.channel.IndexPart? && t.channel.index.Some? ==>
              Interpret(p, t).channel == Index(DigitsValue(t.channel.index.value))
    ensures t.channel.RangePart? && (t.channel.lo.Some? || t.channel.hi.Some?) ==>
              Interpret(p, t).channel ==
                Slice(if t.channel.lo.Some? then Some(DigitsValue(t.channel.lo.value)) else None,
                      if t.channel.hi.Some? then Some(DigitsValue(t.channel.hi.value)) else None, None)
    ensures t.channel.NoChannelPart? || t.channel == IndexPart(None) || t.channel == RangePart(None, None) ==>
              Interpret(p, t).channel == AllChannels
    ensures Interpret(p, t).start == if t.start.Some? then DigitsValue(t.start.value) else 0
    ensures Interpret(p, t).stop == if t.stop.Some? then Some(DigitsValue(t.stop.value)) else None
  {
  }

  lemma DigitsValueExamples()
    ensures DigitsValue("0") == 0 && DigitsValue("2") == 2 && DigitsValue("16000") == 16000
  {
    assert "16"[..1] == "1";
    assert "160"[..2] == "16";
    assert "1600"[..3] == "160";
    assert "16000"[..4] == "1600";
  }

  /** The first example of `_parse_audio_slice`'s documentation. */
  lemma ParseAudioSliceIndexExample()
    ensures ParseAudioSlice("file.wav::[:16000,0]", 0.0, None, AllChannels)
              == Ok(ParsedPath("file.wav", 0, Some(16000), Index(0)))
  {
    var t := SliceSyntax(None, Some("16000"), IndexPart(Some("0")));
    assert "file.wav::[:16000,0]" == "file.wav" + "::" + Render(t);
    ParseAudioSliceRoundTrip("file.wav", t);
    DigitsValueExamples();
  }

  /** The second example of `_parse_audio_slice`'s documentation. */
  lemma ParseAudioSliceRangeExample()
    ensures ParseAudioSlice("file.wav::[:16000,:2]", 0.0, None, AllChannels)
              == Ok(ParsedPath("file.wav", 0, Some(16000), Slice(None, Some(2), None)))
  {
    var t := SliceSyntax(None, Some("16000"), RangePart(None, Some("2")));
    assert "file.wav::[:16000,:2]" == "file.wav" + "::" + Render(t);
    ParseAudioSliceRoundTrip("file.wav", t);
    DigitsValueExamples();
  }

  ghost predicate NoSeparator(s: string) {
    forall j :: !IsSeparatorAt(s, j)
  }

  /** Appending two texts without "::" makes one only where a ':' meets a
      ':'. */
  lemma NoSeparatorAppend(x: string, y: string)
    requires NoSeparator(x) && NoSeparator(y)
    requires x != [] && y != [] ==> !(x[|x| - 1] == ':' && y[0] == ':')
    ensures NoSeparator(x + y)
  {
    var s := x + y;
    forall j | 0 <= j && j + 1 < |s| ensures !IsSeparatorAt(s, j) {
      if j + 1 < |x| {
        assert !IsSeparatorAt(x, j);
      } else if j >= |x| {
        assert !IsSeparatorAt(y, j - |x|);
      }
    }
  }

  /** Text without a ':' (a digit run, a bracket) has no "::". */
  lemma ColonFree(d: string)
    requires ':' !in d
    ensures NoSeparator(d)
  {
    forall j | 0 <= j < |d| ensures d[j] != ':' {
      assert d[j] in d;
    }
  }

  lemma DigitsAreClean(d: string)
    requires IsDigits(d)
    ensures ':' !in d && ' ' !in d && NoSeparator(d)
  {
    forall k | 0 <= k < |d| ensures d[k] != ':' && d[k] != ' ' {
      assert IsDigit(d[k]);
    }
    ColonFree(d);
  }

  /** The text after the sample range holds no space and no "::", and it
      starts with ',' or ']'. */
  lemma RenderTailShape(c: ChannelSyntax)
    requires WellFormed(SliceSyntax(None, None, c))
    ensures RenderTail(c)[0] == ',' || RenderTail(c)[0] == ']'
    ensures ' ' !in RenderTail(c)
    ensures NoSeparator(RenderTail(c))
  {
    match c
    case NoChannelPart =>
    case RangePart(lo, hi) =>
      var g3, g4 := GroupText(lo), GroupText(hi);
      DigitsAreClean(g3);
      DigitsAreClean(g4);
      NoSeparatorAppend(g4, "]");
      NoSeparatorAppend(":", g4 + "]");
      NoSeparatorAppend(g3, ":" + (g4 + "]"));
      NoSeparatorAppend(",", g3 + (":" + (g4 + "]")));
    case IndexPart(e) =>
      DigitsAreClean(GroupText(e));
      NoSeparatorAppend(GroupText(e), "]");
      NoSeparatorAppend(",", GroupText(e) + "]");
  }

  /** A printed annotation starts with '[', holds no space and no "::". */
  lemma RenderShape(t: SliceSyntax)
    requires WellFormed(t)
    ensures Render(t)[0] == '['
    ensures ' ' !in Render(t)
    ensures NoSeparator(Render(t))
  {
    var g1, g2 := GroupText(t.start), GroupText(t.stop);
    var tail := RenderTail(t.channel);
    DigitsAreClean(g1);
    DigitsAreClean(g2);
    RenderTailShape(t.channel);
    NoSeparatorAppend(g2, tail);
    NoSeparatorAppend(":", g2 + tail);
    NoSeparatorAppend(g1, ":" + (g2 + tail));
    NoSeparatorAppend("[", g1 + (":" + (g2 + tail)));
  }
}
