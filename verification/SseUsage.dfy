/** Token usage reported inside a stream of server-sent events, read with a bounded buffer. */
module SseUsage {
  import opened Options
  import opened Text
  import opened Sse

  type Usage = (int, int)

  /** Parses the payload of an event and extracts the usage it reports, if any. */
  type Extractor = string -> Option<Usage>

  // ------------------------------------------------------------------ one event

  /** The values of the `data:` lines. */
  function DataLines(lines: seq<string>): seq<string> {
    if lines == [] then []
    else (if "data:" <= lines[0] then [LStrip(lines[0][5..])] else []) + DataLines(lines[1..])
  }

  /** The usage an event reports: events without data and the end marker report none. */
  function EventUsage(x: Extractor, event: string): Option<Usage> {
    var data := DataLines(Lines(event));
    if data == [] || JoinLines(data) == "[DONE]" then None else x(JoinLines(data))
  }

  /** The usage reported by the last event that reports any. */
  function LatestUsage(x: Extractor, events: seq<string>, start: Option<Usage>): Option<Usage> {
    if events == [] then start
    else
      var usage := EventUsage(x, events[|events| - 1]);
      if usage.Some? then usage else LatestUsage(x, events[..|events| - 1], start)
  }

  /** The latest usage is the one of the last event that reports any. */
  lemma {:induction false} LastReported(x: Extractor, events: seq<string>, start: Option<Usage>, i: nat)
    requires i < |events| && forall j | i < j < |events| :: EventUsage(x, events[j]).None?
    ensures EventUsage(x, events[i]).Some? ==> LatestUsage(x, events, start) == EventUsage(x, events[i])
  {
    var init := events[..|events| - 1];
    if i < |init| {
      LastReported(x, init, start, i);
    }
  }

  lemma {:induction false} NoneReported(x: Extractor, events: seq<string>, start: Option<Usage>)
    requires forall e <- events :: EventUsage(x, e).None?
    ensures LatestUsage(x, events, start) == start
  {
    if events != [] {
      assert events[|events| - 1] in events;
      NoneReported(x, events[..|events| - 1], start);
    }
  }

  lemma {:induction false} LatestUsageConcat(x: Extractor, a: seq<string>, b: seq<string>, start: Option<Usage>)
    ensures LatestUsage(x, a + b, start) == LatestUsage(x, b, LatestUsage(x, a, start))
  {
    if b == [] {
      assert a + b == a;
    } else {
      assert (a + b)[..|a + b| - 1] == a + b[..|b| - 1];
      LatestUsageConcat(x, a, b[..|b| - 1], start);
    }
  }

  lemma {:induction false} DataLinesConcat(a: seq<string>, b: seq<string>)
    ensures DataLines(a + b) == DataLines(a) + DataLines(b)
  {
    if a == [] {
      assert a + b == b;
    } else {
      assert (a + b)[1..] == a[1..] + b;
      DataLinesConcat(a[1..], b);
    }
  }

  lemma DataLinesSnoc(lines: seq<string>, i: nat)
    requires i < |lines|
    ensures DataLines(lines[..i + 1]) ==
            DataLines(lines[..i]) + if "data:" <= lines[i] then [LStrip(lines[i][5..])] else []
  {
    assert lines[..i + 1] == lines[..i] + [lines[i]];
    DataLinesConcat(lines[..i], [lines[i]]);
    assert DataLines([lines[i]]) == if "data:" <= lines[i] then [LStrip(lines[i][5..])] else [];
  }

  method CollectData(event: string) returns (data: seq<string>)
    ensures data == DataLines(Lines(event))
  {
    data := [];
    var lines := Lines(event);
    for i := 0 to |lines|
      invariant data == DataLines(lines[..i])
    {
      DataLinesSnoc(lines, i);
      if "data:" <= lines[i] {
        data := data + [LStrip(lines[i][5..])];
      }
    }
    assert lines[..|lines|] == lines;
  }

  // ------------------------------------------------------------------ what an event reports

  ghost predicate NoData(lines: seq<string>) {
    forall l <- lines :: !("data:" <= l)
  }

  /** A data line: white space after the colon does not belong to its value. */
  function DataLine(blank: string, value: string): string {
    "data:" + (blank + value)
  }

  lemma {:induction false} NoDataNoValues(lines: seq<string>)
    requires NoData(lines)
    ensures DataLines(lines) == []
  {
    if lines != [] {
      assert lines[0] in lines;
      forall l <- lines[1..] ensures !("data:" <= l) {
        assert l in lines;
      }
      NoDataNoValues(lines[1..]);
    }
  }

  lemma ValueOfDataLine(blank: string, value: string)
    requires Blank(blank) && (value != "" ==> !IsSpace(value[0]))
    ensures DataLines([DataLine(blank, value)]) == [value]
  {
    LStripExactly(blank, value);
    assert DataLine(blank, value)[5..] == blank + value;
  }

  /** Other lines around a data line make no difference. */
  lemma ValueAmongLines(before: seq<string>, blank: string, value: string, after: seq<string>)
    requires NoData(before) && Blank(blank) && (value != "" ==> !IsSpace(value[0]))
    ensures DataLines(before + [DataLine(blank, value)] + after) == [value] + DataLines(after)
  {
    DataLinesConcat(before + [DataLine(blank, value)], after);
    DataLinesConcat(before, [DataLine(blank, value)]);
    NoDataNoValues(before);
    ValueOfDataLine(blank, value);
    assert [] + [value] == [value];
  }

  ghost predicate InLines(lines: seq<string>) {
    lines != [] && forall l <- lines :: '\n' !in l
  }

  /** An event with one data line reports what its value reports; the end marker reports nothing. */
  lemma OneDataLine(x: Extractor, before: seq<string>, blank: string, value: string, after: seq<string>)
    requires InLines(before + [DataLine(blank, value)] + after)
    requires NoData(before) && NoData(after) && Blank(blank) && (value != "" ==> !IsSpace(value[0]))
    ensures EventUsage(x, JoinLines(before + [DataLine(blank, value)] + after)) ==
            if value == "[DONE]" then None else x(value)
  {
    var lines := before + [DataLine(blank, value)] + after;
    LinesOfJoined(lines);
    ValueAmongLines(before, blank, value, after);
    NoDataNoValues(after);
    assert DataLines(lines) == [value];
  }

  /** Two data lines are read as one payload, joined by a line feed. */
  lemma TwoDataLines(
    x: Extractor, before: seq<string>, blank: string, first: string, between: seq<string>,
    blank': string, second: string, after: seq<string>)
    requires InLines(before + [DataLine(blank, first)] + (between + [DataLine(blank', second)] + after))
    requires NoData(before) && NoData(between) && NoData(after) && Blank(blank) && Blank(blank')
    requires (first != "" ==> !IsSpace(first[0])) && (second != "" ==> !IsSpace(second[0]))
    ensures var lines := before + [DataLine(blank, first)] + (between + [DataLine(blank', second)] + after);
            EventUsage(x, JoinLines(lines)) == x(first + "\n" + second)
  {
    var rest := between + [DataLine(blank', second)] + after;
    LinesOfJoined(before + [DataLine(blank, first)] + rest);
    ValueAmongLines(before, blank, first, rest);
    ValueAmongLines(between, blank', second, after);
    NoDataNoValues(after);
    var data := [first] + ([second] + []);
    assert data == [first, second] && data[1..] == [second];
    assert JoinLines(data) == first + "\n" + second;
    assert (first + "\n" + second)[|first|] == '\n';
    assert '\n' !in "[DONE]";
  }

  /** An event without data lines reports nothing. */
  lemma WithoutDataLines(x: Extractor, lines: seq<string>)
    requires InLines(lines) && NoData(lines)
    ensures EventUsage(x, JoinLines(lines)) == None
  {
    LinesOfJoined(lines);
    NoDataNoValues(lines);
  }

  /** Takes the complete events out of the buffer plus one more fragment. A buffer that would
      exceed the bound is dropped. */
  method ConsumeSseEvents(
    buffer: string, fragment: string, maxBytes: int, x: Extractor, latest: Option<Usage>)
    returns (rest: string, usage: Option<Usage>, overflowed: bool)
    ensures overflowed <==> Utf8Size(Normalise(buffer + fragment)) > maxBytes
    ensures overflowed ==> rest == "" && usage == latest
    ensures !overflowed ==>
              var parts := Split(Normalise(buffer + fragment));
              rest == parts.rest && usage == LatestUsage(x, parts.events, latest)
  {
    rest, usage := Normalise(buffer + fragment), latest;
    ghost var whole := rest;
    if Utf8Size(rest) > maxBytes {
      return "", latest, true;
    }
    ghost var done: seq<string> := [];
    while FindBlank(rest).Some?
      invariant Split(whole) == Then(Parts(done, ""), Split(rest))
      invariant usage == LatestUsage(x, done, latest)
      decreases |rest|
    {
      var at := FindBlank(rest).value;
      var event := rest[..at];
      assert done + ([event] + Split(rest[at + 2..]).events) == (done + [event]) + Split(rest[at + 2..]).events;
      rest := rest[at + 2..];
      ghost var before := done;
      done := done + [event];
      assert done[..|done| - 1] == before;
      var data := CollectData(event);
      if data == [] || JoinLines(data) == "[DONE]" {
        continue;
      }
      var found := x(JoinLines(data));
      if found.Some? {
        usage := found;
      }
    }
    assert done + [] == done;
    overflowed := false;
  }

  // ------------------------------------------------------------------ bounded reading

  /** A reader stops for good once its buffer would exceed the bound. */
  datatype Reader = Reading(parts: Parts) | Overflowed

  function Take(r: Reader, fragment: string, maxBytes: int): Reader {
    match r
    case Overflowed => Overflowed
    case Reading(parts) =>
      if Utf8Size(Normalise(parts.rest + fragment)) > maxBytes then Overflowed
      else Reading(Next(parts, fragment))
  }

  function FeedBounded(fragments: seq<string>, maxBytes: int): Reader {
    if fragments == [] then Reading(Parts([], ""))
    else Take(FeedBounded(fragments[..|fragments| - 1], maxBytes), fragments[|fragments| - 1], maxBytes)
  }

  /** Short of an overflow the bound makes no difference, and what is retained respects it and
      holds no complete event. */
  lemma {:induction false} BoundIsInvisible(fragments: seq<string>, maxBytes: int)
    requires maxBytes >= 0 && FeedBounded(fragments, maxBytes).Reading?
    ensures FeedBounded(fragments, maxBytes).parts == Feed(fragments)
    ensures Utf8Size(Feed(fragments).rest) <= maxBytes && FindBlank(Feed(fragments).rest).None?
  {
    if fragments != [] {
      var before, last := fragments[..|fragments| - 1], fragments[|fragments| - 1];
      BoundIsInvisible(before, maxBytes);
      var now := Normalise(Feed(before).rest + last);
      SplitLosesNothing(now);
      Utf8SizeConcat(Joined(Split(now).events), Split(now).rest);
    }
  }

  /** Two cuttings of a text without CR CR LF that do not overflow leave the same tail and the
      same usage: those of normalising once, splitting at blank lines, and taking the last usage. */
  lemma SameUsageForAnyCut(a: seq<string>, b: seq<string>, maxBytes: int, x: Extractor)
    requires maxBytes >= 0 && Concat(a) == Concat(b) && !HasCrCrLf(Concat(a))
    requires FeedBounded(a, maxBytes).Reading? && FeedBounded(b, maxBytes).Reading?
    ensures FeedBounded(a, maxBytes) == FeedBounded(b, maxBytes) == Reading(ReadAll(Concat(a)))
    ensures LatestUsage(x, FeedBounded(a, maxBytes).parts.events, None) ==
            LatestUsage(x, Split(Normalise(Concat(a))).events, None)
  {
    BoundIsInvisible(a, maxBytes);
    BoundIsInvisible(b, maxBytes);
    FeedIsReadAll(a);
    FeedIsReadAll(b);
  }

  /** The bytes of the normalised text that have been taken out as complete events. */
  function Gone(text: string): int {
    Utf8Size(Normalise(text)) - Utf8Size(ReadAll(text).rest)
  }

  lemma {:induction false} NormalisedPrefixIsSmaller(a: string, b: string)
    ensures Utf8Size(Normalise(a)) <= Utf8Size(Normalise(a + b))
  {
    if a == "" {
    } else if StartsCrLf(a) {
      assert (a + b)[2..] == a[2..] + b;
      Utf8SizeConcat("\n", Normalise(a[2..]));
      NormalisedPrefixIsSmaller(a[2..], b);
    } else if CutsCrLf(a[..1], a[1..] + b) {
      assert Normalise(a) == a == "\r";
    } else {
      NormalisedPrefixIsSmaller(a[1..], b);
      NormaliseCons(a[0], a[1..] + b);
      assert a + b == [a[0]] + (a[1..] + b);
      Utf8SizeConcat([a[0]], Normalise(a[1..]));
      Utf8SizeConcat([a[0]], Normalise(a[1..] + b));
    }
  }

  /** The size the reader compares with its bound, in terms of the whole text. */
  lemma SizeSeen(text: string, fragment: string)
    requires !HasCrCrLf(text)
    ensures Utf8Size(Normalise(ReadAll(text).rest + fragment)) == Utf8Size(Normalise(text + fragment)) - Gone(text)
    ensures Gone(text) <= Gone(text + fragment)
  {
    var before := ReadAll(text);
    var now := Normalise(before.rest + fragment);
    NextSees(text, fragment);
    NextIsReadAll(text, fragment);
    SplitLosesNothing(Normalise(text));
    Utf8SizeConcat(Joined(before.events), before.rest);
    Utf8SizeConcat(Joined(before.events), now);
    SplitLosesNothing(now);
    Utf8SizeConcat(Joined(Split(now).events), Split(now).rest);
  }

  lemma {:induction false} ConcatSplits(a: seq<string>, b: seq<string>)
    ensures Concat(a + b) == Concat(a) + Concat(b)
  {
    if b == [] {
      assert a + b == a;
    } else {
      assert (a + b)[..|a + b| - 1] == a + b[..|b| - 1];
      ConcatSplits(a, b[..|b| - 1]);
    }
  }

  /** The size that a reader holding the tail of `text` would see of `longer`. */
  function Seen(text: string, longer: string): int {
    Utf8Size(Normalise(longer)) - Gone(text)
  }

  /** A fragment that fits still fits when it arrives in pieces. */
  lemma {:induction false} PiecesFit(before: seq<string>, pieces: seq<string>, maxBytes: int)
    requires maxBytes >= 0 && !HasCrCrLf(Concat(before + pieces))
    requires FeedBounded(before, maxBytes).Reading?
    requires Seen(Concat(before), Concat(before + pieces)) <= maxBytes
    ensures FeedBounded(before + pieces, maxBytes).Reading?
    ensures Gone(Concat(before)) <= Gone(Concat(before + pieces))
  {
    if pieces == [] {
      assert before + pieces == before;
    } else {
      var shorter, last := before + pieces[..|pieces| - 1], pieces[|pieces| - 1];
      assert before + pieces == shorter + [last];
      assert Concat(shorter + [last]) == Concat(shorter) + last by {
        assert (shorter + [last])[..|shorter|] == shorter;
      }
      CrCrLfOfPrefix(Concat(shorter), last);
      NormalisedPrefixIsSmaller(Concat(shorter), last);
      PiecesFit(before, pieces[..|pieces| - 1], maxBytes);
      OneMoreFits(shorter, last, maxBytes);
    }
  }

  lemma OneMoreFits(before: seq<string>, last: string, maxBytes: int)
    requires maxBytes >= 0 && !HasCrCrLf(Concat(before))
    requires FeedBounded(before, maxBytes).Reading?
    requires Seen(Concat(before), Concat(before) + last) <= maxBytes
    ensures FeedBounded(before + [last], maxBytes).Reading?
    ensures Gone(Concat(before)) <= Gone(Concat(before) + last)
  {
    BoundIsInvisible(before, maxBytes);
    FeedIsReadAll(before);
    SizeSeen(Concat(before), last);
    assert (before + [last])[..|before|] == before;
  }

  function Whole(groups: seq<seq<string>>): seq<string> {
    if groups == [] then [] else Whole(groups[..|groups| - 1]) + [Concat(groups[|groups| - 1])]
  }

  function Pieces(groups: seq<seq<string>>): seq<string> {
    if groups == [] then [] else Pieces(groups[..|groups| - 1]) + groups[|groups| - 1]
  }

  lemma {:induction false} SameText(groups: seq<seq<string>>)
    ensures Concat(Whole(groups)) == Concat(Pieces(groups))
  {
    if groups != [] {
      var init, last := groups[..|groups| - 1], groups[|groups| - 1];
      SameText(init);
      ConcatSplits(Pieces(init), last);
      assert Whole(groups)[..|groups| - 1] == Whole(init) by { WholeLength(groups); WholeLength(init); }
    }
  }

  lemma {:induction false} WholeLength(groups: seq<seq<string>>)
    ensures |Whole(groups)| == |groups|
  {
    if groups != [] {
      WholeLength(groups[..|groups| - 1]);
    }
  }

  /** Cutting finer never introduces an overflow: if a cutting stays within the bound, so does
      any cutting that splits its fragments further. */
  lemma {:induction false} FinerCutsFit(groups: seq<seq<string>>, maxBytes: int)
    requires maxBytes >= 0 && !HasCrCrLf(Concat(Pieces(groups)))
    requires FeedBounded(Whole(groups), maxBytes).Reading?
    ensures FeedBounded(Pieces(groups), maxBytes).Reading?
  {
    if groups != [] {
      var init, last := groups[..|groups| - 1], groups[|groups| - 1];
      WholeLength(groups);
      WholeLength(init);
      assert Whole(groups)[..|groups| - 1] == Whole(init);
      SameText(init);
      ConcatSplits(Pieces(init), last);
      CrCrLfOfPrefix(Concat(Pieces(init)), Concat(last));
      FinerCutsFit(init, maxBytes);
      BoundIsInvisible(Whole(init), maxBytes);
      FeedIsReadAll(Whole(init));
      SizeSeen(Concat(Whole(init)), Concat(last));
      assert Concat(Pieces(groups)) == Concat(Pieces(init)) + Concat(last);
      PiecesFit(Pieces(init), last, maxBytes);
    }
  }

  /** The final empty flush changes nothing. */
  lemma FlushChangesNothing(fragments: seq<string>, maxBytes: int)
    requires maxBytes >= 0 && !HasCrCrLf(Concat(fragments))
    requires FeedBounded(fragments, maxBytes).Reading?
    ensures FeedBounded(fragments + [""], maxBytes) == FeedBounded(fragments, maxBytes)
  {
    var text := Concat(fragments);
    BoundIsInvisible(fragments, maxBytes);
    FeedIsReadAll(fragments);
    assert text + "" == text;
    NextIsReadAll(text, "");
    SizeSeen(text, "");
    assert (fragments + [""])[..|fragments|] == fragments;
  }

  // ------------------------------------------------------------------ when cuts matter

  /** What the parser keeps of the fragments it was given: the tail and the latest usage. */
  function Kept(x: Extractor, fragments: seq<string>): (string, Option<Usage>) {
    (Feed(fragments).rest, LatestUsage(x, Feed(fragments).events, None))
  }

  /** However a text arrives, the parser keeps the same at each moment of it, for every extractor. */
  ghost predicate CutsDoNotMatter(text: string) {
    forall x: Extractor, a, b | Concat(a) == Concat(b) <= text :: Kept(x, a) == Kept(x, b)
  }

  /** Cuts do not matter exactly for the texts without CR CR LF: with one, the parser keeps different
      tails right after the first occurrence. */
  lemma CutsDoNotMatterIff(text: string)
    ensures CutsDoNotMatter(text) <==> !HasCrCrLf(text)
  {
    if HasCrCrLf(text) {
      var i := FindCrCrLf(text);
      assert text[..i + 3] == text[..i] + "\r\r\n";
      var a, b := EmptyFragmentMatters(text[..i]);
      assert Kept(_ => None, a) != Kept(_ => None, b);
    } else {
      forall x: Extractor, a, b | Concat(a) == Concat(b) <= text ensures Kept(x, a) == Kept(x, b) {
        SameForPrefix(text, a, b);
      }
    }
  }

  lemma SameForPrefix(text: string, a: seq<string>, b: seq<string>)
    requires !HasCrCrLf(text) && Concat(a) == Concat(b) <= text
    ensures Feed(a) == Feed(b)
  {
    var rest := text[|Concat(a)|..];
    assert Concat(a) + rest == text;
    CrCrLfOfPrefix(Concat(a), rest);
    FeedIsReadAll(a);
    FeedIsReadAll(b);
  }

  /** After CR CR LF even an empty fragment changes what the parser holds. */
  lemma EmptyFragmentMatters(before: string) returns (a: seq<string>, b: seq<string>)
    ensures Concat(a) == Concat(b) == before + "\r\r\n"
    ensures |Feed(b).rest| < |Feed(a).rest|
  {
    var text := before + "\r\r\n";
    a, b := [text], [text, ""];
    FeedOne(text);
    assert b[..1] == a && text + "" == text;
    var core := RestAfterCrCrLf(before);
    var held := core + "\r\n";
    assert held + "" == held;
    NormaliseConcat(core, "\r\n");
    NormaliseCrLfCons("");
    NormaliseShrinks(core);
    SplitLosesNothing(Normalise(held));
  }

  ghost predicate OneLine(s: string) {
    '\r' !in s && '\n' !in s
  }

  lemma {:induction false} BlankAfterLine(line: string, tail: string)
    requires OneLine(line)
    ensures FindBlank(line + tail) ==
            if FindBlank(tail).Some? then Some(|line| + FindBlank(tail).value) else None
  {
    if line == "" {
      assert line + tail == tail;
    } else {
      assert (line + tail)[1..] == line[1..] + tail;
      BlankAfterLine(line[1..], tail);
    }
  }

  lemma {:induction false} LineIsClean(line: string)
    requires OneLine(line)
    ensures Normalise(line) == line && Normalise(line + "\r") == line + "\r"
  {
    if line != "" {
      LineIsClean(line[1..]);
      assert (line + "\r")[1..] == line[1..] + "\r";
    }
  }

  lemma LineEnds()
    ensures Normalise("\r\n") == "\n" && Normalise("\r\n\r\r\n") == "\n\r\n"
    ensures Normalise("\n\r\n") == "\n\n" && Normalise("\r\r\n") == "\r\n"
  {
    NormaliseCrLfCons("\r\r\n");
    NormaliseCons('\r', "\r\n");
    NormaliseCons('\n', "\r\n");
    assert ['\r'] + "\r\n" == "\r\r\n" && ['\n'] + "\r\n" == "\n\r\n";
    assert "\r\n" + "\r\r\n" == "\r\n\r\r\n";
  }

  /** The line with its first line end, and with both at once. */
  lemma LineEndsAtOnce(line: string)
    requires OneLine(line)
    ensures Normalise(line + "\r\r\n") == line + "\r\n"
    ensures Normalise(line + "\r\r\n" + "\r\r\n") == line + "\r\n" + "\r\n"
  {
    LineIsClean(line);
    LineEnds();
    NormaliseConcat(line, "\r\r\n");
    NormaliseConcat(line + "\r\r\n", "\r\r\n");
  }

  /** The line with its second line end arriving later, and with nothing more arriving then. */
  lemma LineEndsOneByOne(line: string)
    requires OneLine(line)
    ensures Normalise(line + "\r\n" + "\r\r\n") == line + "\n\r\n"
    ensures Normalise(line + "\n\r\n" + "") == line + "\n\n"
  {
    LineIsClean(line);
    LineEnds();
    assert line + "\r\n" + "\r\r\n" == line + "\r\n\r\r\n";
    NormaliseConcat(line, "\r\n\r\r\n");
    assert line + "\n\r\n" + "" == line + "\n\r\n";
    NormaliseConcat(line, "\n\r\n");
  }

  lemma FeedSnoc(before: seq<string>, fragment: string)
    ensures Feed(before + [fragment]) == Next(Feed(before), fragment)
    ensures Concat(before + [fragment]) == Concat(before) + fragment
  {
    assert (before + [fragment])[..|before|] == before;
  }

  lemma FirstEvent(rest: string, fragment: string, line: string)
    requires Normalise(rest + fragment) == line + "\n\n" && OneLine(line)
    ensures Next(Parts([], rest), fragment) == Parts([line], "")
  {
    var now := line + "\n\n";
    BlankAfterLine(line, "\n\n");
    assert now[..|line|] == line && now[|line| + 2..] == "";
    assert Split(now) == Parts([line] + [], "");
  }

  lemma SeenAtOnce(line: string)
    requires OneLine(line)
    ensures Feed([line + "\r\r\n" + "\r\r\n"]) == Parts([], line + "\r\n" + "\r\n")
  {
    LineEndsAtOnce(line);
    FeedOne(line + "\r\r\n" + "\r\r\n");
    BlankAfterLine(line, "\r\n\r\n");
    assert FindBlank("\r\n\r\n").None?;
    assert line + "\r\n" + "\r\n" == line + "\r\n\r\n";
  }

  lemma SeenOneByOne(line: string)
    requires OneLine(line)
    ensures Feed([line + "\r\r\n"] + ["\r\r\n"] + [""]) == Parts([line], "")
  {
    LineEndsAtOnce(line);
    LineEndsOneByOne(line);
    FeedOne(line + "\r\r\n");
    BlankAfterLine(line, "\r\n");
    FeedSnoc([line + "\r\r\n"], "\r\r\n");
    BlankAfterLine(line, "\n\r\n");
    FeedSnoc([line + "\r\r\n"] + ["\r\r\n"], "");
    FirstEvent(line + "\n\r\n", "", line);
  }

  /** A usage that depends on the cuts: a reported event followed by two line ends of CR CR LF is not
      seen when it arrives at once, and is seen when each line end arrives for itself and the stream
      is then flushed. */
  lemma UsageDependsOnCuts(x: Extractor, line: string)
    requires OneLine(line) && EventUsage(x, line).Some?
    ensures var text := line + "\r\r\n" + "\r\r\n";
            var cut := [line + "\r\r\n"] + ["\r\r\n"] + [""];
            && Concat([text]) == text == Concat(cut)
            && LatestUsage(x, Feed([text]).events, None) == None
            && LatestUsage(x, Feed(cut).events, None) == EventUsage(x, line)
  {
    SeenAtOnce(line);
    SeenOneByOne(line);
    FeedOne(line + "\r\r\n" + "\r\r\n");
    FeedOne(line + "\r\r\n");
    FeedSnoc([line + "\r\r\n"], "\r\r\n");
    FeedSnoc([line + "\r\r\n"] + ["\r\r\n"], "");
  }
}
