/** The body of a streamed response: chunks pass through unchanged while their text is read for
    usage, and the end of the stream settles what is accounted. */
module Streaming {
  import opened Options
  import opened Text
  import opened Sse
  import opened SseUsage

  type Bytes = seq<bv8>

  /** One upstream chunk. `text` is what the incremental decoder makes of it (nothing on a decode
      error); `gone` says that the client is found disconnected when the chunk arrives. */
  datatype Chunk = Chunk(bytes: Bytes, text: Option<string>, gone: bool)

  /** How the iteration over the upstream chunks ends; at a regular end the decoder is flushed. */
  datatype Ending =
    | Exhausted(flush: Option<string>)
    | Cancelled
    | UpstreamFailed
    | OtherException

  datatype Accounting = RecordedUsage | MissingUsage | ParseError

  /** What is accounted for a request, and the usage charged. */
  datatype Settlement = Settlement(accounting: Accounting, usage: Option<Usage>)

  datatype StreamState = StreamState(latest: Option<Usage>, buffer: string, parsing: bool, parseError: bool)

  const FRESH := StreamState(None, "", true, false)

  /** The effect of a fragment of text on the usage parser. */
  function Read(st: StreamState, fragment: string, maxBytes: int, x: Extractor): StreamState {
    var seen := Normalise(st.buffer + fragment);
    if Utf8Size(seen) > maxBytes then StreamState(st.latest, "", false, true)
    else st.(buffer := Split(seen).rest, latest := LatestUsage(x, Split(seen).events, st.latest))
  }

  function Receive(st: StreamState, chunk: Chunk, maxBytes: int, x: Extractor): StreamState {
    if !st.parsing || chunk.bytes == [] then st
    else
      match chunk.text
      case None => st.(parsing := false, parseError := true)
      case Some(fragment) => Read(st, fragment, maxBytes, x)
  }

  function ReceiveAll(chunks: seq<Chunk>, maxBytes: int, x: Extractor): StreamState {
    if chunks == [] then FRESH
    else Receive(ReceiveAll(chunks[..|chunks| - 1], maxBytes, x), chunks[|chunks| - 1], maxBytes, x)
  }

  function Flush(st: StreamState, flush: Option<string>, maxBytes: int, x: Extractor): StreamState {
    if !st.parsing then st
    else
      match flush
      case None => st.(parsing := false, parseError := true)
      case Some(fragment) => Read(st, fragment, maxBytes, x)
  }

  /** Usage counts only for a successful upstream status. */
  function UsageSettlement(status: int, usage: Option<Usage>): Settlement {
    if 200 <= status < 300 && usage.Some? then Settlement(RecordedUsage, usage) else Settlement(MissingUsage, None)
  }

  /** What the end of the stream settles. */
  function Settle(
    st: StreamState, disconnected: bool, ending: Ending, status: int, maxBytes: int, x: Extractor): Settlement
  {
    if disconnected || ending.Cancelled? || ending.UpstreamFailed? then Settlement(MissingUsage, None)
    else
      var end := if ending.Exhausted? then Flush(st, ending.flush, maxBytes, x) else st;
      if end.parseError then Settlement(ParseError, None) else UsageSettlement(status, end.latest)
  }

  /** How many chunks arrive before the client is found disconnected. */
  function Delivered(chunks: seq<Chunk>): (n: nat)
    ensures n <= |chunks|
    ensures forall i | 0 <= i < n :: !chunks[i].gone
    ensures n < |chunks| ==> chunks[n].gone
  {
    if chunks == [] || chunks[0].gone then 0 else 1 + Delivered(chunks[1..])
  }

  function Raw(chunks: seq<Chunk>): (r: seq<Bytes>)
    ensures |r| == |chunks|
  {
    seq(|chunks|, i requires 0 <= i < |chunks| => chunks[i].bytes)
  }

  /** The streaming generator: what it yields is the upstream's chunks, byte for byte, up to the
      point where the client is gone, whatever became of the parser. */
  method StreamBytes(chunks: seq<Chunk>, ending: Ending, status: int, maxBytes: int, x: Extractor)
    returns (yielded: seq<Bytes>, settlement: Settlement)
    ensures yielded == Raw(chunks[..Delivered(chunks)])
    ensures settlement == Settle(ReceiveAll(chunks[..Delivered(chunks)], maxBytes, x), Delivered(chunks) < |chunks|,
                                 ending, status, maxBytes, x)
  {
    var latest: Option<Usage>, buffer, parsing, parseError := None, "", true, false;
    var disconnected := false;
    yielded := [];
    var i := 0;
    while i < |chunks| && !disconnected
      invariant i <= |chunks| && forall j | 0 <= j < i :: !chunks[j].gone
      invariant disconnected ==> i < |chunks| && chunks[i].gone
      invariant yielded == Raw(chunks[..i])
      invariant StreamState(latest, buffer, parsing, parseError) == ReceiveAll(chunks[..i], maxBytes, x)
      decreases |chunks| - i, !disconnected
    {
      var chunk := chunks[i];
      if chunk.gone {
        disconnected := true;
      } else {
        if parsing && chunk.bytes != [] {
          if chunk.text.None? {
            parsing, parseError := false, true;
          } else {
            var overflowed;
            buffer, latest, overflowed := ConsumeSseEvents(buffer, chunk.text.value, maxBytes, x, latest);
            if overflowed {
              buffer, parsing, parseError := "", false, true;
            }
          }
        }
        assert chunks[..i + 1][..i] == chunks[..i];
        yielded := yielded + [chunk.bytes];
        i := i + 1;
      }
    }
    DeliveredIs(chunks, i);
    settlement := FinishStream(StreamState(latest, buffer, parsing, parseError), disconnected, ending, status,
                               maxBytes, x);
  }

  lemma {:induction false} DeliveredIs(chunks: seq<Chunk>, n: nat)
    requires n <= |chunks| && (forall i | 0 <= i < n :: !chunks[i].gone) && (n < |chunks| ==> chunks[n].gone)
    ensures Delivered(chunks) == n
  {
    if n > 0 {
      DeliveredIs(chunks[1..], n - 1);
    }
  }

  method FinishStream(st: StreamState, disconnected: bool, ending: Ending, status: int, maxBytes: int, x: Extractor)
    returns (settlement: Settlement)
    ensures settlement == Settle(st, disconnected, ending, status, maxBytes, x)
  {
    var latest, parseError := st.latest, st.parseError;
    if ending.Exhausted? && st.parsing && !disconnected {
      if ending.flush.None? {
        parseError := true;
      } else {
        var rest, overflowed;
        rest, latest, overflowed := ConsumeSseEvents(st.buffer, ending.flush.value, maxBytes, x, latest);
        if overflowed {
          parseError := true;
        }
      }
    }
    if disconnected || ending.Cancelled? {
      return Settlement(MissingUsage, None);
    }
    if ending.UpstreamFailed? {
      return Settlement(MissingUsage, None);
    }
    if parseError {
      return Settlement(ParseError, None);
    }
    settlement := UsageSettlement(status, latest);
  }

  /** Until parsing is disabled the retained text respects the bound and holds no complete event;
      afterwards nothing is retained that could grow, and the stream charges no usage. */
  ghost predicate Bounded(st: StreamState, maxBytes: int) {
    && Utf8Size(st.buffer) <= maxBytes && FindBlank(st.buffer).None?
    && st.parsing == !st.parseError
  }

  lemma {:induction false} MemoryIsBounded(chunks: seq<Chunk>, maxBytes: int, x: Extractor)
    requires maxBytes >= 0
    ensures Bounded(ReceiveAll(chunks, maxBytes, x), maxBytes)
  {
    if chunks != [] {
      var before, last := ReceiveAll(chunks[..|chunks| - 1], maxBytes, x), chunks[|chunks| - 1];
      MemoryIsBounded(chunks[..|chunks| - 1], maxBytes, x);
      if last.text.Some? {
        var seen := Normalise(before.buffer + last.text.value);
        SplitLosesNothing(seen);
        Utf8SizeConcat(Joined(Split(seen).events), Split(seen).rest);
      }
    }
  }

  lemma {:induction false} DisabledForGood(chunks: seq<Chunk>, more: seq<Chunk>, maxBytes: int, x: Extractor)
    requires maxBytes >= 0 && !ReceiveAll(chunks, maxBytes, x).parsing
    ensures ReceiveAll(chunks + more, maxBytes, x) == ReceiveAll(chunks, maxBytes, x)
    ensures forall disconnected, ending, status ::
              Settle(ReceiveAll(chunks + more, maxBytes, x), disconnected, ending, status, maxBytes, x).usage == None
  {
    if more == [] {
      assert chunks + more == chunks;
      MemoryIsBounded(chunks, maxBytes, x);
    } else {
      assert (chunks + more)[..|chunks + more| - 1] == chunks + more[..|more| - 1];
      DisabledForGood(chunks, more[..|more| - 1], maxBytes, x);
    }
  }

  // ------------------------------------------------------------------ the usage of a whole stream

  /** The decoded text of the chunks that carry any bytes. */
  function Texts(chunks: seq<Chunk>): seq<string> {
    if chunks == [] then []
    else
      var last := chunks[|chunks| - 1];
      Texts(chunks[..|chunks| - 1]) + if last.bytes == [] || last.text.None? then [] else [last.text.value]
  }

  ghost predicate AllDecoded(chunks: seq<Chunk>) {
    forall c <- chunks :: c.bytes != [] ==> c.text.Some?
  }

  /** The parser state that stands for what a reader has taken out and holds. */
  function StateOf(parts: Parts, x: Extractor): StreamState {
    StreamState(LatestUsage(x, parts.events, None), parts.rest, true, false)
  }

  lemma ReadFollowsReader(parts: Parts, text: string, maxBytes: int, x: Extractor)
    ensures var st := Read(StateOf(parts, x), text, maxBytes, x);
            match Take(Reading(parts), text, maxBytes)
            case Reading(next) => st == StateOf(next, x)
            case Overflowed => !st.parsing && st.parseError
  {
    LatestUsageConcat(x, parts.events, Split(Normalise(parts.rest + text)).events, None);
  }

  /** The parser state is that of the bounded reader of the decoded text. */
  lemma {:induction false} StateFollowsReader(chunks: seq<Chunk>, maxBytes: int, x: Extractor)
    requires maxBytes >= 0 && AllDecoded(chunks)
    ensures var st := ReceiveAll(chunks, maxBytes, x);
            match FeedBounded(Texts(chunks), maxBytes)
            case Reading(parts) => st == StateOf(parts, x)
            case Overflowed => !st.parsing && st.parseError
  {
    if chunks != [] {
      var init, last := chunks[..|chunks| - 1], chunks[|chunks| - 1];
      StateFollowsReader(init, maxBytes, x);
      assert last in chunks;
      if last.bytes == [] {
        assert Texts(chunks) == Texts(init);
      } else {
        assert Texts(chunks)[..|Texts(init)|] == Texts(init);
        if FeedBounded(Texts(init), maxBytes).Reading? {
          ReadFollowsReader(FeedBounded(Texts(init), maxBytes).parts, last.text.value, maxBytes, x);
        }
      }
    }
  }

  /** A stream that ends regularly, decodes, stays within the bound and holds no CR CR LF settles
      with the last usage of its whole text, however the upstream cut it into chunks. */
  lemma SettlesWithLastUsage(chunks: seq<Chunk>, status: int, maxBytes: int, x: Extractor)
    requires maxBytes >= 0 && AllDecoded(chunks)
    requires !HasCrCrLf(Concat(Texts(chunks))) && FeedBounded(Texts(chunks), maxBytes).Reading?
    ensures Settle(ReceiveAll(chunks, maxBytes, x), false, Exhausted(Some("")), status, maxBytes, x) ==
            UsageSettlement(status, LatestUsage(x, Split(Normalise(Concat(Texts(chunks)))).events, None))
  {
    var texts := Texts(chunks);
    StateFollowsReader(chunks, maxBytes, x);
    SameUsageForAnyCut(texts, texts, maxBytes, x);
    FlushChangesNothing(texts, maxBytes);
    EmptyFlush(texts, maxBytes, x);
  }

  lemma EmptyFlush(texts: seq<string>, maxBytes: int, x: Extractor)
    requires FeedBounded(texts, maxBytes).Reading?
             && FeedBounded(texts + [""], maxBytes) == FeedBounded(texts, maxBytes)
    ensures var parts := FeedBounded(texts, maxBytes).parts;
            var st := StateOf(parts, x);
            Read(st, "", maxBytes, x) == st
  {
    var parts := FeedBounded(texts, maxBytes).parts;
    assert (texts + [""])[..|texts|] == texts;
    var again := Split(Normalise(parts.rest + ""));
    assert |parts.events + again.events| == |parts.events|;
  }

  // ------------------------------------------------------------------ what a stream settles

  /** The iteration over the chunks ends neither by cancellation nor by an upstream failure. */
  predicate EndsWell(ending: Ending) {
    ending.Exhausted? || ending.OtherException?
  }

  /** All text of the stream, the flush of the decoder at a regular end included. */
  function WholeTexts(chunks: seq<Chunk>, ending: Ending): seq<string> {
    Texts(chunks) + if ending.Exhausted? && ending.flush.Some? then [ending.flush.value] else []
  }

  /** Everything decodes, and the bounded reader gets through it. */
  ghost predicate Readable(chunks: seq<Chunk>, ending: Ending, maxBytes: int) {
    && AllDecoded(chunks) && (ending.Exhausted? ==> ending.flush.Some?)
    && FeedBounded(WholeTexts(chunks, ending), maxBytes).Reading?
  }

  lemma {:induction false} UndecodedDisables(chunks: seq<Chunk>, maxBytes: int, x: Extractor)
    requires maxBytes >= 0 && !AllDecoded(chunks)
    ensures !ReceiveAll(chunks, maxBytes, x).parsing && ReceiveAll(chunks, maxBytes, x).parseError
  {
    var init, last := chunks[..|chunks| - 1], chunks[|chunks| - 1];
    MemoryIsBounded(chunks, maxBytes, x);
    if !AllDecoded(init) {
      UndecodedDisables(init, maxBytes, x);
    } else {
      assert forall c <- chunks :: c in init || c == last;
      assert last.bytes != [] && last.text.None?;
    }
  }

  /** The state when the iteration is over: a parse error exactly if the stream is not readable, and
      otherwise the last usage of its text. */
  function AtEnd(chunks: seq<Chunk>, ending: Ending, maxBytes: int, x: Extractor): StreamState {
    var st := ReceiveAll(chunks, maxBytes, x);
    if ending.Exhausted? then Flush(st, ending.flush, maxBytes, x) else st
  }

  lemma EndStateTells(chunks: seq<Chunk>, ending: Ending, maxBytes: int, x: Extractor)
    requires maxBytes >= 0
    ensures AtEnd(chunks, ending, maxBytes, x).parseError <==> !Readable(chunks, ending, maxBytes)
    ensures Readable(chunks, ending, maxBytes) ==>
              AtEnd(chunks, ending, maxBytes, x).latest ==
              LatestUsage(x, FeedBounded(WholeTexts(chunks, ending), maxBytes).parts.events, None)
  {
    if !AllDecoded(chunks) {
      UndecodedDisables(chunks, maxBytes, x);
    } else {
      StateFollowsReader(chunks, maxBytes, x);
      var texts := Texts(chunks);
      if ending.Exhausted? && ending.flush.Some? {
        var flush := ending.flush.value;
        assert (texts + [flush])[..|texts|] == texts;
        if FeedBounded(texts, maxBytes).Reading? {
          ReadFollowsReader(FeedBounded(texts, maxBytes).parts, flush, maxBytes, x);
        }
      } else {
        assert texts + [] == texts;
      }
    }
  }

  /** What a stream settles, in terms of its text: the last usage is charged exactly when the client
      stays, the iteration ends well, the stream is readable and the status is a success; it is a
      parse error exactly when the client stays, the iteration ends well and it is not readable. */
  lemma SettlesExactly(chunks: seq<Chunk>, ending: Ending, status: int, maxBytes: int, x: Extractor)
    requires maxBytes >= 0
    ensures var n := Delivered(chunks);
            var settled := Settle(ReceiveAll(chunks[..n], maxBytes, x), n < |chunks|, ending, status, maxBytes, x);
            var proper := n == |chunks| && EndsWell(ending);
            && (settled.usage ==
                if proper && Readable(chunks, ending, maxBytes) && 200 <= status < 300
                then LatestUsage(x, FeedBounded(WholeTexts(chunks, ending), maxBytes).parts.events, None) else None)
            && (settled.accounting == ParseError <==> proper && !Readable(chunks, ending, maxBytes))
            && (settled.accounting == RecordedUsage <==> settled.usage.Some?)
  {
    if Delivered(chunks) == |chunks| {
      assert chunks[..|chunks|] == chunks;
      EndStateTells(chunks, ending, maxBytes, x);
    }
  }
}
