/** The incremental reader of server-sent events: text arrives cut into fragments, complete events
    are taken out, and only the unfinished tail is kept. */
module Sse {
  import opened Options

  // ------------------------------------------------------------------ line endings

  /** Every CRLF becomes a LF, scanning from the left. */
  function Normalise(s: string): string {
    if s == "" then ""
    else if StartsCrLf(s) then "\n" + Normalise(s[2..])
    else [s[0]] + Normalise(s[1..])
  }

  predicate StartsCrLf(s: string) {
    |s| >= 2 && s[0] == '\r' && s[1] == '\n'
  }

  /** The text holds a CRLF somewhere. */
  predicate HasCrLf(s: string) {
    s != "" && (StartsCrLf(s) || HasCrLf(s[1..]))
  }

  /** The text holds a CR directly before a CRLF somewhere. */
  predicate HasCrCrLf(s: string) {
    s != "" && ((s[0] == '\r' && StartsCrLf(s[1..])) || HasCrCrLf(s[1..]))
  }

  /** The two texts meet in the middle of a CRLF. */
  predicate CutsCrLf(a: string, b: string) {
    a != "" && b != "" && a[|a| - 1] == '\r' && b[0] == '\n'
  }

  lemma NormaliseCons(c: char, s: string)
    requires !CutsCrLf([c], s)
    ensures Normalise([c] + s) == [c] + Normalise(s)
  {
    assert ([c] + s)[1..] == s;
  }

  lemma NormaliseCrLfCons(s: string)
    ensures Normalise("\r\n" + s) == "\n" + Normalise(s)
  {
    assert ("\r\n" + s)[2..] == s;
  }

  lemma NormaliseConsAppend(c: char, s: string, more: string)
    requires s != "" && !CutsCrLf([c], s)
    ensures Normalise(([c] + s) + more) == [c] + Normalise(s + more)
  {
    assert (s + more)[0] == s[0];
    assert ([c] + s) + more == [c] + (s + more);
    NormaliseCons(c, s + more);
  }

  lemma NormaliseCrLfAppend(s: string, more: string)
    ensures Normalise(("\r\n" + s) + more) == "\n" + Normalise(s + more)
  {
    assert ("\r\n" + s) + more == "\r\n" + (s + more);
    NormaliseCrLfCons(s + more);
  }

  lemma {:induction false} NormaliseConcat(a: string, b: string)
    requires !CutsCrLf(a, b)
    ensures Normalise(a + b) == Normalise(a) + Normalise(b)
  {
    if a == "" {
      assert a + b == b;
    } else if StartsCrLf(a) {
      NormaliseConcat(a[2..], b);
      assert a == "\r\n" + a[2..];
      NormaliseCrLfAppend(a[2..], b);
    } else if |a| == 1 {
      assert a == [a[0]] && Normalise(a) == a;
      NormaliseCons(a[0], b);
    } else {
      NormaliseConcat(a[1..], b);
      assert a == [a[0]] + a[1..];
      NormaliseConsAppend(a[0], a[1..], b);
    }
  }

  lemma {:induction false} NormaliseClean(s: string)
    requires !HasCrLf(s)
    ensures Normalise(s) == s
  {
    if s != "" {
      NormaliseClean(s[1..]);
    }
  }

  /** Without CR CR LF, normalising leaves no CRLF behind. */
  lemma {:induction false} NormalisedIsClean(s: string)
    requires !HasCrCrLf(s)
    ensures !HasCrLf(Normalise(s))
  {
    if s == "" {
    } else if StartsCrLf(s) {
      assert s[1..][1..] == s[2..];
      NormalisedIsClean(s[2..]);
      assert Normalise(s)[1..] == Normalise(s[2..]);
    } else {
      NormalisedIsClean(s[1..]);
      assert Normalise(s)[1..] == Normalise(s[1..]);
    }
  }

  /** Normalising the beginning of a text first makes no difference, as long as the beginning
      holds no CR CR LF. */
  lemma {:induction false} NormaliseAgain(s: string, more: string)
    requires !HasCrCrLf(s)
    ensures Normalise(Normalise(s) + more) == Normalise(s + more)
  {
    if s == "" {
      assert s + more == more;
    } else if StartsCrLf(s) {
      assert s[1..][1..] == s[2..];
      NormaliseAgain(s[2..], more);
      AgainAfterCrLf(s[2..], more);
      assert s == "\r\n" + s[2..];
    } else if |s| == 1 {
      assert s[1..] == "" && Normalise(s) == s;
    } else {
      NormaliseAgain(s[1..], more);
      AgainAfter(s[0], s[1..], more);
      assert s == [s[0]] + s[1..];
    }
  }

  lemma AgainAfterCrLf(rest: string, more: string)
    requires Normalise(Normalise(rest) + more) == Normalise(rest + more)
    ensures Normalise(Normalise("\r\n" + rest) + more) == Normalise(("\r\n" + rest) + more)
  {
    var n := Normalise(rest) + more;
    NormaliseCrLfAppend(rest, more);
    NormaliseCrLfCons(rest);
    assert ("\n" + Normalise(rest)) + more == ['\n'] + n;
    NormaliseCons('\n', n);
  }

  lemma AgainAfter(c: char, rest: string, more: string)
    requires rest != "" && (c == '\r' ==> rest[0] != '\n' && !StartsCrLf(rest))
    requires Normalise(Normalise(rest) + more) == Normalise(rest + more)
    ensures Normalise(Normalise([c] + rest) + more) == Normalise(([c] + rest) + more)
  {
    NormaliseConsAppend(c, rest, more);
    NormaliseCons(c, rest);
    NormaliseConsAppend(c, Normalise(rest), more);
  }

  lemma {:induction false} CrLfOfParts(a: string, b: string)
    ensures HasCrLf(a + b) <==> HasCrLf(a) || HasCrLf(b) || CutsCrLf(a, b)
  {
    if a == "" {
      assert a + b == b;
    } else {
      CrLfOfParts(a[1..], b);
      assert (a + b)[1..] == a[1..] + b;
      if |a| == 1 {
        assert a[1..] + b == b;
      }
    }
  }

  lemma {:induction false} CrCrLfOfPrefix(a: string, b: string)
    ensures HasCrCrLf(a) ==> HasCrCrLf(a + b)
  {
    if a != "" {
      CrCrLfOfPrefix(a[1..], b);
      assert (a + b)[1..] == a[1..] + b;
    }
  }

  // ------------------------------------------------------------------ blank lines

  /** The position of the first blank line. */
  function FindBlank(s: string): (r: Option<nat>)
    ensures r.Some? ==> r.value + 2 <= |s|
  {
    if |s| < 2 then None
    else if s[0] == '\n' && s[1] == '\n' then Some(0)
    else
      match FindBlank(s[1..])
      case Some(i) => Some(i + 1)
      case None => None
  }

  lemma {:induction false} BlankIsThere(s: string)
    ensures FindBlank(s).Some? ==>
              var i := FindBlank(s).value;
              s[i] == '\n' && s[i + 1] == '\n' && s == s[..i] + "\n\n" + s[i + 2..]
  {
    if |s| >= 2 {
      BlankIsThere(s[1..]);
    }
  }

  lemma {:induction false} BlankStays(s: string, more: string)
    ensures FindBlank(s).Some? ==> FindBlank(s + more) == FindBlank(s)
  {
    if |s| >= 2 {
      BlankStays(s[1..], more);
      assert (s + more)[1..] == s[1..] + more;
    }
  }

  /** A blank line that lies inside the first part of a text is found there. */
  lemma {:induction false} BlankInside(s: string, more: string, i: nat)
    requires FindBlank(s + more) == Some(i) && i + 2 <= |s|
    ensures FindBlank(s) == Some(i)
  {
    if i > 0 {
      assert (s + more)[1..] == s[1..] + more;
      BlankInside(s[1..], more, i - 1);
    }
  }

  /** Complete events, each ended by a blank line, and the unfinished text after the last. */
  datatype Parts = Parts(events: seq<string>, rest: string)

  function Split(s: string): (r: Parts)
    ensures FindBlank(r.rest).None?
    decreases |s|
  {
    match FindBlank(s)
    case None => Parts([], s)
    case Some(i) =>
      var tail := Split(s[i + 2..]);
      Parts([s[..i]] + tail.events, tail.rest)
  }

  function Then(before: Parts, now: Parts): Parts {
    Parts(before.events + now.events, now.rest)
  }

  /** Taking out the complete events early gives the same events and the same rest. */
  lemma {:induction false} SplitIncrementally(s: string, more: string)
    ensures Split(s + more) == Then(Split(s), Split(Split(s).rest + more))
    decreases |s|
  {
    match FindBlank(s)
    case None =>
      assert [] + Split(s + more).events == Split(s + more).events;
    case Some(i) =>
      BlankStays(s, more);
      assert (s + more)[i + 2..] == s[i + 2..] + more;
      assert (s + more)[..i] == s[..i];
      var tail := Split(s[i + 2..]);
      SplitIncrementally(s[i + 2..], more);
      var now := Split(tail.rest + more);
      assert [s[..i]] + (tail.events + now.events) == ([s[..i]] + tail.events) + now.events;
  }

  /** The text of complete events, blank lines included. */
  function Joined(events: seq<string>): string {
    if events == [] then "" else events[0] + "\n\n" + Joined(events[1..])
  }

  lemma {:induction false} SplitLosesNothing(s: string)
    ensures s == Joined(Split(s).events) + Split(s).rest
    decreases |s|
  {
    match FindBlank(s)
    case None =>
      assert "" + s == s;
    case Some(i) =>
      var tail := s[i + 2..];
      SplitLosesNothing(tail);
      BlankIsThere(s);
      var events := Split(s).events;
      assert events[1..] == Split(tail).events;
      assert s == (s[..i] + "\n\n") + (Joined(events[1..]) + Split(tail).rest);
  }

  lemma {:induction false} JoinedEnds(events: seq<string>)
    ensures var text := Joined(events);
            text != "" ==> |text| >= 2 && text[|text| - 1] == '\n' && text[|text| - 2] == '\n'
  {
    if events != [] {
      JoinedEnds(events[1..]);
    }
  }

  lemma {:induction false} JoinedConcat(a: seq<string>, b: seq<string>)
    ensures Joined(a + b) == Joined(a) + Joined(b)
  {
    if a == [] {
      assert a + b == b;
    } else {
      assert (a + b)[1..] == a[1..] + b;
      JoinedConcat(a[1..], b);
    }
  }

  /** Without its unfinished tail, a text splits into the same events and nothing else. */
  lemma {:induction false} SplitOwnText(whole: string)
    ensures Split(Joined(Split(whole).events)) == Parts(Split(whole).events, "")
    decreases |whole|
  {
    var events := Split(whole).events;
    match FindBlank(whole)
    case None =>
    case Some(i) =>
      var tail := whole[i + 2..];
      SplitOwnText(tail);
      assert events[1..] == Split(tail).events;
      SplitLosesNothing(whole);
      BlankInside(Joined(events), Split(whole).rest, i);
      assert Joined(events)[..i] == whole[..i];
      assert Joined(events)[i + 2..] == Joined(events[1..]);
  }

  // ------------------------------------------------------------------ fragments

  function Concat(fragments: seq<string>): string {
    if fragments == [] then "" else Concat(fragments[..|fragments| - 1]) + fragments[|fragments| - 1]
  }

  /** What the reader has taken out, and what it holds, after one more fragment. */
  function Next(before: Parts, fragment: string): Parts {
    Then(before, Split(Normalise(before.rest + fragment)))
  }

  function Feed(fragments: seq<string>): Parts {
    if fragments == [] then Parts([], "")
    else Next(Feed(fragments[..|fragments| - 1]), fragments[|fragments| - 1])
  }

  /** Reading the whole text at once: normalise, then split at blank lines. */
  function ReadAll(text: string): Parts {
    Split(Normalise(text))
  }

  /** What the reader sees of one more fragment is the normalised text, minus what it has taken
      out already. */
  lemma NextSees(text: string, fragment: string)
    requires !HasCrCrLf(text)
    ensures Normalise(text + fragment) ==
            Joined(ReadAll(text).events) + Normalise(ReadAll(text).rest + fragment)
  {
    var whole := Normalise(text);
    var taken, rest := Joined(Split(whole).events), Split(whole).rest;
    SplitLosesNothing(whole);
    NormalisedIsClean(text);
    CrLfOfParts(taken, rest);
    NormaliseClean(taken);
    JoinedEnds(Split(whole).events);
    NormaliseAgain(text, fragment);
    assert whole + fragment == taken + (rest + fragment);
    NormaliseConcat(taken, rest + fragment);
  }

  lemma NextIsReadAll(text: string, fragment: string)
    requires !HasCrCrLf(text)
    ensures Next(ReadAll(text), fragment) == ReadAll(text + fragment)
  {
    var before := ReadAll(text);
    NextSees(text, fragment);
    SplitOwnText(Normalise(text));
    var more := Normalise(before.rest + fragment);
    SplitIncrementally(Joined(before.events), more);
    assert "" + more == more;
  }

  /** Any cutting of a text without CR CR LF gives what reading it at once gives. */
  lemma {:induction false} FeedIsReadAll(fragments: seq<string>)
    requires !HasCrCrLf(Concat(fragments))
    ensures Feed(fragments) == ReadAll(Concat(fragments))
  {
    if fragments != [] {
      var before, last := fragments[..|fragments| - 1], fragments[|fragments| - 1];
      CrCrLfOfPrefix(Concat(before), last);
      FeedIsReadAll(before);
      NextIsReadAll(Concat(before), last);
    }
  }

  ghost predicate ChunkIndependent(text: string) {
    forall a, b | Concat(a) == text && Concat(b) == text :: Feed(a) == Feed(b)
  }

  /** Chunk independence holds exactly for the texts without CR CR LF. */
  lemma ChunkIndependentIff(text: string)
    ensures ChunkIndependent(text) <==> !HasCrCrLf(text)
  {
    if HasCrCrLf(text) {
      var i := FindCrCrLf(text);
      CutAfterCrCrLf(text[..i], text[i + 3..]);
      assert text == text[..i] + "\r\r\n" + text[i + 3..];
    } else {
      forall a, b | Concat(a) == text && Concat(b) == text ensures Feed(a) == Feed(b) {
        FeedIsReadAll(a);
        FeedIsReadAll(b);
      }
    }
  }

  lemma {:induction false} FindCrCrLf(s: string) returns (i: nat)
    requires HasCrCrLf(s)
    ensures i + 3 <= |s| && s[i..i + 3] == "\r\r\n"
  {
    if s[0] == '\r' && StartsCrLf(s[1..]) {
      i := 0;
    } else {
      i := FindCrCrLf(s[1..]);
      assert s[1..][i..i + 3] == s[i + 1..i + 4];
      i := i + 1;
    }
  }

  /** The length of everything the reader has seen after line endings were normalised. */
  function Extent(p: Parts): nat {
    |Joined(p.events)| + |p.rest|
  }

  /** Cutting right after a CR CR LF normalises its LF a second time and loses a character. */
  lemma CutAfterCrCrLf(before: string, after: string)
    ensures var text := before + "\r\r\n" + after;
            var cut := [before + "\r\r\n", after];
            Concat([text]) == text == Concat(cut) && Extent(Feed(cut)) < Extent(Feed([text]))
  {
    var head := before + "\r\r\n";
    var text := head + after;
    FeedOne(text);
    FeedOne(head);
    assert [head, after][..1] == [head];
    var core := RestAfterCrCrLf(before);
    var second := Normalise(core + "\r\n" + after);
    ExtentOfSplit(Normalise(text));
    ExtentOfSplit(Normalise(head));
    ExtentOfSplit(second);
    JoinedConcat(Split(Normalise(head)).events, Split(second).events);
    NormaliseConcat(head, after);
    SecondReadingShrinks(core, after);
  }

  lemma SecondReadingShrinks(core: string, after: string)
    ensures |Normalise(core + "\r\n" + after)| < |core + "\r\n"| + |Normalise(after)|
  {
    assert core + "\r\n" + after == core + ("\r\n" + after);
    NormaliseConcat(core, "\r\n" + after);
    NormaliseCrLfCons(after);
    NormaliseShrinks(core);
  }

  lemma ExtentOfSplit(s: string)
    ensures Extent(Split(s)) == |s|
  {
    SplitLosesNothing(s);
  }

  lemma FeedOne(text: string)
    ensures Concat([text]) == text && Feed([text]) == ReadAll(text)
  {
    assert [text][..0] == [];
    assert "" + text == text;
    assert [] + ReadAll(text).events == ReadAll(text).events;
  }

  lemma {:induction false} NormaliseShrinks(s: string)
    ensures |Normalise(s)| <= |s|
  {
    if s != "" {
      NormaliseShrinks(s[if StartsCrLf(s) then 2 else 1..]);
    }
  }

  /** After CR CR LF the reader holds text that ends in a CRLF. */
  lemma RestAfterCrCrLf(before: string) returns (core: string)
    ensures ReadAll(before + "\r\r\n").rest == core + "\r\n"
  {
    var start := Normalise(before);
    assert Normalise(before + "\r\r\n") == start + "\r\n" by {
      assert before + "\r\r\n" == (before + "\r") + "\r\n";
      NormaliseConcat(before + "\r", "\r\n");
      NormaliseConcat(before, "\r");
      assert Normalise("\r\n") == "\n" && Normalise("\r") == "\r";
      assert start + "\r" + "\n" == start + "\r\n";
    }
    core := SplitKeepsCrLf(start);
  }

  lemma SplitKeepsCrLf(start: string) returns (core: string)
    ensures Split(start + "\r\n").rest == core + "\r\n"
  {
    var whole := start + "\r\n";
    SplitLosesNothing(whole);
    JoinedEnds(Split(whole).events);
    core := TailKeepsCrLf(Joined(Split(whole).events), Split(whole).rest, start);
  }

  lemma TailKeepsCrLf(taken: string, rest: string, start: string) returns (core: string)
    requires taken + rest == start + "\r\n"
    requires taken != "" ==> |taken| >= 2 && taken[|taken| - 1] == '\n' && taken[|taken| - 2] == '\n'
    ensures rest == core + "\r\n"
  {
    var whole := start + "\r\n";
    assert whole[|start|] == '\r' && whole[|start| + 1] == '\n';
    assert taken != "" ==> whole[|taken| - 1] == '\n' && whole[|taken| - 2] == '\n';
    assert |taken| <= |start|;
    core := start[|taken|..];
    assert rest == whole[|taken|..];
  }
}
