/** The splitter itself: index-scanning loops and the loop that cuts the text. */
module SplitMessage {
  import opened Text
  import opened Split
  import opened SplitConservation
  import opened SplitCuts
  import opened SplitTermination

  method FindLastUnclosedCodeBlockInRange(runes: string, start: nat, end: nat) returns (index: int)
    requires start <= end <= |runes|
    ensures index == match Scan(runes, start, end, None) case None => -1 case Some(open) => open
  {
    var inCodeBlock, lastOpen := false, -1;
    var i := start;
    while i < end
      invariant start <= i
      invariant inCodeBlock ==> lastOpen >= 0
      invariant Scan(runes, start, end, None) == Scan(runes, i, end, if inCodeBlock then Some(lastOpen) else None)
    {
      if i + 2 < end && runes[i] == '`' && runes[i + 1] == '`' && runes[i + 2] == '`' {
        if !inCodeBlock {
          lastOpen := i;
        }
        inCodeBlock := !inCodeBlock;
        i := i + 2;
      }
      i := i + 1;
    }
    return if inCodeBlock then lastOpen else -1;
  }

  method FindNextClosingCodeBlockInRange(runes: string, start: nat, end: nat) returns (after: int)
    requires end <= |runes|
    ensures after == NextClosing(runes, start, end)
  {
    var i := start;
    while i < end
      invariant start <= i
      invariant NextClosing(runes, start, end) == NextClosing(runes, i, end)
    {
      if i + 2 < end && runes[i] == '`' && runes[i + 1] == '`' && runes[i + 2] == '`' {
        return i + 3;
      }
      i := i + 1;
    }
    return -1;
  }

  method FindNewlineFrom(runes: string, start: nat) returns (index: int)
    ensures index == NewlineFrom(runes, start)
  {
    var i := start;
    while i < |runes|
      invariant start <= i
      invariant NewlineFrom(runes, start) == NewlineFrom(runes, i)
    {
      if runes[i] == '\n' {
        return i;
      }
      i := i + 1;
    }
    return -1;
  }

  method FindLastNewlineInRange(runes: string, start: nat, end: nat, window: nat) returns (index: int)
    requires start <= end <= |runes|
    ensures index == LastInRange(runes, start, end, window, IsNewline)
  {
    var searchStart := Max(end - window, start);
    var i := end - 1;
    while i >= searchStart
      invariant searchStart - 1 <= i < end || i == end - 1
      invariant i >= -1
      invariant LastInRange(runes, start, end, window, IsNewline)
             == LastFrom(runes, searchStart, i + 1, start - 1, IsNewline)
    {
      if runes[i] == '\n' {
        return i;
      }
      i := i - 1;
    }
    return start - 1;
  }

  method FindLastSpaceInRange(runes: string, start: nat, end: nat, window: nat) returns (index: int)
    requires start <= end <= |runes|
    ensures index == LastInRange(runes, start, end, window, IsGap)
  {
    var searchStart := Max(end - window, start);
    var i := end - 1;
    while i >= searchStart
      invariant searchStart - 1 <= i < end || i == end - 1
      invariant i >= -1
      invariant LastInRange(runes, start, end, window, IsGap)
             == LastFrom(runes, searchStart, i + 1, start - 1, IsGap)
    {
      if runes[i] == ' ' || runes[i] == '\t' {
        return i;
      }
      i := i - 1;
    }
    return start - 1;
  }

  /**
   * One pass of the cutting loop: where the chunk ends, and the header to reopen if a fence is injected.
   * The two results determine the decision, which the loop then carries out.
   */
  method FindCut(runes: string, start: nat, maxLen: nat, limit: nat) returns (msgEnd: nat, reopened: Option<string>)
    requires maxLen > 0 && start + maxLen < |runes| && limit == Limit(maxLen)
    ensures match Decide(runes, start, maxLen)
            case Rest => false
            case Inject(_, end, header) => msgEnd == end && reopened == Some(header)
            case Plain(cut) => msgEnd == cut && reopened == None
            case Extend(_, end) => msgEnd == end && reopened == None
            case Before(_, end) => msgEnd == end && reopened == None
  {
    hide Limit, LastInRange, Scan, DecideOpen;
    var end := start + limit;
    var cut := FindLastNewlineInRange(runes, start, end, 200);
    if cut <= start {
      cut := FindLastSpaceInRange(runes, start, end, 100);
    }
    if cut <= start {
      cut := end;
    }
    assert cut == FirstCut(runes, start, maxLen);
    var unclosed := FindLastUnclosedCodeBlockInRange(runes, start, cut);
    if unclosed < 0 {
      return cut, None;
    }
    msgEnd, reopened := CutOpenBlock(runes, start, maxLen, cut, unclosed);
  }

  method CutOpenBlock(runes: string, start: nat, maxLen: nat, cut: nat, unclosed: nat)
    returns (msgEnd: nat, reopened: Option<string>)
    requires maxLen > 0 && start + maxLen < |runes| && FenceAt(runes, unclosed, |runes|)
    requires start <= unclosed && unclosed + 3 <= cut <= start + Limit(maxLen)
    ensures match DecideOpen(runes, start, maxLen, cut, unclosed)
            case Inject(_, end, header) => msgEnd == end && reopened == Some(header)
            case Extend(_, end) => msgEnd == end && reopened == None
            case Before(_, end) => msgEnd == end && reopened == None
            case _ => false
  {
    hide NextClosing, DecideInside;
    var closing := FindNextClosingCodeBlockInRange(runes, cut, |runes|);
    if closing > 0 && closing - start <= maxLen {
      return closing, None;
    }
    msgEnd, reopened := CutInsideBlock(runes, start, maxLen, cut, unclosed);
  }

  method FindHeader(runes: string, unclosed: nat) returns (header: string, headerEndIdx: nat)
    requires FenceAt(runes, unclosed, |runes|)
    ensures header == Header(runes, unclosed) && headerEndIdx == HeaderEnd(runes, unclosed)
  {
    hide TrimSpace, NewlineFrom;
    var headerEnd := FindNewlineFrom(runes, unclosed);
    header := TrimSpace(runes[unclosed..if headerEnd == -1 then unclosed + 3 else headerEnd]);
    headerEndIdx := unclosed + |header|;
    if headerEnd != -1 {
      headerEndIdx := headerEnd;
    }
  }

  method FindStopBefore(runes: string, start: nat, unclosed: nat) returns (newEnd: int)
    requires start <= unclosed <= |runes|
    ensures newEnd == StopBefore(runes, start, unclosed)
  {
    hide LastInRange;
    newEnd := FindLastNewlineInRange(runes, start, unclosed, 200);
    if newEnd <= start {
      newEnd := FindLastSpaceInRange(runes, start, unclosed, 100);
    }
  }

  method CutInsideBlock(runes: string, start: nat, maxLen: nat, cut: nat, unclosed: nat)
    returns (msgEnd: nat, reopened: Option<string>)
    requires maxLen > 0 && start + maxLen < |runes| && FenceAt(runes, unclosed, |runes|)
    requires start <= unclosed && unclosed + 3 <= cut <= start + Limit(maxLen)
    ensures match DecideInside(runes, start, maxLen, cut, unclosed)
            case Inject(_, end, header) => msgEnd == end && reopened == Some(header)
            case Before(_, end) => msgEnd == end && reopened == None
            case _ => false
  {
    hide LastInRange, StopBefore, Header, HeaderEnd;
    var header, headerEndIdx := FindHeader(runes, unclosed);
    if cut > headerEndIdx + 20 {
      var innerLimit := Min(start + maxLen - 5, |runes|);
      var betterEnd := FindLastNewlineInRange(runes, start, innerLimit, 200);
      return if betterEnd > headerEndIdx then betterEnd else innerLimit, Some(header);
    }
    var newEnd := FindStopBefore(runes, start, unclosed);
    if newEnd > start {
      return newEnd, None;
    }
    if unclosed - start > 20 {
      return unclosed, None;
    }
    return Min(start + maxLen - 5, |runes|), Some(header);
  }

  method SkipBlanks(runes: string, from: nat) returns (start: nat)
    requires from <= |runes|
    ensures start == SkipBlank(runes, from)
  {
    start := from;
    while start < |runes| && IsBlank(runes[start])
      invariant from <= start <= |runes|
      invariant SkipBlank(runes, from) == SkipBlank(runes, start)
    {
      start := start + 1;
    }
  }

  /** One iteration: the chunk it hands out, and the text and position it goes on with. */
  method NextChunk(runes: string, start: nat, maxLen: nat, limit: nat, ghost events: seq<Event>)
    returns (chunk: string, runes': string, start': nat, ghost reopened: Option<string>)
    requires maxLen > 0 && start < |runes| && limit == Limit(maxLen)
    ensures Next(State(runes, start, events), maxLen) == State(runes', start', events + [Event(chunk, reopened)])
    ensures start' <= |runes'|
  {
    hide Decide, Reopened, Closed, Limit;
    if |runes| - start <= maxLen {
      return runes[start..], runes, |runes|, None;
    }
    var msgEnd, header := FindCut(runes, start, maxLen, limit);
    if header.Some? {
      return Closed(runes[start..msgEnd]), Reopened(header.value, runes[msgEnd..]), 0, header;
    }
    start' := SkipBlanks(runes, msgEnd);
    return runes[start..msgEnd], runes, start', None;
  }

  lemma RunNext(content: string, maxLen: nat, n: nat)
    requires maxLen > 0
    ensures Run(content, maxLen, n + 1) == Step(Run(content, maxLen, n), maxLen)
    ensures Run(content, maxLen, 0) == State(content, 0, [])
  {
    hide Step;
  }

  lemma ChunksMore(events: seq<Event>, e: Event)
    ensures Chunks(events + [e]) == Chunks(events) + [e.chunk]
  {
  }

  /** A number of iterations after which the loop is through. */
  lemma EnoughRounds(content: string, maxLen: nat) returns (n: nat)
    requires maxLen > 0 && Terminates(content, maxLen)
    ensures Done(Run(content, maxLen, n))
    ensures Progressing(content, maxLen) ==> n == |content|
  {
    hide Run, Progressing;
    if Progressing(content, maxLen) {
      Ends(content, maxLen);
      n := |content|;
    } else {
      n :| Done(Run(content, maxLen, n));
    }
  }

  lemma NotYetThrough(content: string, maxLen: nat, rounds: nat, n: nat)
    requires maxLen > 0 && Done(Run(content, maxLen, n)) && !Done(Run(content, maxLen, rounds))
    ensures rounds < n
  {
    hide Run;
    if n <= rounds {
      StaysDone(content, maxLen, n, rounds);
      assert false;
    }
  }

  /**
   * Split content into chunks of at most maxLen runes, on every text on which the loop ends at all; `rounds` is the
   * number of iterations it takes. Progressing texts are among them (see Ends).
   */
  method SplitMessage(content: string, maxLen: int) returns (messages: seq<string>, ghost rounds: nat)
    requires maxLen > 0 ==> Terminates(content, maxLen)
    ensures maxLen <= 0 ==> messages == if content == "" then [] else [content]
    ensures maxLen > 0 ==> forall i :: 0 <= i < |messages| ==> |messages[i]| <= maxLen
    ensures maxLen > 0 ==> var s := Run(content, maxLen, rounds);
                           Done(s) && messages == Chunks(s.events) && Undo(s.events, []) == Some(Ink(content))
    ensures maxLen > 0 && Progressing(content, maxLen) ==> rounds <= |content|
    ensures maxLen > 0 && NoFence(content) ==> CutNaturally(content, Run(content, maxLen, rounds).events, maxLen)
  {
    hide Run, Next, Progressing, Terminates, Chunks, Undo, Ink, NoFence, CutNaturally;
    rounds := 0;
    if maxLen <= 0 {
      return if content == "" then [] else [content], 0;
    }
    var limit := Max(maxLen - Buffer(maxLen), maxLen / 2);
    var runes := content;
    var start: nat := 0;
    messages := [];
    ghost var events: seq<Event> := [];
    RunNext(content, maxLen, 0);
    ghost var n := EnoughRounds(content, maxLen);
    while start < |runes|
      invariant start <= |runes| && rounds <= n
      invariant Run(content, maxLen, rounds) == State(runes, start, events)
      invariant messages == Chunks(events)
      decreases n - rounds
    {
      NotYetThrough(content, maxLen, rounds, n);
      RunNext(content, maxLen, rounds);
      ghost var reopened;
      var chunk;
      chunk, runes, start, reopened := NextChunk(runes, start, maxLen, limit, events);
      ChunksMore(events, Event(chunk, reopened));
      events, rounds := events + [Event(chunk, reopened)], rounds + 1;
      messages := messages + [chunk];
    }
    ChunksFit(content, maxLen, rounds);
    Conservation(content, maxLen, rounds);
    if NoFence(content) {
      PlainCutsAreNatural(content, maxLen, rounds);
    }
    assert runes[start..] == [];
    InkOfSpaces([]);
  }
}
