/** Where the splitter cuts, said of the runes themselves and not of the scans that find the places. */
module SplitCuts {
  import opened Text
  import opened Split
  import opened SplitConservation

  // ----- the natural split point -------------------------------------------------------------------------

  predicate NoneIn(runes: string, lo: int, hi: int, kind: char -> bool)
    requires hi <= |runes|
  {
    forall i :: 0 <= i && lo <= i < hi ==> !kind(runes[i])
  }

  predicate IsLastIn(runes: string, lo: int, hi: int, cut: int, kind: char -> bool)
    requires hi <= |runes|
  {
    0 <= cut && lo <= cut < hi && kind(runes[cut]) && NoneIn(runes, cut + 1, hi, kind)
  }

  /** There is no newline in the last 200 runes before the end, and no space or tab in the last 100, after the start. */
  predicate NoBreak(runes: string, start: nat, end: nat)
    requires end <= |runes|
  {
    NoneIn(runes, Max(end - 200, start + 1), end, IsNewline) && NoneIn(runes, Max(end - 100, start + 1), end, IsGap)
  }

  /** The last newline among those, or the last space or tab if there is no such newline. */
  predicate BreaksAt(runes: string, start: nat, end: nat, cut: int)
    requires end <= |runes|
  {
    if NoneIn(runes, Max(end - 200, start + 1), end, IsNewline)
    then IsLastIn(runes, Max(end - 100, start + 1), end, cut, IsGap)
    else IsLastIn(runes, Max(end - 200, start + 1), end, cut, IsNewline)
  }

  lemma LastIff(runes: string, start: nat, end: nat, window: nat, kind: char -> bool, cut: int)
    requires start <= end <= |runes| && window > 0
    ensures var r := LastInRange(runes, start, end, window, kind);
            && (r <= start <==> NoneIn(runes, Max(end - window, start + 1), end, kind))
            && (cut == r && r > start <==> IsLastIn(runes, Max(end - window, start + 1), end, cut, kind))
  {
    hide LastInRange;
  }

  lemma BreakIff(runes: string, start: nat, end: nat, cut: int)
    requires start <= end <= |runes|
    ensures var newline := LastInRange(runes, start, end, 200, IsNewline);
            var r := if newline > start then newline else LastInRange(runes, start, end, 100, IsGap);
            && (r <= start <==> NoBreak(runes, start, end))
            && (cut == r && r > start <==> BreaksAt(runes, start, end, cut))
  {
    hide LastInRange, NoneIn, IsLastIn;
    LastIff(runes, start, end, 200, IsNewline, cut);
    LastIff(runes, start, end, 100, IsGap, cut);
  }

  /** Half of maxLen up to 99 runes, all but 50 up to 499, and nine tenths, rounded up, from then on. */
  lemma LimitIs(maxLen: nat)
    requires maxLen > 0
    ensures Limit(maxLen) == maxLen - if maxLen < 100 then maxLen / 2 else if maxLen < 500 then 50 else maxLen / 10
  {
  }

  /** A newline if there is one, else a space or tab, else the limit: each in its window before the limit. */
  predicate NaturalCut(runes: string, start: nat, maxLen: nat, cut: int)
    requires maxLen > 0 && start + maxLen < |runes|
  {
    var end := start + Limit(maxLen);
    if NoBreak(runes, start, end) then cut == end else BreaksAt(runes, start, end, cut)
  }

  lemma FirstCutIff(runes: string, start: nat, maxLen: nat, cut: int)
    requires maxLen > 0 && start + maxLen < |runes|
    ensures cut == FirstCut(runes, start, maxLen) <==> NaturalCut(runes, start, maxLen, cut)
  {
    hide LastInRange, NoBreak, BreaksAt, Limit;
    BreakIff(runes, start, start + Limit(maxLen), cut);
  }

  // ----- text without fences -------------------------------------------------------------------------------

  lemma NoneInSuffix(runes: string, start: nat, lo: int, hi: int, kind: char -> bool)
    requires start <= lo && start <= hi <= |runes|
    ensures NoneIn(runes, lo, hi, kind) <==> NoneIn(runes[start..], lo - start, hi - start, kind)
  {
    forall i | 0 <= i && lo <= i < hi
      ensures runes[i] == runes[start..][i - start]
    {
    }
  }

  lemma CutInSuffix(runes: string, start: nat, maxLen: nat, cut: int)
    requires maxLen > 0 && start + maxLen < |runes|
    ensures NaturalCut(runes, start, maxLen, cut) <==> NaturalCut(runes[start..], 0, maxLen, cut - start)
  {
    hide NoneIn, Limit;
    var end := start + Limit(maxLen);
    NoneInSuffix(runes, start, Max(end - 200, start + 1), end, IsNewline);
    NoneInSuffix(runes, start, Max(end - 100, start + 1), end, IsGap);
    if start < cut < end {
      NoneInSuffix(runes, start, cut + 1, end, IsNewline);
      NoneInSuffix(runes, start, cut + 1, end, IsGap);
      assert runes[cut] == runes[start..][cut - start];
    }
  }

  /** Chunk by chunk: all that is left if it fits, and else what stands before the natural split point. */
  predicate CutNaturally(content: string, events: seq<Event>, maxLen: nat)
    requires maxLen > 0
  {
    forall k :: 0 <= k < |events| ==> ChunkIsNatural(Peel(content, events[..k]), events[k].chunk, maxLen)
  }

  predicate ChunkIsNatural(left: Option<string>, chunk: string, maxLen: nat)
    requires maxLen > 0
  {
    left.Some? &&
    if |left.value| <= maxLen then chunk == left.value
    else chunk <= left.value && NaturalCut(left.value, 0, maxLen, |chunk|)
  }

  lemma CutMore(content: string, events: seq<Event>, e: Event, maxLen: nat)
    requires maxLen > 0 && CutNaturally(content, events, maxLen)
    requires ChunkIsNatural(Peel(content, events), e.chunk, maxLen)
    ensures CutNaturally(content, events + [e], maxLen)
  {
    hide Peel, ChunkIsNatural;
    var more := events + [e];
    assert more[..|events|] == events;
    forall k | 0 <= k < |more|
      ensures ChunkIsNatural(Peel(content, more[..k]), more[k].chunk, maxLen)
    {
      assert k < |events| ==> more[..k] == events[..k];
    }
  }

  lemma PlainChunkIsNatural(content: string, start: nat, maxLen: nat)
    requires maxLen > 0 && start + maxLen < |content|
    ensures ChunkIsNatural(Some(content[start..]), content[start..FirstCut(content, start, maxLen)], maxLen)
  {
    hide FirstCut, NaturalCut;
    var cut := FirstCut(content, start, maxLen);
    FirstCutIff(content, start, maxLen, cut);
    CutInSuffix(content, start, maxLen, cut);
    assert content[start..cut] == content[start..][..cut - start];
  }

  lemma StepCutsNaturally(s: State, maxLen: nat, content: string)
    requires maxLen > 0 && NoFence(content) && Peels(s, content) && CutNaturally(content, s.events, maxLen)
    ensures Peels(Step(s, maxLen), content) && CutNaturally(content, Step(s, maxLen).events, maxLen)
  {
    StepPeels(s, maxLen, content);
    if !Done(s) {
      FenceFreeDecision(s.runes, s.start, maxLen);
      var e := NewEvent(s, maxLen);
      hide Decide, FirstCut, NaturalCut, Peel, Step, CutNaturally, NoFence;
      if |content| - s.start > maxLen {
        PlainChunkIsNatural(content, s.start, maxLen);
      }
      CutMore(content, s.events, e, maxLen);
    }
  }

  lemma NewEvent(s: State, maxLen: nat) returns (e: Event)
    requires maxLen > 0 && !Done(s)
    requires Decide(s.runes, s.start, maxLen).Rest? || Decide(s.runes, s.start, maxLen).Plain?
    ensures e.chunk == if |s.runes| - s.start <= maxLen then s.runes[s.start..]
                       else s.runes[s.start..FirstCut(s.runes, s.start, maxLen)]
    ensures Step(s, maxLen).events == s.events + [e]
  {
    e := Step(s, maxLen).events[|s.events|];
  }

  /**
   * For text without a fence, after any number of iterations: every chunk but one that takes all that is left ends at
   * the last newline of its window, else at the last space or tab of a smaller one, else at the limit.
   */
  lemma PlainCutsAreNatural(content: string, maxLen: nat, n: nat)
    requires maxLen > 0 && NoFence(content)
    ensures CutNaturally(content, Run(content, maxLen, n).events, maxLen)
  {
    hide Peels, NoFence, CutNaturally;
    forall s | Peels(s, content) && CutNaturally(content, s.events, maxLen)
      ensures Peels(Step(s, maxLen), content) && CutNaturally(content, Step(s, maxLen).events, maxLen)
    {
      StepCutsNaturally(s, maxLen, content);
    }
    var init := State(content, 0, []);
    assert Peels(init, content) && CutNaturally(content, [], maxLen) by { NothingCut(content, maxLen); }
    Invariant(Stepper(maxLen), s => Peels(s, content) && CutNaturally(content, s.events, maxLen), init, n);
  }

  lemma NothingCut(content: string, maxLen: nat)
    requires maxLen > 0
    ensures Peels(State(content, 0, []), content) && CutNaturally(content, [], maxLen)
  {
    assert content[0..] == content;
  }

  // ----- which block is open -------------------------------------------------------------------------------

  /** One past the fence before the k-th, or the start. */
  function Behind(start: nat, fences: seq<nat>, k: nat): nat
    requires k <= |fences|
  {
    if k == 0 then start else fences[k - 1] + 3
  }

  /** The fences of a stretch from the left: each begins behind the one before, and none is left out. */
  predicate AreFences(runes: string, start: nat, end: nat, fences: seq<nat>)
    requires end <= |runes|
  {
    && (forall k :: 0 <= k < |fences| ==>
          && FenceAt(runes, fences[k], end) && Behind(start, fences, k) <= fences[k]
          && NoFenceIn(runes, Behind(start, fences, k), fences[k], end))
    && NoFenceIn(runes, Behind(start, fences, |fences|), end, end)
  }

  predicate NoFenceIn(runes: string, lo: int, hi: int, end: nat)
    requires end <= |runes|
  {
    forall i :: 0 <= i && lo <= i < hi ==> !FenceAt(runes, i, end)
  }

  lemma {:induction false} ScanAcross(runes: string, i: nat, stop: nat, end: nat, open: Option<nat>)
    requires i <= stop && end <= |runes| && (stop <= end || stop == i) && NoFenceIn(runes, i, stop, end)
    ensures Scan(runes, i, end, open) == Scan(runes, stop, end, open)
    decreases stop - i
  {
    if i < stop {
      ScanAcross(runes, i + 1, stop, end, open);
    }
  }

  lemma {:induction false} ScanCounts(runes: string, start: nat, end: nat, fences: seq<nat>, open: Option<nat>)
    requires end <= |runes| && AreFences(runes, start, end, fences)
    ensures Scan(runes, start, end, open) ==
            if fences == [] then open
            else if (|fences| % 2 == 1) == open.None? then Some(fences[|fences| - 1]) else None
    decreases |fences|
  {
    hide Scan, AreFences, FenceAt, NoFenceIn;
    if fences == [] {
      ScanNone(runes, start, end, open);
    } else {
      var first, rest := fences[0], fences[1..];
      FirstFence(runes, start, end, fences);
      ScanAcross(runes, start, first, end, open);
      var next := if open.None? then Some(first) else None;
      ScanFence(runes, first, end, open);
      RestAreFences(runes, start, end, fences);
      ScanCounts(runes, first + 3, end, rest, next);
    }
  }

  lemma ScanNone(runes: string, start: nat, end: nat, open: Option<nat>)
    requires end <= |runes| && AreFences(runes, start, end, [])
    ensures Scan(runes, start, end, open) == open
  {
    hide Scan, FenceAt;
    if start < end {
      ScanAcross(runes, start, end, end, open);
    }
    ScanEnd(runes, Max(start, end), end, open);
  }

  lemma FirstFence(runes: string, start: nat, end: nat, fences: seq<nat>)
    requires end <= |runes| && fences != [] && AreFences(runes, start, end, fences)
    ensures FenceAt(runes, fences[0], end) && start <= fences[0] && NoFenceIn(runes, start, fences[0], end)
  {
  }

  lemma ScanEnd(runes: string, i: nat, end: nat, open: Option<nat>)
    requires end <= |runes|
    ensures i >= end ==> Scan(runes, i, end, open) == open
  {
  }

  lemma ScanFence(runes: string, i: nat, end: nat, open: Option<nat>)
    requires end <= |runes| && FenceAt(runes, i, end)
    ensures Scan(runes, i, end, open) == Scan(runes, i + 3, end, if open.None? then Some(i) else None)
  {
  }

  lemma RestAreFences(runes: string, start: nat, end: nat, fences: seq<nat>)
    requires end <= |runes| && fences != [] && AreFences(runes, start, end, fences)
    ensures AreFences(runes, fences[0] + 3, end, fences[1..])
  {
    hide FenceAt, NoFenceIn;
    var rest := fences[1..];
    forall k | 0 <= k < |rest|
      ensures FenceAt(runes, rest[k], end) && Behind(fences[0] + 3, rest, k) <= rest[k]
      ensures NoFenceIn(runes, Behind(fences[0] + 3, rest, k), rest[k], end)
    {
      assert rest[k] == fences[k + 1] && Behind(fences[0] + 3, rest, k) == Behind(start, fences, k + 1);
    }
  }

  lemma MoreFences(runes: string, start: nat, end: nat, first: nat, rest: seq<nat>)
    requires end <= |runes| && start <= first && FenceAt(runes, first, end) && NoFenceIn(runes, start, first, end)
    requires AreFences(runes, first + 3, end, rest)
    ensures AreFences(runes, start, end, [first] + rest)
  {
    hide FenceAt, NoFenceIn;
    var all := [first] + rest;
    forall k | 0 <= k < |all|
      ensures FenceAt(runes, all[k], end) && Behind(start, all, k) <= all[k]
      ensures NoFenceIn(runes, Behind(start, all, k), all[k], end)
    {
      assert k > 0 ==> all[k] == rest[k - 1] && Behind(start, all, k) == Behind(first + 3, rest, k - 1);
    }
  }

  /** Every stretch has such a list. */
  lemma {:induction false} SomeAreFences(runes: string, start: nat, end: nat) returns (fences: seq<nat>)
    requires end <= |runes|
    ensures AreFences(runes, start, end, fences)
    decreases end - start
  {
    if i: nat :| start <= i < end && FenceAt(runes, i, end) {
      var first := FirstOfAll(runes, start, i, end);
      var rest := SomeAreFences(runes, first + 3, end);
      MoreFences(runes, start, end, first, rest);
      fences := [first] + rest;
    } else {
      fences := [];
    }
  }

  lemma {:induction false} FirstOfAll(runes: string, start: nat, i: nat, end: nat) returns (first: nat)
    requires end <= |runes| && start <= i && FenceAt(runes, i, end)
    ensures start <= first && FenceAt(runes, first, end) && NoFenceIn(runes, start, first, end)
    decreases i
  {
    if k: nat :| start <= k < i && FenceAt(runes, k, end) {
      first := FirstOfAll(runes, start, k, end);
    } else {
      first := i;
    }
  }

  /** A block is open at the end of a stretch exactly if the stretch has an odd number of fences: the last one's. */
  lemma OpenIsTheLastOfAnOddNumber(runes: string, start: nat, end: nat, fences: seq<nat>)
    requires end <= |runes| && AreFences(runes, start, end, fences)
    ensures Scan(runes, start, end, None) == if |fences| % 2 == 1 then Some(fences[|fences| - 1]) else None
  {
    ScanCounts(runes, start, end, fences, None);
  }

  // ----- cutting while a block is open ------------------------------------------------------------------------

  /** A whole fence stands between the cut and the limit. */
  predicate ClosesBy(runes: string, cut: nat, upto: nat) {
    exists i :: cut <= i <= upto - 3 && FenceAt(runes, i, |runes|)
  }

  /** The first fence at or after the cut ends here. */
  predicate FirstFenceEnds(runes: string, cut: nat, end: int) {
    cut <= end - 3 && FenceAt(runes, end - 3, |runes|) && NoFenceIn(runes, cut, end - 3, |runes|)
  }

  /** The opening line ends at its newline, or after its three backticks if no newline follows. */
  predicate LineEnds(runes: string, open: nat, end: int) {
    && open <= end && NoneIn(runes, open, Min(end, |runes|), IsNewline)
    && (if end < |runes| && runes[end] == '\n' then true
        else end == open + 3 && NoneIn(runes, open, |runes|, IsNewline))
  }

  /** The chunk ends inside the block, at the last newline behind its opening line, or as late as a fence still fits. */
  predicate EndsInside(runes: string, inner: int, line: int, end: int)
    requires inner <= |runes|
  {
    if NoneIn(runes, Max(inner - 200, line + 1), inner, IsNewline) then end == inner
    else IsLastIn(runes, Max(inner - 200, line + 1), inner, end, IsNewline)
  }

  /** The chunk stops before the block, or the block is cut: what happens when its opening line is all but the rest. */
  predicate StopsEarly(runes: string, start: nat, maxLen: nat, open: nat, end: int, reopened: Option<string>, line: int)
    requires start <= open <= line <= |runes| && open <= |runes|
  {
    if !NoBreak(runes, start, open) then reopened.None? && BreaksAt(runes, start, open, end)
    else if open > start + 20 then reopened.None? && end == open
    else reopened == Some(TrimSpace(runes[open..line])) && end == start + maxLen - 5
  }

  /** What happens when the block at `open`, whose opening line ends at `line`, is open at the natural split point. */
  predicate CutsOpen(runes: string, start: nat, maxLen: nat, cut: nat, open: nat, line: int, end: int,
                     reopened: Option<string>)
    requires start + maxLen < |runes| && start <= open <= line <= |runes|
  {
    if ClosesBy(runes, cut, start + maxLen) then reopened.None? && FirstFenceEnds(runes, cut, end)
    else if cut > line + 20 then
      reopened == Some(TrimSpace(runes[open..line])) && EndsInside(runes, start + maxLen - 5, line, end)
    else StopsEarly(runes, start, maxLen, open, end, reopened, line)
  }

  /** Where a decision ends the chunk, and the header it puts back. */
  function EndOf(d: Decision): int
    requires !d.Rest?
  {
    if d.Plain? then d.cut else d.end
  }

  function HeaderOf(d: Decision): Option<string> {
    if d.Inject? then Some(d.header) else None
  }

  lemma LineIs(runes: string, open: nat, line: int)
    requires FenceAt(runes, open, |runes|) && LineEnds(runes, open, line)
    ensures line == HeaderEnd(runes, open) && open <= line <= |runes|
    ensures Header(runes, open) == TrimSpace(runes[open..line])
  {
    hide TrimSpace;
    var n := NewlineFrom(runes, open);
    if n == -1 {
      BareFence(runes, open);
    }
  }

  lemma BareFence(runes: string, open: nat)
    requires FenceAt(runes, open, |runes|)
    ensures |TrimSpace(runes[open..open + 3])| == 3
  {
    hide TrimSpace, TrimEnd, TrimStart;
    var bare := runes[open..open + 3];
    TrimSpaceFromInk(bare);
    TrimEndUnique(bare, IsSpace, 3);
  }

  lemma ClosingIs(runes: string, start: nat, maxLen: nat, cut: nat, end: int)
    requires start + maxLen < |runes| && cut <= |runes|
    ensures var closing := NextClosing(runes, cut, |runes|);
            && (closing > 0 && closing - start <= maxLen <==> ClosesBy(runes, cut, start + maxLen))
            && (closing > 0 ==> (end == closing <==> FirstFenceEnds(runes, cut, end)))
  {
    hide NextClosing, FenceAt;
    var closing := NextClosing(runes, cut, |runes|);
    if closing > 0 {
      assert FenceAt(runes, closing - 3, |runes|);
    }
  }

  lemma InnerIs(runes: string, start: nat, inner: nat, line: nat, end: int)
    requires start <= line && start <= inner <= |runes|
    ensures var better := LastInRange(runes, start, inner, 200, IsNewline);
            (end == if better > line then better else inner) <==> EndsInside(runes, inner, line, end)
  {
    hide LastInRange;
    var better := LastInRange(runes, start, inner, 200, IsNewline);
    if better > line {
      assert IsNewline(runes[better]);
    }
  }

  lemma InsideIff(runes: string, start: nat, maxLen: nat, cut: nat, open: nat, line: nat, end: int,
                  reopened: Option<string>)
    requires maxLen > 0 && start + maxLen < |runes| && FenceAt(runes, open, |runes|) && line <= |runes|
    requires start <= open <= line && open + 3 <= cut <= start + Limit(maxLen)
    requires line == HeaderEnd(runes, open) && Header(runes, open) == TrimSpace(runes[open..line])
    requires !ClosesBy(runes, cut, start + maxLen)
    ensures var d := DecideInside(runes, start, maxLen, cut, open);
            end == EndOf(d) && reopened == HeaderOf(d)
            <==> CutsOpen(runes, start, maxLen, cut, open, line, end, reopened)
  {
    hide FenceAt, Header, HeaderEnd, TrimSpace, LastInRange, EndsInside, BreaksAt, NoBreak, Limit, ClosesBy;
    if cut > line + 20 {
      InnerIs(runes, start, start + maxLen - 5, line, end);
    } else {
      BreakIff(runes, start, open, end);
      BreakIff(runes, start, open, StopBefore(runes, start, open));
    }
  }

  lemma OpenIff(runes: string, start: nat, maxLen: nat, cut: nat, open: nat, line: int, end: int,
                reopened: Option<string>)
    requires maxLen > 0 && start + maxLen < |runes| && FenceAt(runes, open, |runes|) && LineEnds(runes, open, line)
    requires start <= open && open + 3 <= cut <= start + Limit(maxLen)
    ensures open <= line <= |runes|
    ensures var d := DecideOpen(runes, start, maxLen, cut, open);
            end == EndOf(d) && reopened == HeaderOf(d)
            <==> CutsOpen(runes, start, maxLen, cut, open, line, end, reopened)
  {
    LineIs(runes, open, line);
    ClosingIs(runes, start, maxLen, cut, end);
    hide FenceAt, Header, HeaderEnd, TrimSpace, LineEnds, NextClosing, ClosesBy, FirstFenceEnds, DecideInside, Limit;
    if ClosesBy(runes, cut, start + maxLen) {
      hide CutsOpen;
      SoonIff(runes, start, maxLen, cut, open, line, end, reopened);
    } else {
      InsideIff(runes, start, maxLen, cut, open, line, end, reopened);
    }
  }

  lemma SoonIff(runes: string, start: nat, maxLen: nat, cut: nat, open: nat, line: int, end: int,
                reopened: Option<string>)
    requires start + maxLen < |runes| && start <= open <= line <= |runes| && ClosesBy(runes, cut, start + maxLen)
    ensures CutsOpen(runes, start, maxLen, cut, open, line, end, reopened)
            <==> reopened.None? && FirstFenceEnds(runes, cut, end)
  {
  }

  /**
   * For every text, start and limit: where the next chunk ends, and which header is put back, if any. `cut` is the
   * natural split point, `fences` are the fences before it, and `line` is the end of the last one's line.
   */
  lemma CutIff(runes: string, start: nat, maxLen: nat, cut: nat, fences: seq<nat>, line: int, end: int,
               reopened: Option<string>)
    requires maxLen > 0 && start + maxLen < |runes| && NaturalCut(runes, start, maxLen, cut) && cut <= |runes|
    requires AreFences(runes, start, cut, fences)
    requires |fences| % 2 == 1 ==> LineEnds(runes, fences[|fences| - 1], line)
    ensures |fences| % 2 == 1 ==> start <= fences[|fences| - 1] <= line <= |runes|
    ensures var d := Decide(runes, start, maxLen);
            !d.Rest? &&
            (end == EndOf(d) && reopened == HeaderOf(d)
             <==> if |fences| % 2 == 0 then reopened.None? && end == cut
                  else CutsOpen(runes, start, maxLen, cut, fences[|fences| - 1], line, end, reopened))
  {
    FirstCutIff(runes, start, maxLen, cut);
    OpenIsTheLastOfAnOddNumber(runes, start, cut, fences);
    assert OpenBlock(runes, start, maxLen) == Scan(runes, start, cut, None);
    hide OpenBlock, Scan, NaturalCut, AreFences, LineEnds, DecideOpen, CutsOpen, FirstCut;
    if |fences| % 2 == 1 {
      OpenIff(runes, start, maxLen, cut, fences[|fences| - 1], line, end, reopened);
    }
  }

  /** The state after a chunk that ends there and puts that header back. */
  lemma StepCuts(s: State, maxLen: nat, end: int, reopened: Option<string>)
    requires maxLen > 0 && s.start + maxLen < |s.runes|
    requires var d := Decide(s.runes, s.start, maxLen); end == EndOf(d) && reopened == HeaderOf(d)
    ensures s.start <= end <= |s.runes|
    ensures Step(s, maxLen) ==
            match reopened
            case None => State(s.runes, SkipBlank(s.runes, end), s.events + [Event(s.runes[s.start..end], None)])
            case Some(h) => State(TrimSpace(h + "\n" + s.runes[end..]), 0,
                                  s.events + [Event(TrimEnd(s.runes[s.start..end], IsBlank) + "\n```", reopened)])
  {
    hide Decide, TrimSpace, TrimEnd, SkipBlank;
    assert forall t: string :: t + "\n" + FENCE == t + "\n```";
  }
}
