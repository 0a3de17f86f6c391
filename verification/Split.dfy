/** One iteration of the message splitter, and the runs it makes. */
module Split {
  import opened Text

  // ----- the five scanners -------------------------------------------------------------------

  /** Three backticks at i that lie inside runes[..end]. */
  predicate FenceAt(runes: string, i: int, end: int)
    requires 0 <= i && end <= |runes|
  {
    i + 2 < end && runes[i] == '`' && runes[i + 1] == '`' && runes[i + 2] == '`'
  }

  /** The toggling scanner: from position i with `open` the fence opened last, which fence is open at `end`? */
  function Scan(runes: string, i: nat, end: nat, open: Option<nat>): (r: Option<nat>)
    requires end <= |runes|
    ensures r.Some? && r != open ==> i <= r.value && FenceAt(runes, r.value, end)
    decreases end - i
  {
    if i >= end then open
    else if FenceAt(runes, i, end) then Scan(runes, i + 3, end, if open.None? then Some(i) else None)
    else Scan(runes, i + 1, end, open)
  }

  /** One past the first fence that starts at or after `from`, or -1. */
  function NextClosing(runes: string, from: nat, end: nat): (r: int)
    requires end <= |runes|
    ensures r == -1 || (from + 3 <= r <= end && FenceAt(runes, r - 3, end))
    ensures forall i :: from <= i < end && (r == -1 || i < r - 3) ==> !FenceAt(runes, i, end)
    decreases end - from
  {
    if from >= end then -1
    else if FenceAt(runes, from, end) then from + 3
    else NextClosing(runes, from + 1, end)
  }

  function NewlineFrom(runes: string, from: nat): (r: int)
    ensures r == -1 || (from <= r < |runes| && runes[r] == '\n')
    ensures forall i :: from <= i < |runes| && (r == -1 || i < r) ==> runes[i] != '\n'
    decreases |runes| - from
  {
    if from >= |runes| then -1
    else if runes[from] == '\n' then from
    else NewlineFrom(runes, from + 1)
  }

  predicate IsNewline(c: char) { c == '\n' }

  predicate IsGap(c: char) { c == ' ' || c == '\t' }

  /** The last rune of the given kind in runes[lo..hi], or `missing`. */
  function LastFrom(runes: string, lo: nat, hi: nat, missing: int, kind: char -> bool): (r: int)
    requires hi <= |runes| && missing < lo
    ensures r == missing || (lo <= r < hi && kind(runes[r]))
    ensures forall i :: lo <= i < hi && i > r ==> !kind(runes[i])
    decreases hi
  {
    if hi <= lo then missing
    else if kind(runes[hi - 1]) then hi - 1
    else LastFrom(runes, lo, hi - 1, missing, kind)
  }

  /** The last rune of the kind within the last `window` runes of runes[start..end], or start-1. */
  function LastInRange(runes: string, start: nat, end: nat, window: nat, kind: char -> bool): (r: int)
    requires start <= end <= |runes|
    ensures r == start - 1 || (Max(end - window, start) <= r < end && kind(runes[r]))
    ensures forall i :: Max(end - window, start) <= i < end && i > r ==> !kind(runes[i])
  {
    LastFrom(runes, Max(end - window, start), end, start - 1, kind)
  }

  // ----- one iteration -----------------------------------------------------------------------

  /** The room kept for a closing fence: a tenth of maxLen, at least 50, at most half of maxLen. */
  function Buffer(maxLen: nat): nat {
    var b := Max(maxLen / 10, 50);
    if b > maxLen / 2 then maxLen / 2 else b
  }

  function Limit(maxLen: nat): (r: nat)
    requires maxLen > 0
    ensures 0 < r <= maxLen
    ensures maxLen >= 10 ==> r <= maxLen - 5
    ensures maxLen >= 5 ==> r <= maxLen - 2
    ensures r >= 3 ==> maxLen >= 5
  {
    Max(maxLen - Buffer(maxLen), maxLen / 2)
  }

  /** The natural split point: a newline, else a space, else the limit itself. */
  function FirstCut(runes: string, start: nat, maxLen: nat): (r: nat)
    requires maxLen > 0 && start + maxLen < |runes|
    ensures start < r <= start + Limit(maxLen)
    ensures r == start + Limit(maxLen) || IsNewline(runes[r]) || IsGap(runes[r])
  {
    var end := start + Limit(maxLen);
    var newline := LastInRange(runes, start, end, 200, IsNewline);
    if newline > start then newline
    else
      var gap := LastInRange(runes, start, end, 100, IsGap);
      if gap > start then gap else end
  }

  /** The opening line of the block at `open`, as it is put back after a split: "```" when no newline follows. */
  function Header(runes: string, open: nat): string
    requires FenceAt(runes, open, |runes|)
  {
    var headerEnd := NewlineFrom(runes, open);
    TrimSpace(runes[open..if headerEnd == -1 then open + 3 else headerEnd])
  }

  /** Where the opening line ends: at its newline, or after the bare "```". */
  function HeaderEnd(runes: string, open: nat): (r: int)
    requires FenceAt(runes, open, |runes|)
    ensures r >= open
  {
    var headerEnd := NewlineFrom(runes, open);
    if headerEnd == -1 then open + |Header(runes, open)| else headerEnd
  }

  /** The block that is open at the natural split point. */
  function OpenBlock(runes: string, start: nat, maxLen: nat): (r: Option<nat>)
    requires maxLen > 0 && start + maxLen < |runes|
    ensures r.Some? ==> start <= r.value && r.value + 3 <= FirstCut(runes, start, maxLen)
    ensures r.Some? ==> FenceAt(runes, r.value, |runes|)
  {
    Scan(runes, start, FirstCut(runes, start, maxLen), None)
  }

  /** The ways in which an iteration ends. `cut` is the natural split point, `end` where the chunk really ends. */
  datatype Decision =
    | Rest                                          // all that remains fits
    | Plain(cut: nat)                               // no block is open at the cut
    | Extend(cut: nat, end: nat)                    // run on to the closing fence
    | Before(cut: nat, end: nat)                    // stop before the open block
    | Inject(cut: nat, end: nat, header: string)    // close the block here and reopen it in the rest

  /** The indices of a decision are in range, and its chunk is short enough. */
  predicate InRange(d: Decision, runes: string, start: nat, maxLen: nat) {
    match d
    case Rest => |runes| - start <= maxLen
    case Plain(cut) => start < cut <= start + maxLen && cut <= |runes|
    case Inject(_, end, _) => start <= end <= start + maxLen - 5 && end <= |runes|
    case Extend(_, end) => start < end <= start + maxLen && end <= |runes|
    case Before(_, end) => start < end <= start + maxLen && end <= |runes|
  }

  /** The block at `open` is still open at the natural split point `cut`. */
  function DecideOpen(runes: string, start: nat, maxLen: nat, cut: nat, open: nat): (d: Decision)
    requires maxLen > 0 && start + maxLen < |runes| && FenceAt(runes, open, |runes|)
    requires start <= open && open + 3 <= cut <= start + Limit(maxLen)
    ensures InRange(d, runes, start, maxLen) && !d.Rest? && !d.Plain?
  {
    var closing := NextClosing(runes, cut, |runes|);
    if closing > 0 && closing - start <= maxLen then Extend(cut, closing)
    else DecideInside(runes, start, maxLen, cut, open)
  }

  /** A natural split point before the block at `open`. */
  function StopBefore(runes: string, start: nat, open: nat): (r: int)
    requires start <= open <= |runes|
    ensures r == start - 1 || (start <= r < open && (IsNewline(runes[r]) || IsGap(runes[r])))
    ensures r <= start && open - start <= 200 ==> forall i :: start < i < open ==> !IsNewline(runes[i])
  {
    var newline := LastInRange(runes, start, open, 200, IsNewline);
    if newline > start then newline else LastInRange(runes, start, open, 100, IsGap)
  }

  /** The block at `open` is not closed soon enough: inject a fence, or stop before the block. */
  function DecideInside(runes: string, start: nat, maxLen: nat, cut: nat, open: nat): (d: Decision)
    requires maxLen > 0 && start + maxLen < |runes| && FenceAt(runes, open, |runes|)
    requires start <= open && open + 3 <= cut <= start + Limit(maxLen)
    ensures InRange(d, runes, start, maxLen) && (d.Inject? || d.Before?)
  {
    var header := Header(runes, open);
    if cut > HeaderEnd(runes, open) + 20 then
      var inner := Min(start + maxLen - 5, |runes|);
      var better := LastInRange(runes, start, inner, 200, IsNewline);
      Inject(cut, if better > HeaderEnd(runes, open) then better else inner, header)
    else
      var stop := StopBefore(runes, start, open);
      if stop > start then Before(cut, stop)
      else if open - start > 20 then Before(cut, open)
      else Inject(cut, Min(start + maxLen - 5, |runes|), header)
  }

  function Decide(runes: string, start: nat, maxLen: nat): (d: Decision)
    requires maxLen > 0 && start < |runes|
    ensures InRange(d, runes, start, maxLen)
    ensures d.Rest? <==> |runes| - start <= maxLen
  {
    if |runes| - start <= maxLen then Rest
    else
      var cut := FirstCut(runes, start, maxLen);
      match OpenBlock(runes, start, maxLen)
      case None => Plain(cut)
      case Some(open) => DecideOpen(runes, start, maxLen, cut, open)
  }

  /** Why a decision about an open block was taken. */
  predicate ExplainedOpen(d: Decision, runes: string, start: nat, maxLen: nat, cut: nat, open: nat)
    requires start + maxLen < |runes| && FenceAt(runes, open, |runes|)
  {
    var closing := NextClosing(runes, cut, |runes|);
    match d
    case Rest => false
    case Plain(_) => false
    case Extend(c, end) => c == cut && closing == end && end - start <= maxLen
    case Before(c, end) =>
      && c == cut && (closing == -1 || closing - start > maxLen) && cut <= HeaderEnd(runes, open) + 20
      && start < end <= open && (end == open || IsNewline(runes[end]) || IsGap(runes[end]))
    case Inject(c, end, header) =>
      && c == cut && (closing == -1 || closing - start > maxLen)
      && header == Header(runes, open)
      && (cut <= HeaderEnd(runes, open) + 20 ==>
            end == start + maxLen - 5 && open - start <= 20
            && forall i :: start < i < open ==> !IsNewline(runes[i]))
      && (cut > HeaderEnd(runes, open) + 20 ==>
            maxLen >= 10 &&
            var better := LastInRange(runes, start, start + maxLen - 5, 200, IsNewline);
            end == if better > HeaderEnd(runes, open) then better else start + maxLen - 5)
  }

  lemma DecideOpenExplained(runes: string, start: nat, maxLen: nat, cut: nat, open: nat)
    requires maxLen > 0 && start + maxLen < |runes| && FenceAt(runes, open, |runes|)
    requires start <= open && open + 3 <= cut <= start + Limit(maxLen)
    ensures ExplainedOpen(DecideOpen(runes, start, maxLen, cut, open), runes, start, maxLen, cut, open)
  {
    hide NextClosing, DecideInside;
    var closing := NextClosing(runes, cut, |runes|);
    if closing == -1 || closing - start > maxLen {
      DecideInsideExplained(runes, start, maxLen, cut, open);
    }
  }

  lemma DecideInsideExplained(runes: string, start: nat, maxLen: nat, cut: nat, open: nat)
    requires maxLen > 0 && start + maxLen < |runes| && FenceAt(runes, open, |runes|)
    requires start <= open && open + 3 <= cut <= start + Limit(maxLen)
    requires NextClosing(runes, cut, |runes|) == -1 || NextClosing(runes, cut, |runes|) - start > maxLen
    ensures ExplainedOpen(DecideInside(runes, start, maxLen, cut, open), runes, start, maxLen, cut, open)
  {
    hide NextClosing, Header, HeaderEnd, LastInRange, StopBefore;
  }

  /** Why a decision was taken: the facts about the text that each way out of the iteration rests on. */
  predicate Explained(d: Decision, runes: string, start: nat, maxLen: nat)
    requires maxLen > 0 && start < |runes|
  {
    if |runes| - start <= maxLen then d == Rest
    else
      var cut := FirstCut(runes, start, maxLen);
      match OpenBlock(runes, start, maxLen)
      case None => d == Plain(cut)
      case Some(open) => ExplainedOpen(d, runes, start, maxLen, cut, open)
  }

  lemma DecideExplained(runes: string, start: nat, maxLen: nat)
    requires maxLen > 0 && start < |runes|
    ensures Explained(Decide(runes, start, maxLen), runes, start, maxLen)
  {
    if |runes| - start > maxLen && OpenBlock(runes, start, maxLen).Some? {
      DecideOpenExplained(runes, start, maxLen, FirstCut(runes, start, maxLen), OpenBlock(runes, start, maxLen).value);
    }
  }

  /** In the last newline window before the limit the natural cut already is the better cut, unless that lies later. */
  lemma BetterCut(runes: string, start: nat, maxLen: nat, floor: nat)
    requires maxLen >= 10 && start + maxLen < |runes| && start <= floor
    ensures var better := LastInRange(runes, start, start + maxLen - 5, 200, IsNewline);
            better > floor ==> better >= FirstCut(runes, start, maxLen)
  {
    var end, inner := start + Limit(maxLen), start + maxLen - 5;
    var better := LastInRange(runes, start, inner, 200, IsNewline);
    if floor < better < end {
      assert Max(end - 200, start) <= better;
      var newline := LastInRange(runes, start, end, 200, IsNewline);
      assert newline >= better;
    }
  }

  /** What one iteration hands out: the chunk, and the header it put back into the rest, if any. */
  datatype Event = Event(chunk: string, reopened: Option<string>)

  datatype State = State(runes: string, start: nat, events: seq<Event>)

  function SkipBlank(runes: string, i: nat): (r: nat)
    requires i <= |runes|
    ensures i <= r <= |runes|
    ensures forall k :: i <= k < r ==> IsBlank(runes[k])
    ensures r < |runes| ==> !IsBlank(runes[r])
    decreases |runes| - i
  {
    if i < |runes| && IsBlank(runes[i]) then SkipBlank(runes, i + 1) else i
  }

  const FENCE := "```"

  /** The chunk of an injecting iteration. */
  function Closed(text: string): string {
    TrimEnd(text, IsBlank) + "\n" + FENCE
  }

  /** The text that is left after an injecting iteration. */
  function Reopened(header: string, tail: string): string {
    TrimSpace(header + "\n" + tail)
  }

  /** Hand out runes[start..end] and skip the blanks after it. */
  function Emit(s: State, end: nat): State
    requires s.start <= end <= |s.runes|
  {
    State(s.runes, SkipBlank(s.runes, end), s.events + [Event(s.runes[s.start..end], None)])
  }

  function Apply(s: State, d: Decision): State
    requires s.start < |s.runes|
    requires exists maxLen: nat :: InRange(d, s.runes, s.start, maxLen)
  {
    match d
    case Rest => State(s.runes, |s.runes|, s.events + [Event(s.runes[s.start..], None)])
    case Inject(_, end, header) =>
      State(Reopened(header, s.runes[end..]), 0, s.events + [Event(Closed(s.runes[s.start..end]), Some(header))])
    case Plain(cut) => Emit(s, cut)
    case Extend(_, end) => Emit(s, end)
    case Before(_, end) => Emit(s, end)
  }

  function Next(s: State, maxLen: nat): State
    requires maxLen > 0 && s.start < |s.runes|
  {
    Apply(s, Decide(s.runes, s.start, maxLen))
  }

  predicate Done(s: State) { s.start >= |s.runes| }

  /** A finished splitter stays as it is. */
  function Step(s: State, maxLen: nat): State
    requires maxLen > 0
  {
    if Done(s) then s else Next(s, maxLen)
  }

  /** n iterations of any step function. */
  function Iterate(step: State -> State, s: State, n: nat): State {
    if n == 0 then s else step(Iterate(step, s, n - 1))
  }

  /** What every step keeps holds after any number of steps. */
  lemma {:induction false} Invariant(step: State -> State, keeps: State -> bool, s: State, n: nat)
    requires keeps(s) && forall t :: keeps(t) ==> keeps(step(t))
    ensures keeps(Iterate(step, s, n))
  {
    if n > 0 {
      Invariant(step, keeps, s, n - 1);
    }
  }

  function Stepper(maxLen: nat): State -> State
    requires maxLen > 0
  {
    s => Step(s, maxLen)
  }

  /** The state after n iterations on content. */
  function Run(content: string, maxLen: nat, n: nat): State
    requires maxLen > 0
  {
    Iterate(Stepper(maxLen), State(content, 0, []), n)
  }

  function Chunks(events: seq<Event>): (r: seq<string>)
    ensures |r| == |events|
    ensures forall i :: 0 <= i < |r| ==> r[i] == events[i].chunk
  {
    seq(|events|, i requires 0 <= i < |events| => events[i].chunk)
  }

  predicate Fits(s: State, maxLen: nat) {
    forall i :: 0 <= i < |s.events| ==> |s.events[i].chunk| <= maxLen
  }

  lemma ApplyFits(s: State, d: Decision, maxLen: nat)
    requires s.start < |s.runes| && InRange(d, s.runes, s.start, maxLen) && Fits(s, maxLen)
    ensures Fits(Apply(s, d), maxLen)
  {
  }

  /** For every maxLen > 0, on every text and after any number of iterations, no chunk is longer than maxLen. */
  lemma ChunksFit(content: string, maxLen: nat, n: nat)
    requires maxLen > 0
    ensures Fits(Run(content, maxLen, n), maxLen)
  {
    forall s | Fits(s, maxLen)
      ensures Fits(Step(s, maxLen), maxLen)
    {
      if !Done(s) {
        ApplyFits(s, Decide(s.runes, s.start, maxLen), maxLen);
      }
    }
    Invariant(Stepper(maxLen), s => Fits(s, maxLen), State(content, 0, []), n);
  }
}
