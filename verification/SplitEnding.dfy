/** Exactly when the splitter ends: unless its run comes to a stuck text. */
module SplitEnding {
  import opened Text
  import opened Split
  import opened SplitBalance
  import opened SplitTermination
  import opened SplitStuck

  // ----- the weight of a text ------------------------------------------------------------------------

  function Pow3(n: nat): (r: nat)
    ensures r >= 1
  {
    if n == 0 then 1 else 3 * Pow3(n - 1)
  }

  lemma {:induction false} Pow3Grows(a: nat, b: nat)
    requires a <= b
    ensures Pow3(a) <= Pow3(b)
    ensures a < b ==> 3 * Pow3(a) <= Pow3(b)
  {
    if a < b {
      Pow3Grows(a, b - 1);
    }
  }

  /** The first newline at or after x, or -1. */
  function LineBreak(s: string, x: nat): (r: int)
    ensures r == -1 || x <= r < |s|
  {
    NewlineFrom(s, x)
  }

  /** The sum of 3^(length) over the lines of s[x..]: splitting a line into two shorter ones makes a text lighter. */
  function Weight(s: string, x: nat): nat
    requires x <= |s|
    decreases |s| - x
  {
    Pow3(LineEnd(s, x) - x) + After(s, x)
  }

  /** Where the line that covers x ends, and what comes after it weighs. */
  function LineEnd(s: string, x: nat): (r: nat)
    requires x <= |s|
    ensures x <= r <= |s|
  {
    if LineBreak(s, x) == -1 then |s| else LineBreak(s, x)
  }

  function After(s: string, x: nat): nat
    requires x <= |s|
    decreases |s| - x, 0
  {
    if LineBreak(s, x) == -1 then 0 else Weight(s, LineBreak(s, x) + 1)
  }

  lemma SameBreak(s: string, x: nat, y: nat)
    requires x <= y <= |s| && (LineBreak(s, x) == -1 || y <= LineBreak(s, x))
    ensures LineBreak(s, y) == LineBreak(s, x)
  {
    hide NewlineFrom;
  }

  /** Inside the line. */
  lemma WeightIn(s: string, x: nat, y: nat)
    requires x <= |s| && x <= y <= LineEnd(s, x)
    ensures Weight(s, y) == Pow3(LineEnd(s, x) - y) + After(s, x)
  {
    SameBreak(s, x, y);
    hide LineBreak, Pow3;
  }

  lemma WeightOfTail(s: string, x: nat)
    requires x < |s|
    ensures Weight(s, x + 1) < Weight(s, x)
  {
    hide LineBreak;
    if LineEnd(s, x) > x {
      WeightIn(s, x, x + 1);
      Pow3Grows(LineEnd(s, x) - x - 1, LineEnd(s, x) - x);
    }
  }

  lemma {:induction false} WeightLater(s: string, x: nat, y: nat)
    requires x <= y <= |s|
    ensures Weight(s, y) <= Weight(s, x)
    ensures x < y ==> Weight(s, y) < Weight(s, x)
    decreases y - x
  {
    hide Weight;
    if x < y {
      WeightOfTail(s, x);
      WeightLater(s, x + 1, y);
    }
  }

  lemma WeightPast(s: string, x: nat, y: nat)
    requires x <= |s| && LineEnd(s, x) < y <= |s|
    ensures Weight(s, y) <= After(s, x)
    ensures y > LineEnd(s, x) + 1 ==> Weight(s, y) < After(s, x)
  {
    hide LineBreak, Weight;
    WeightLater(s, LineEnd(s, x) + 1, y);
  }

  lemma PrefixBreak(t: string, s: string, x: nat)
    requires t <= s && x <= |t|
    ensures LineBreak(t, x) == if LineBreak(s, x) >= |t| then -1 else LineBreak(s, x)
  {
    hide NewlineFrom;
    assert forall i :: 0 <= i < |t| ==> t[i] == s[i];
    var n := NewlineFrom(s, x);
    if n != -1 && n < |t| {
      assert t[n] == '\n';
    }
  }

  lemma {:induction false} WeightOfPrefix(t: string, s: string, x: nat)
    requires t <= s && x <= |t|
    ensures Weight(t, x) <= Weight(s, x)
    decreases |t| - x
  {
    PrefixBreak(t, s, x);
    hide LineBreak, Pow3;
    Pow3Grows(LineEnd(t, x) - x, LineEnd(s, x) - x);
    if LineBreak(t, x) != -1 {
      WeightOfPrefix(t, s, LineBreak(t, x) + 1);
    }
  }

  /** The same stretch at the end of two texts. */
  predicate SameEnd(s: string, x: nat, t: string, y: nat) {
    x <= |s| && y <= |t| && |s| - x == |t| - y && forall i :: x <= i < |s| ==> s[i] == t[i - x + y]
  }

  lemma ShiftedBreak(s: string, x: nat, t: string, y: nat)
    requires SameEnd(s, x, t, y)
    ensures LineBreak(t, y) == if LineBreak(s, x) == -1 then -1 else LineBreak(s, x) - x + y
  {
    hide NewlineFrom;
    var n, m := NewlineFrom(s, x), NewlineFrom(t, y);
    if n != -1 {
      assert s[n] == t[n - x + y];
    }
    if m != -1 {
      assert s[m - y + x] == t[m];
    }
  }

  lemma {:induction false} WeightOfSameEnd(s: string, x: nat, t: string, y: nat)
    requires SameEnd(s, x, t, y)
    ensures Weight(s, x) == Weight(t, y)
    decreases |s| - x
  {
    ShiftedBreak(s, x, t, y);
    hide LineBreak, Pow3;
    var n, m := LineBreak(s, x), LineBreak(t, y);
    if n != -1 {
      SameEndLater(s, x, t, y, n + 1 - x);
      WeightOfSameEnd(s, n + 1, t, m + 1);
    }
  }

  lemma SameEndLater(s: string, x: nat, t: string, y: nat, d: nat)
    requires SameEnd(s, x, t, y) && x + d <= |s|
    ensures SameEnd(s, x + d, t, y + d)
  {
  }

  /** What is kept of runes[from..], from its k-th rune on. */
  lemma WeightOfKept(runes: string, from: nat, k: nat)
    requires from <= |runes| && k <= |Kept(runes[from..])|
    ensures Weight(Kept(runes[from..]), k) <= Weight(runes, from + k)
  {
    hide Kept, Weight;
    var b := runes[from..];
    WeightOfPrefix(Kept(b), b, k);
    WeightOfSameEnd(b, k, runes, from + k);
  }

  lemma LineOf(h: string, tail: string)
    requires forall i :: 0 <= i < |h| ==> h[i] != '\n'
    ensures LineBreak(h, 0) == -1 && LineBreak(h + "\n" + tail, 0) == |h|
    ensures SameEnd(tail, 0, h + "\n" + tail, |h| + 1)
  {
    hide NewlineFrom;
    var t := h + "\n" + tail;
    assert t[|h|] == '\n' && forall i :: 0 <= i < |h| ==> t[i] == h[i];
  }

  lemma WeightOfRejoined(h: string, tail: string)
    requires forall i :: 0 <= i < |h| ==> h[i] != '\n'
    ensures Weight(h, 0) == Pow3(|h|) && Weight(h + "\n" + tail, 0) == Pow3(|h|) + Weight(tail, 0)
  {
    LineOf(h, tail);
    hide Pow3, LineBreak, SameEnd;
    WeightOfSameEnd(tail, 0, h + "\n" + tail, |h| + 1);
  }

  lemma WeightOfReopened(h: string, runes: string, from: nat)
    requires HeaderLike(h) && from <= |runes|
    ensures Weight(Reopened(h, runes[from..]), 0) <= Pow3(|h|) + Weight(runes, from)
  {
    WeightOfRejoined(h, Kept(runes[from..]));
    hide Reopened, Pow3, Weight, Header, Kept, HeaderLike;
    ReopenedParts(h, runes[from..]);
    WeightOfKept(runes, from, 0);
  }

  // ----- what gets lighter ----------------------------------------------------------------------------

  /** What is left behind the end of the chunk weighs no more than the block's line and what comes after it. */
  lemma WeightBehind(runes: string, open: nat, end: nat)
    requires open <= end <= |runes|
    ensures var l := LineEnd(runes, open);
            && (end <= l ==> Weight(runes, end) == Pow3(l - end) + After(runes, open))
            && (end > l ==> Weight(runes, end) <= After(runes, open))
            && (end > l + 1 ==> Weight(runes, end) < After(runes, open))
            && Weight(runes, end) <= Pow3(l - open) + After(runes, open)
  {
    hide Weight, LineBreak, Pow3, After, LineEnd;
    var l := LineEnd(runes, open);
    if end <= l {
      WeightIn(runes, open, end);
      Pow3Grows(l - end, l - open);
    } else {
      WeightPast(runes, open, end);
    }
  }

  lemma HeaderInLine(runes: string, open: nat)
    requires FenceAt(runes, open, |runes|)
    ensures open + |Header(runes, open)| <= LineEnd(runes, open)
  {
    HeaderShape(runes, open);
    hide Header, NewlineFrom;
  }

  /** The weight of what is left: the header's line, and what stood behind the end of the chunk. */
  lemma WeightLeft(runes: string, open: nat, end: nat)
    requires FenceAt(runes, open, |runes|) && open <= end <= |runes|
    ensures var h, l := |Header(runes, open)|, LineEnd(runes, open);
            && Weight(Reopened(Header(runes, open), runes[end..]), 0) <= Pow3(h) + Weight(runes, end)
            && h <= l - open && Pow3(h) <= Pow3(l - open)
            && (h < l - open ==> 3 * Pow3(h) <= Pow3(l - open))
  {
    hide Header, HeaderLike, Weight, Reopened, LineEnd, Pow3, SameAt, FenceAt;
    HeaderIsLike(runes, open);
    HeaderInLine(runes, open);
    WeightOfReopened(Header(runes, open), runes, end);
    Pow3Grows(|Header(runes, open)|, LineEnd(runes, open) - open);
  }

  /** The line of the block begins before it: one line becomes two shorter ones. */
  lemma LighterInLine(runes: string, start: nat, open: nat, end: nat)
    requires FenceAt(runes, open, |runes|) && start < open <= end <= |runes| && runes[open - 1] != '\n'
    ensures Weight(Reopened(Header(runes, open), runes[end..]), 0) < Weight(runes, start)
  {
    hide Header, Weight, Reopened, LineEnd, After, Pow3, FenceAt, LineBreak;
    WeightLeft(runes, open, end);
    WeightBehind(runes, open, end);
    WeightBefore(runes, start, open);
  }

  lemma WeightBefore(runes: string, start: nat, open: nat)
    requires start < open <= |runes| && runes[open - 1] != '\n'
    ensures Weight(runes, start) >= 3 * Pow3(LineEnd(runes, open) - open) + After(runes, open)
  {
    hide Weight, LineEnd, After, Pow3;
    OneRuneMore(runes, open);
    WeightLater(runes, start, open - 1);
  }

  lemma OneRuneMore(runes: string, open: nat)
    requires 0 < open <= |runes| && runes[open - 1] != '\n'
    ensures Weight(runes, open - 1) == 3 * Pow3(LineEnd(runes, open) - open) + After(runes, open)
  {
    assert LineBreak(runes, open - 1) == LineBreak(runes, open);
    hide LineBreak;
  }

  /** The rest begins behind the block's line and the newline after it. */
  lemma LighterAfterLine(runes: string, start: nat, open: nat, end: nat)
    requires FenceAt(runes, open, |runes|) && start <= open <= end <= |runes| && end > LineEnd(runes, open) + 1
    ensures Weight(Reopened(Header(runes, open), runes[end..]), 0) < Weight(runes, start)
  {
    hide Header, Weight, Reopened, LineEnd, After, Pow3, FenceAt;
    WeightLeft(runes, open, end);
    WeightBehind(runes, open, end);
    WeightBehind(runes, open, open);
    WeightLater(runes, start, open);
  }

  /** The header is shorter than the line, and so is what is left of the line. */
  lemma LighterHeader(runes: string, start: nat, open: nat, end: nat)
    requires FenceAt(runes, open, |runes|) && start <= open < end <= |runes|
    requires |Header(runes, open)| < LineEnd(runes, open) - open
    ensures Weight(Reopened(Header(runes, open), runes[end..]), 0) < Weight(runes, start)
  {
    hide Header, Weight, Reopened, LineEnd, After, Pow3, FenceAt;
    WeightLeft(runes, open, end);
    WeightBehind(runes, open, end);
    WeightBehind(runes, open, open);
    WeightLater(runes, start, open);
    if end <= LineEnd(runes, open) {
      Pow3Grows(LineEnd(runes, open) - end, LineEnd(runes, open) - open);
    }
  }

  // ----- iterations -----------------------------------------------------------------------------------

  lemma InnerIsLighter(runes: string, start: nat, open: nat, end: nat)
    requires FenceAt(runes, open, |runes|) && start <= open && HeaderEnd(runes, open) + 20 < end <= |runes|
    ensures Weight(Reopened(Header(runes, open), runes[end..]), 0) < Weight(runes, start)
  {
    InnerIsPast(runes, open, end);
    hide Weight, Reopened, Header, HeaderEnd, LineEnd, FenceAt;
    if end > LineEnd(runes, open) + 1 {
      LighterAfterLine(runes, start, open, end);
    } else {
      LighterHeader(runes, start, open, end);
    }
  }

  lemma InnerIsPast(runes: string, open: nat, end: nat)
    requires FenceAt(runes, open, |runes|) && HeaderEnd(runes, open) + 20 < end <= |runes|
    ensures open < end
    ensures end > LineEnd(runes, open) + 1 || |Header(runes, open)| < LineEnd(runes, open) - open
  {
    HeaderShape(runes, open);
    if NewlineFrom(runes, open) == -1 {
      NoNewlineHeader(runes, open);
    }
    hide Header, NewlineFrom;
  }

  lemma NoNewlineHeader(runes: string, open: nat)
    requires FenceAt(runes, open, |runes|) && NewlineFrom(runes, open) == -1
    ensures |Header(runes, open)| == 3
  {
    HeaderShape(runes, open);
    hide NewlineFrom, TrimSpace, HeaderEnd;
  }

  /** A last-resort split whose header leaves room. */
  lemma FittingIsLighter(runes: string, start: nat, end: nat)
    requires FenceAt(runes, start, |runes|) && start + |Header(runes, start)| + 2 <= end <= |runes|
    ensures Weight(Reopened(Header(runes, start), runes[end..]), 0) < Weight(runes, start)
  {
    hide Weight, Reopened, Header, LineEnd, FenceAt;
    if |Header(runes, start)| < LineEnd(runes, start) - start {
      LighterHeader(runes, start, start, end);
    } else {
      LighterAfterLine(runes, start, start, end);
    }
  }

  /** The position does not stand at a newline. */
  predicate Inked(s: State) {
    s.start < |s.runes| ==> s.runes[s.start] != '\n'
  }

  /** What the three kinds of injection have to do with the position of the block. */
  lemma InjectCases(runes: string, start: nat, maxLen: nat)
    requires maxLen > 0 && start + maxLen < |runes| && runes[start] != '\n'
    requires Decide(runes, start, maxLen).Inject? && !OpensLong(runes, start, maxLen)
    ensures var d, open := Decide(runes, start, maxLen), OpenBlock(runes, start, maxLen);
            && open.Some? && FenceAt(runes, open.value, |runes|) && d.header == Header(runes, open.value)
            && start <= open.value <= d.end <= |runes|
            && (|| HeaderEnd(runes, open.value) + 20 < d.end
                || (start < open.value && runes[open.value - 1] != '\n')
                || (start == open.value && start + |Header(runes, start)| + 2 <= d.end))
  {
    DecideExplained(runes, start, maxLen);
    hide Decide, Header, HeaderEnd, FirstCut, LastInRange, NextClosing, Scan, Limit, FenceAt;
    var d, open := Decide(runes, start, maxLen), OpenBlock(runes, start, maxLen).value;
    var cut := FirstCut(runes, start, maxLen);
    if cut > HeaderEnd(runes, open) + 20 {
      BetterCut(runes, start, maxLen, HeaderEnd(runes, open));
      assert d.end >= cut;
    } else if start < open {
      assert open - 1 > start ==> !IsNewline(runes[open - 1]);
    }
  }

  /** Every injection but one into a long opening leaves a lighter text. */
  lemma InjectIsLighter(runes: string, start: nat, maxLen: nat)
    requires maxLen > 0 && start + maxLen < |runes| && runes[start] != '\n'
    requires Decide(runes, start, maxLen).Inject? && !OpensLong(runes, start, maxLen)
    ensures var d := Decide(runes, start, maxLen);
            d.end <= |runes| && Weight(Reopened(d.header, runes[d.end..]), 0) < Weight(runes, start)
  {
    hide Decide, Weight, Reopened, Header, HeaderEnd, FirstCut, OpenBlock, OpensLong, Limit, FenceAt;
    InjectCases(runes, start, maxLen);
    var d, open := Decide(runes, start, maxLen), OpenBlock(runes, start, maxLen).value;
    if HeaderEnd(runes, open) + 20 < d.end {
      InnerIsLighter(runes, start, open, d.end);
    } else if start < open {
      LighterInLine(runes, start, open, d.end);
    } else {
      FittingIsLighter(runes, start, d.end);
    }
  }

  lemma ShortcutOpens(runes: string, start: nat, maxLen: nat, h: string, t: string)
    requires maxLen >= 5 && start + maxLen < |runes| && OpensLong(runes, start, maxLen) && |t| > maxLen
    requires h == Header(runes, start) && |h| == 3 && FenceAt(t, 0, |t|) && 3 < Limit(maxLen) && maxLen <= 9
    requires Rejoined(runes, start, start + maxLen - 5, h, t)
    ensures OpenBlock(t, 0, maxLen) == Some(0) && 3 <= FirstCut(t, 0, maxLen) < Limit(maxLen)
  {
    hide Header, Rejoined, OpensLong, FirstCut, OpenBlock, Limit, FenceAt;
    ShortHeaderKeepsOpen(runes, start, maxLen, h, t);
    CutBehind(runes, start, start + maxLen - 5, h, t, maxLen);
  }

  lemma ShortcutIsSmall(runes: string, start: nat, maxLen: nat)
    requires maxLen >= 5 && start + maxLen < |runes| && OpensLong(runes, start, maxLen)
    requires Shortcut(runes, start, maxLen)
    ensures |Header(runes, start)| == 3 && 7 <= maxLen <= 9 && 3 < Limit(maxLen)
    ensures FenceAt(runes, start, |runes|) && FenceAt(runes, start + maxLen - 5, |runes|)
  {
    NoNewlineHeader(runes, start);
    hide Header, NewlineFrom, FirstCut;
  }

  /** The shortcut: the reopened block is closed at once, and the next iteration leaves less than there was. */
  lemma ShortcutExtends(runes: string, start: nat, maxLen: nat)
    requires maxLen >= 5 && start + maxLen < |runes| && OpensLong(runes, start, maxLen)
    requires Shortcut(runes, start, maxLen) && |Refilled(runes, start, maxLen)| > maxLen
    ensures var t, d := Refilled(runes, start, maxLen), Decide(Refilled(runes, start, maxLen), 0, maxLen);
            d.Extend? && d.end == 7 && |t| >= 7 && Weight(t, 7) < Weight(runes, start)
  {
    hide Header, Rejoined, Refilled, OpensLong, HeaderLike, SameAt, Weight, Decide, Shortcut, Limit, Kept, FirstCut;
    ShortcutIsSmall(runes, start, maxLen);
    RefilledParts(runes, start, maxLen);
    RefilledRejoins(runes, start, maxLen);
    var h, t, from := Header(runes, start), Refilled(runes, start, maxLen), start + maxLen - 5;
    hide FenceAt, OpenBlock;
    ShortcutOpens(runes, start, maxLen, h, t);
    SecondFence(runes, from, h, t);
    ExtendsToSeven(t, maxLen);
    LessIsKept(runes, start, from, t);
  }

  /** The rest begins with a fence, which stands behind the newline. */
  lemma SecondFence(runes: string, from: nat, h: string, t: string)
    requires from <= |runes| && FenceAt(runes, from, |runes|) && |h| == 3
    requires t == h + "\n" + Kept(runes[from..])
    ensures FenceAt(t, 4, |t|) && t[3] == '\n' && t[4..] == Kept(runes[from..]) && |Kept(runes[from..])| >= 3
  {
    var b := runes[from..];
    var kept := Kept(b);
    assert b[0] == '`' && b[1] == '`' && b[2] == '`' && !IsSpace(b[2]);
    assert |kept| >= 3 && kept[0] == b[0] && kept[1] == b[1] && kept[2] == b[2];
  }

  lemma ExtendsToSeven(t: string, maxLen: nat)
    requires 7 <= maxLen <= 9 && |t| > maxLen && OpenBlock(t, 0, maxLen) == Some(0)
    requires 3 <= FirstCut(t, 0, maxLen) < Limit(maxLen) && FenceAt(t, 4, |t|) && t[3] == '\n'
    ensures Decide(t, 0, maxLen) == Extend(FirstCut(t, 0, maxLen), 7)
  {
    hide FirstCut, Scan, OpenBlock, DecideInside;
    assert FirstCut(t, 0, maxLen) <= 4;
    assert NextClosing(t, FirstCut(t, 0, maxLen), |t|) == 7 by {
      hide NextClosing;
      assert !FenceAt(t, 3, |t|);
    }
  }

  lemma LessIsKept(runes: string, start: nat, from: nat, t: string)
    requires start <= from <= |runes| && |t| >= 7 && t[4..] == Kept(runes[from..]) && |Kept(runes[from..])| >= 3
    ensures Weight(t, 7) < Weight(runes, start)
  {
    var kept := Kept(runes[from..]);
    assert from + 3 <= |runes|;
    hide Weight, Kept;
    assert forall i :: 0 <= i < |kept| ==> kept[i] == t[4..][i] == t[4 + i];
    WeightOfSameEnd(t, 7, kept, 3);
    WeightOfKept(runes, from, 3);
    WeightLater(runes, start, from + 3);
  }

  // ----- every run ends or is stuck --------------------------------------------------------------------

  lemma StepInks(s: State, maxLen: nat)
    requires maxLen > 0 && s.start <= |s.runes| && Inked(s)
    ensures Step(s, maxLen).start <= |Step(s, maxLen).runes| && Inked(Step(s, maxLen))
  {
    hide Decide, TrimSpace;
  }

  /** After the first iteration no state stands at a newline. */
  lemma FirstStepInks(content: string, maxLen: nat)
    requires maxLen > 0 && content != ""
    ensures var s := Step(State(content, 0, []), maxLen); s.start <= |s.runes| && Inked(s)
  {
    hide Decide, TrimSpace;
  }

  lemma {:induction false} IterateAfter(step: State -> State, s: State, a: nat, b: nat)
    ensures Iterate(step, Iterate(step, s, a), b) == Iterate(step, s, a + b)
  {
    if b > 0 {
      IterateAfter(step, s, a, b - 1);
    }
  }

  function Left(s: State): nat
    requires s.start <= |s.runes|
  {
    Weight(s.runes, s.start)
  }

  /** An iteration that injects nothing leaves less. */
  lemma EmitIsLighter(s: State, maxLen: nat)
    requires maxLen > 0 && !Done(s) && !Decide(s.runes, s.start, maxLen).Inject?
    requires !Decide(s.runes, s.start, maxLen).Rest?
    ensures Step(s, maxLen).start <= |Step(s, maxLen).runes| && Left(Step(s, maxLen)) < Left(s)
  {
    hide Decide, Weight;
    var t := Step(s, maxLen);
    assert t.runes == s.runes && s.start < t.start <= |s.runes|;
    WeightLater(s.runes, s.start, t.start);
  }

  lemma RestStep(s: State, maxLen: nat)
    requires maxLen > 0 && |s.runes| - s.start <= maxLen
    ensures Done(Step(s, maxLen))
  {
  }

  lemma InjectStep(s: State, maxLen: nat)
    requires maxLen > 0 && s.start + maxLen < |s.runes| && Inked(s)
    requires Decide(s.runes, s.start, maxLen).Inject? && !OpensLong(s.runes, s.start, maxLen)
    ensures Step(s, maxLen).start <= |Step(s, maxLen).runes| && Left(Step(s, maxLen)) < Left(s)
  {
    InjectIsLighter(s.runes, s.start, maxLen);
    hide Decide, Weight, Reopened, OpensLong, Step;
    InjectsStep(s, maxLen);
  }

  /** What an injection into a long opening leads to in two iterations, if nothing is stuck. */
  lemma LongTwoSteps(s: State, maxLen: nat)
    requires maxLen > 0 && s.start + maxLen < |s.runes| && OpensLong(s.runes, s.start, maxLen) && Inked(s)
    requires !StuckState(Step(s, maxLen), maxLen)
    ensures var u := Step(Step(s, maxLen), maxLen);
            Done(u) || (u.start <= |u.runes| && Inked(u) && Left(u) < Left(s))
  {
    hide OpensLong, Refilled, Weight, Stuck, Shortcut;
    LongStep(s, maxLen);
    var t := Step(s, maxLen);
    if |t.runes| <= maxLen {
      RestStep(t, maxLen);
    } else {
      if !Shortcut(s.runes, s.start, maxLen) {
        LongLeavesStuck(s.runes, s.start, maxLen);
      }
      ShortcutExtends(s.runes, s.start, maxLen);
      StepInks(s, maxLen);
      StepInks(t, maxLen);
      ExtendStep(t, maxLen);
    }
  }

  lemma ExtendStep(t: State, maxLen: nat)
    requires maxLen > 0 && !Done(t) && t.start == 0 && Decide(t.runes, 0, maxLen).Extend?
    ensures var u, end := Step(t, maxLen), Decide(t.runes, 0, maxLen).end;
            end <= |t.runes| && u.start <= |u.runes| && Left(u) <= Weight(t.runes, end)
  {
    hide Decide, Weight;
    var u, end := Step(t, maxLen), Decide(t.runes, 0, maxLen).end;
    WeightLater(t.runes, end, u.start);
  }

  /** From every state that does not stand at a newline the splitter comes to its end or to a stuck text. */
  lemma {:induction false} EndsOrSticks(s: State, maxLen: nat) returns (n: nat)
    requires maxLen > 0 && s.start <= |s.runes| && Inked(s)
    ensures var t := Iterate(Stepper(maxLen), s, n); Done(t) || StuckState(t, maxLen)
    decreases Left(s)
  {
    hide Decide, OpensLong, StuckState, Left, Step, Inked;
    if Done(s) {
      return 0;
    }
    var t := Step(s, maxLen);
    StepInks(s, maxLen);
    if |s.runes| - s.start <= maxLen {
      RestStep(s, maxLen);
      IterateOnce(s, maxLen);
      return 1;
    }
    if OpensLong(s.runes, s.start, maxLen) {
      if StuckState(t, maxLen) {
        IterateOnce(s, maxLen);
        return 1;
      }
      LongTwoSteps(s, maxLen);
      var u := Step(t, maxLen);
      IterateTwice(s, maxLen);
      if Done(u) {
        return 2;
      }
      n := EndsOrSticks(u, maxLen);
      IterateAfter(Stepper(maxLen), s, 2, n);
      n := 2 + n;
    } else {
      if Decide(s.runes, s.start, maxLen).Inject? {
        InjectStep(s, maxLen);
      } else {
        EmitIsLighter(s, maxLen);
      }
      n := EndsOrSticks(t, maxLen);
      IterateOnce(s, maxLen);
      IterateAfter(Stepper(maxLen), s, 1, n);
      n := 1 + n;
    }
  }

  lemma IterateOnce(s: State, maxLen: nat)
    requires maxLen > 0
    ensures Iterate(Stepper(maxLen), s, 1) == Step(s, maxLen)
  {
    hide Step;
    assert Iterate(Stepper(maxLen), s, 0) == s;
  }

  lemma IterateTwice(s: State, maxLen: nat)
    requires maxLen > 0
    ensures Iterate(Stepper(maxLen), s, 2) == Step(Step(s, maxLen), maxLen)
  {
    hide Step;
    IterateOnce(s, maxLen);
  }

  lemma ComesToEnd(content: string, maxLen: nat) returns (n: nat)
    requires maxLen > 0
    ensures Done(Run(content, maxLen, n)) || StuckState(Run(content, maxLen, n), maxLen)
  {
    hide StuckState, Step, Inked;
    if content == "" {
      return 0;
    }
    var init := State(content, 0, []);
    FirstStepInks(content, maxLen);
    IterateOnce(init, maxLen);
    n := EndsOrSticks(Step(init, maxLen), maxLen);
    IterateAfter(Stepper(maxLen), init, 1, n);
    n := 1 + n;
  }

  /** For every text and every maxLen > 0: the splitter ends if and only if its run never comes to a stuck text. */
  lemma TerminatesIffNeverStuck(content: string, maxLen: nat)
    requires maxLen > 0
    ensures Terminates(content, maxLen) <==> forall n: nat :: !StuckState(Run(content, maxLen, n), maxLen)
  {
    hide Run, StuckState;
    if n: nat :| StuckState(Run(content, maxLen, n), maxLen) {
      StuckRunsDoNotEnd(content, maxLen, n);
    } else {
      var n := ComesToEnd(content, maxLen);
      assert Done(Run(content, maxLen, n));
    }
  }

  // ----- a single block that is not closed --------------------------------------------------------------

  /** The only fences of the text overlap its first three runes: it is one block, opened by three to five backticks. */
  predicate OneOpenBlock(text: string) {
    FenceAt(text, 0, |text|) && forall i :: 3 <= i < |text| ==> !FenceAt(text, i, |text|)
  }

  lemma OneBlockCut(text: string, maxLen: nat)
    requires maxLen >= 5 && |text| > maxLen && FenceAt(text, 0, |text|)
    ensures FirstCut(text, 0, maxLen) >= 3
  {
    hide LastInRange;
    assert Limit(maxLen) >= 3;
  }

  lemma OneBlockOpensLong(text: string, maxLen: nat)
    requires maxLen >= 5 && |text| > maxLen && OneOpenBlock(text) && |Header(text, 0)| + 6 >= maxLen
    ensures OpensLong(text, 0, maxLen)
  {
    OneBlockCut(text, maxLen);
    hide FirstCut, Header, Limit;
    var cut := FirstCut(text, 0, maxLen);
    forall k | 3 <= k < cut
      ensures !FenceAt(text, k, cut)
    {
      assert !FenceAt(text, k, |text|);
    }
    assert FenceAt(text, 0, cut);
    NoRoom(text, 3, cut, Some(0));
    assert Scan(text, 0, cut, None) == Some(0);
    OpenBlockIs(text, maxLen, cut);
    assert NextClosing(text, cut, |text|) == -1;
  }

  /** The headers of the fences inside the first line are no longer than that line's. */
  lemma OverlappingHeader(text: string, i: nat)
    requires FenceAt(text, 0, |text|) && i < 3 && FenceAt(text, i, |text|)
    ensures |Header(text, i)| <= |Header(text, 0)|
  {
    BehindFence(text, i);
    hide Header, NewlineFrom, FenceAt;
    if NewlineFrom(text, 0) == -1 {
      NoNewlineHeader(text, 0);
      NoNewlineHeader(text, i);
    } else {
      InnerHeader(text, i);
    }
  }

  lemma BehindFence(text: string, i: nat)
    requires FenceAt(text, 0, |text|) && i < 3
    ensures NewlineFrom(text, i) == NewlineFrom(text, 0)
  {
    hide NewlineFrom;
    assert text[0] != '\n' && text[1] != '\n' && text[2] != '\n';
  }

  lemma InnerHeader(text: string, i: nat)
    requires FenceAt(text, 0, |text|) && FenceAt(text, i, |text|)
    requires NewlineFrom(text, i) == NewlineFrom(text, 0) != -1
    ensures |Header(text, i)| <= |Header(text, 0)|
  {
    BehindHeader(text, 0);
    HeaderShape(text, i);
    HeaderInLine(text, i);
    hide Header, HeaderEnd, NewlineFrom, FenceAt;
    var h := |Header(text, i)|;
    assert text[i + h - 1] == Header(text, i)[h - 1] && !IsSpace(text[i + h - 1]);
  }

  /**
   * For a text that is one unclosed block too long for a chunk, opened by three or more backticks, the splitter
   * terminates if and only if the header line leaves at least 7 of the maxLen runes. (The text without a newline is
   * left to TerminatesIffNeverStuck if it opens with five backticks.)
   */
  lemma TerminatesIff(content: string, maxLen: nat)
    requires maxLen >= 5 && |content| > maxLen && !IsSpace(content[|content| - 1]) && OneOpenBlock(content)
    requires NewlineFrom(content, 0) != -1 || !FenceAt(content, 2, |content|)
    ensures Terminates(content, maxLen) <==> |Header(content, 0)| + 7 <= maxLen
  {
    hide Header, Run;
    if |Header(content, 0)| + 7 <= maxLen {
      forall i | 0 <= i < |content| && FenceAt(content, i, |content|)
        ensures |Header(content, i)| + 7 <= maxLen
      {
        OverlappingHeader(content, i);
      }
      Ends(content, maxLen);
    } else {
      OneBlockOpensLong(content, maxLen);
      OneBlockSticks(content, maxLen);
    }
  }

  lemma NoShortcut(content: string, maxLen: nat)
    requires maxLen >= 5 && |content| > maxLen && OneOpenBlock(content)
    requires NewlineFrom(content, 0) != -1 || !FenceAt(content, 2, |content|)
    ensures !Shortcut(content, 0, maxLen)
  {
    hide NewlineFrom, FenceAt;
    assert maxLen >= 8 ==> !FenceAt(content, maxLen - 5, |content|);
  }

  lemma OneBlockSticks(content: string, maxLen: nat)
    requires maxLen >= 5 && |content| > maxLen && !IsSpace(content[|content| - 1]) && OneOpenBlock(content)
    requires NewlineFrom(content, 0) != -1 || !FenceAt(content, 2, |content|)
    requires OpensLong(content, 0, maxLen)
    ensures !Terminates(content, maxLen)
  {
    NoShortcut(content, maxLen);
    RefilledGrows(content, maxLen);
    hide Header, OpensLong, NewlineFrom, Step, Terminates, FenceAt, Shortcut, Stuck, Refilled, OneOpenBlock;
    LongLeavesStuck(content, 0, maxLen);
    LongStep(State(content, 0, []), maxLen);
    IterateOnce(State(content, 0, []), maxLen);
    StuckRunsDoNotEnd(content, maxLen, 1);
  }
}
