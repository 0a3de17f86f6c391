/** When the splitter comes to an end. */
module SplitTermination {
  import opened Text
  import opened Split

  // ----- the reopened text ---------------------------------------------------------------------

  lemma HeaderShape(runes: string, open: nat)
    requires FenceAt(runes, open, |runes|)
    ensures var h := Header(runes, open);
            && 3 <= |h| <= |runes| - open && h == runes[open..open + |h|] && h[..3] == FENCE
            && !IsSpace(h[0]) && !IsSpace(h[|h| - 1])
            && (forall i :: 0 <= i < |h| ==> h[i] != '\n')
            && open + |h| <= HeaderEnd(runes, open)
  {
    hide TrimSpace, TrimStart, TrimEnd, NewlineFrom;
    var n := NewlineFrom(runes, open);
    var line := runes[open..if n == -1 then open + 3 else n];
    var h := Header(runes, open);
    TrimSpaceFromInk(line);
    assert !IsSpace(line[2]);
    assert h == line[..|h|];
    assert runes[open..open + |h|] == line[..|h|];
    assert forall i :: 0 <= i < |h| ==> h[i] == runes[open + i];
    assert h[..3] == [h[0], h[1], h[2]];
  }

  lemma ReopenedShape(header: string, tail: string)
    requires header != [] && !IsSpace(header[0]) && !IsSpace(header[|header| - 1])
    ensures var kept := TrimEnd(tail, IsSpace);
            Reopened(header, tail) == if kept == [] then header else header + "\n" + kept
  {
    hide TrimSpace, TrimStart, TrimEnd;
    var s, kept := header + "\n" + tail, TrimEnd(tail, IsSpace);
    TrimSpaceFromInk(s);
    assert forall i :: |header| + 1 <= i < |s| ==> s[i] == tail[i - |header| - 1];
    if kept == [] {
      assert s[|header|] == '\n';
      TrimEndUnique(s, IsSpace, |header|);
      assert s[..|header|] == header;
    } else {
      TrimEndUnique(s, IsSpace, |header| + 1 + |kept|);
      assert s[..|header| + 1 + |kept|] == header + "\n" + kept;
    }
  }

  // ----- headers that leave room -----------------------------------------------------------------

  /** Every fence's header line leaves at least 7 of the maxLen runes of a chunk. */
  predicate HeadersFit(runes: string, maxLen: nat) {
    forall i :: 0 <= i < |runes| && FenceAt(runes, i, |runes|) ==> |Header(runes, i)| + 7 <= maxLen
  }

  /** A fence in a stretch of text has there the header that it has in the whole text, or the bare "```". */
  lemma HeaderInPiece(runes: string, piece: string, at: nat, i: nat)
    requires at + |piece| <= |runes| && piece == runes[at..at + |piece|]
    requires FenceAt(piece, i, |piece|)
    ensures FenceAt(runes, at + i, |runes|)
    ensures |Header(piece, i)| <= |Header(runes, at + i)|
  {
    hide TrimSpace, NewlineFrom;
    assert forall k :: 0 <= k < |piece| ==> piece[k] == runes[at + k];
    var n := NewlineFrom(piece, i);
    HeaderShape(runes, at + i);
    if n == -1 {
      assert |Header(piece, i)| <= 3;
    } else {
      var m := NewlineFrom(runes, at + i);
      assert runes[at + n] == piece[n] == '\n';
      assert m != -1 && m <= at + n;
      assert runes[m] == piece[m - at];
      assert m == at + n;
      assert forall k :: 0 <= k < n - i ==> piece[i..n][k] == piece[i + k] == runes[at + i + k] == runes[at + i..m][k];
      assert piece[i..n] == runes[at + i..m];
    }
  }

  lemma FenceInHeader(runes: string, open: nat, i: nat)
    requires FenceAt(runes, open, |runes|) && FenceAt(runes, open + i, |runes|)
    requires i < |Header(runes, open)|
    ensures |Header(runes, open)| - i <= |Header(runes, open + i)|
  {
    hide TrimSpace, TrimStart, TrimEnd, NewlineFrom;
    HeaderShape(runes, open);
    var h, n := Header(runes, open), NewlineFrom(runes, open);
    if n == -1 {
      HeaderShape(runes, open + i);
    } else {
      assert forall k :: 0 <= k < |h| ==> h[k] == runes[open + k];
      var m := NewlineFrom(runes, open + i);
      assert m == n;
      var line := runes[open + i..n];
      TrimSpaceFromInk(line);
      assert line[|h| - i - 1] == h[|h| - 1];
    }
  }

  lemma HeaderOfHeader(text: string, h: string, i: nat)
    requires |h| < |text| && h == text[..|h|] && text[|h|] == '\n'
    requires i + 2 < |h| && FenceAt(text, i, |text|)
    ensures |Header(text, i)| <= |h| - i
  {
    hide TrimSpace, NewlineFrom;
    var n := NewlineFrom(text, i);
    assert n <= |h|;
  }

  lemma TextEndsInKept(text: string, kept: string, at: nat, j: nat)
    requires |text| == at + |kept| && kept == text[at..] && FenceAt(kept, j, |kept|)
    requires FenceAt(text, at + j, |text|)
    ensures |Header(text, at + j)| == |Header(kept, j)|
  {
    hide TrimSpace, NewlineFrom;
    assert forall k :: 0 <= k < |kept| ==> kept[k] == text[at + k];
    var n := NewlineFrom(kept, j);
    var m := NewlineFrom(text, at + j);
    if n == -1 {
      assert m == -1;
      assert kept[j..j + 3] == text[at + j..at + j + 3];
    } else {
      assert m == at + n;
      assert kept[j..n] == text[at + j..m];
    }
  }

  predicate StartsWithLine(text: string, h: string) {
    |h| < |text| && h == text[..|h|] && text[|h|] == '\n'
  }

  lemma FenceInLine(runes: string, open: nat, h: string, text: string, i: nat)
    requires FenceAt(runes, open, |runes|) && h == Header(runes, open)
    requires StartsWithLine(text, h) && i + 2 < |h| && FenceAt(text, i, |text|)
    ensures FenceAt(runes, open + i, |runes|)
    ensures |Header(text, i)| <= |Header(runes, open + i)|
  {
    hide Header, HeaderEnd;
    HeaderShape(runes, open);
    assert forall k :: 0 <= k < |h| ==> text[k] == h[k] == runes[open + k];
    HeaderOfHeader(text, h, i);
    FenceInHeader(runes, open, i);
  }

  lemma FenceInRest(runes: string, end: nat, kept: string, text: string, at: nat, i: nat)
    requires end + |kept| <= |runes| && kept == runes[end..end + |kept|]
    requires |text| == at + |kept| && kept == text[at..] && at <= i && FenceAt(text, i, |text|)
    ensures FenceAt(runes, end + i - at, |runes|) && |Header(text, i)| <= |Header(runes, end + i - at)|
  {
    hide Header, HeaderEnd;
    assert forall k :: 0 <= k < |kept| ==> text[at + k] == kept[k];
    HeaderInPiece(runes, kept, end, i - at);
    TextEndsInKept(text, kept, at, i - at);
  }

  /** Every fence of header + newline + kept is a fence of the old text, with a header that is no longer. */
  lemma RejoinedFence(runes: string, open: nat, end: nat, kept: string, text: string, i: nat) returns (j: nat)
    requires FenceAt(runes, open, |runes|)
    requires end + |kept| <= |runes| && kept == runes[end..end + |kept|]
    requires text == Header(runes, open) + "\n" + kept && FenceAt(text, i, |text|)
    ensures FenceAt(runes, j, |runes|) && |Header(text, i)| <= |Header(runes, j)|
  {
    hide Header, HeaderEnd;
    var h := Header(runes, open);
    assert text[|h|] == '\n' && text[..|h|] == h && text[|h| + 1..] == kept;
    if i + 2 < |h| {
      FenceInLine(runes, open, h, text, i);
      j := open + i;
    } else {
      FenceInRest(runes, end, kept, text, |h| + 1, i);
      j := end + i - |h| - 1;
    }
  }

  /** Putting a header back keeps every header short enough. */
  lemma ReopenedFits(runes: string, open: nat, end: nat, maxLen: nat)
    requires HeadersFit(runes, maxLen) && FenceAt(runes, open, |runes|) && end <= |runes|
    ensures HeadersFit(Reopened(Header(runes, open), runes[end..]), maxLen)
  {
    hide TrimEnd, Header, HeaderEnd, Reopened;
    var h, kept := Header(runes, open), TrimEnd(runes[end..], IsSpace);
    var text := Reopened(h, runes[end..]);
    HeaderShape(runes, open);
    ReopenedShape(h, runes[end..]);
    assert kept == runes[end..end + |kept|];
    forall i | 0 <= i < |text| && FenceAt(text, i, |text|)
      ensures |Header(text, i)| + 7 <= maxLen
    {
      if kept == [] {
        HeaderInPiece(runes, text, open, i);
      } else {
        var j := RejoinedFence(runes, open, end, kept, text, i);
      }
    }
  }

  // ----- every iteration makes progress ------------------------------------------------------------

  lemma ReopenedLength(header: string, tail: string)
    requires header != [] && !IsSpace(header[0]) && !IsSpace(header[|header| - 1])
    ensures |Reopened(header, tail)| <= |header| + 1 + |tail|
  {
    hide TrimEnd, Reopened;
    ReopenedShape(header, tail);
  }

  /**
   * Splitting inside a long block shrinks the text by at least 20 runes, whatever the text: the newline that the wider
   * window finds is either past the first cut or is the first cut, which lies more than 20 runes past the header.
   */
  lemma InnerSplitShrinks(runes: string, start: nat, maxLen: nat)
    requires maxLen > 0 && start + maxLen < |runes|
    requires OpenBlock(runes, start, maxLen).Some? && Decide(runes, start, maxLen).Inject?
    requires FirstCut(runes, start, maxLen) > HeaderEnd(runes, OpenBlock(runes, start, maxLen).value) + 20
    ensures var d := Decide(runes, start, maxLen);
            |Reopened(d.header, runes[d.end..])| + 20 <= |runes| - start
  {
    hide Decide, FirstCut, OpenBlock, HeaderEnd, Header, Reopened;
    var d, open := Decide(runes, start, maxLen), OpenBlock(runes, start, maxLen).value;
    DecideExplained(runes, start, maxLen);
    HeaderShape(runes, open);
    BetterCut(runes, start, maxLen, HeaderEnd(runes, open));
    ReopenedLength(d.header, runes[d.end..]);
  }

  lemma LastResortShrinks(runes: string, start: nat, maxLen: nat)
    requires maxLen > 0 && start + maxLen < |runes|
    requires OpenBlock(runes, start, maxLen).Some? && Decide(runes, start, maxLen).Inject?
    requires FirstCut(runes, start, maxLen) <= HeaderEnd(runes, OpenBlock(runes, start, maxLen).value) + 20
    requires |Header(runes, OpenBlock(runes, start, maxLen).value)| + 7 <= maxLen
    ensures var d := Decide(runes, start, maxLen);
            |Reopened(d.header, runes[d.end..])| < |runes| - start
  {
    hide Decide, FirstCut, OpenBlock, HeaderEnd, Header, Reopened;
    var d, open := Decide(runes, start, maxLen), OpenBlock(runes, start, maxLen).value;
    DecideExplained(runes, start, maxLen);
    HeaderShape(runes, open);
    ReopenedLength(d.header, runes[d.end..]);
  }

  /** With maxLen <= 4 the first cut is too early for a fence, so nothing is ever injected. */
  predicate Progressing(runes: string, maxLen: nat) {
    maxLen <= 4 || HeadersFit(runes, maxLen)
  }

  lemma InjectShrinks(runes: string, start: nat, maxLen: nat)
    requires maxLen > 0 && start < |runes| && Progressing(runes, maxLen) && Decide(runes, start, maxLen).Inject?
    ensures var d := Decide(runes, start, maxLen);
            && |Reopened(d.header, runes[d.end..])| < |runes| - start
            && Progressing(Reopened(d.header, runes[d.end..]), maxLen)
  {
    hide Decide, FirstCut, OpenBlock, HeaderEnd, Header, Reopened;
    var d := Decide(runes, start, maxLen);
    DecideExplained(runes, start, maxLen);
    var open := OpenBlock(runes, start, maxLen).value;
    ReopenedFits(runes, open, d.end, maxLen);
    if FirstCut(runes, start, maxLen) > HeaderEnd(runes, open) + 20 {
      InnerSplitShrinks(runes, start, maxLen);
    } else {
      LastResortShrinks(runes, start, maxLen);
    }
  }

  function Remaining(s: State): nat {
    if Done(s) then 0 else |s.runes| - s.start
  }

  lemma ProgressApply(s: State, d: Decision, maxLen: nat)
    requires !Done(s) && Progressing(s.runes, maxLen) && InRange(d, s.runes, s.start, maxLen)
    requires d.Inject? ==> var t := Reopened(d.header, s.runes[d.end..]);
                           |t| < |s.runes| - s.start && Progressing(t, maxLen)
    ensures Progressing(Apply(s, d).runes, maxLen) && Remaining(Apply(s, d)) < Remaining(s)
    ensures |Apply(s, d).events| == |s.events| + 1
  {
    hide Progressing, Reopened;
  }

  /** Every iteration leaves strictly less to do and keeps the hypothesis on headers. */
  lemma Progress(s: State, maxLen: nat)
    requires maxLen > 0 && !Done(s) && Progressing(s.runes, maxLen)
    ensures Progressing(Next(s, maxLen).runes, maxLen) && Remaining(Next(s, maxLen)) < Remaining(s)
    ensures |Next(s, maxLen).events| == |s.events| + 1
  {
    hide Decide, Progressing, Reopened;
    if Decide(s.runes, s.start, maxLen).Inject? {
      InjectShrinks(s.runes, s.start, maxLen);
    }
    ProgressApply(s, Decide(s.runes, s.start, maxLen), maxLen);
  }

  predicate Bounded(s: State, maxLen: nat, bound: nat) {
    Progressing(s.runes, maxLen) && |s.events| + Remaining(s) <= bound
  }

  lemma {:induction false} OneEventEach(maxLen: nat, s: State, n: nat)
    requires maxLen > 0
    ensures var t := Iterate(Stepper(maxLen), s, n); Done(t) || |t.events| == |s.events| + n
  {
    hide Decide, Apply;
    if n > 0 {
      OneEventEach(maxLen, s, n - 1);
      var t := Iterate(Stepper(maxLen), s, n - 1);
      if !Done(t) {
        ApplyAddsEvent(t, Decide(t.runes, t.start, maxLen), maxLen);
      }
    }
  }

  lemma ApplyAddsEvent(s: State, d: Decision, maxLen: nat)
    requires !Done(s) && InRange(d, s.runes, s.start, maxLen)
    ensures |Apply(s, d).events| == |s.events| + 1
  {
  }

  /** The splitter ends on every text whose headers leave room, after at most one iteration for each rune. */
  lemma Ends(content: string, maxLen: nat)
    requires maxLen > 0 && Progressing(content, maxLen)
    ensures Done(Run(content, maxLen, |content|))
  {
    hide Next, Progressing;
    var init := State(content, 0, []);
    forall s | Bounded(s, maxLen, |content|)
      ensures Bounded(Step(s, maxLen), maxLen, |content|)
    {
      if !Done(s) {
        Progress(s, maxLen);
      }
    }
    Invariant(Stepper(maxLen), s => Bounded(s, maxLen, |content|), init, |content|);
    OneEventEach(maxLen, init, |content|);
  }

  /** The loop ends on the text. */
  ghost predicate Terminates(content: string, maxLen: nat)
    requires maxLen > 0
  {
    exists n: nat :: Done(Run(content, maxLen, n))
  }

  lemma {:induction false} StaysDone(content: string, maxLen: nat, n: nat, m: nat)
    requires maxLen > 0 && n <= m && Done(Run(content, maxLen, n))
    ensures Run(content, maxLen, m) == Run(content, maxLen, n)
  {
    hide Next;
    if n < m {
      StaysDone(content, maxLen, n, m - 1);
    }
  }

  lemma HeaderOfLine(text: string, h: string)
    requires 3 <= |h| < |text| && h == text[..|h|] && text[|h|] == '\n' && FenceAt(text, 0, |text|)
    requires !IsSpace(h[|h| - 1]) && forall i :: 0 <= i < |h| ==> h[i] != '\n'
    ensures Header(text, 0) == h
  {
    hide TrimSpace, TrimEnd;
    assert forall i :: 0 <= i < |h| ==> text[i] == h[i];
    var n := NewlineFrom(text, 0);
    assert n == |h|;
    assert text[0..n] == h;
    TrimSpaceFromInk(h);
    TrimEndUnique(h, IsSpace, |h|);
    assert h[..|h|] == h;
  }
}
