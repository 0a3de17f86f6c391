/** When a chunk closes every fence it opens, judged by the splitter's own scanner. */
module SplitBalance {
  import opened Text
  import opened Split

  predicate Balanced(chunk: string) {
    Scan(chunk, 0, |chunk|, None).None?
  }

  /** Where the scanner of runes[..end], starting at i, first stands at or past `cut`. */
  function Resume(runes: string, i: nat, cut: nat, end: nat): (r: nat)
    requires i <= cut <= end <= |runes|
    ensures cut <= r <= end && r <= cut + 2
    ensures r > cut ==> cut <= r - 1 && r >= 3 && FenceAt(runes, r - 3, end) && r - 3 < cut
    decreases cut - i
  {
    if i == cut then i
    else if FenceAt(runes, i, end) then (if i + 3 <= cut then Resume(runes, i + 3, cut, end) else i + 3)
    else Resume(runes, i + 1, cut, end)
  }

  /** No fence that the scanner meets begins before the cut and ends after it. */
  predicate Clean(runes: string, start: nat, cut: nat, end: nat)
    requires start <= cut <= end <= |runes|
  {
    Resume(runes, start, cut, end) == cut
  }

  lemma NotBetweenBackticks(runes: string, start: nat, cut: nat, end: nat)
    requires start < cut <= end <= |runes|
    requires cut < |runes| ==> runes[cut - 1] != '`' || runes[cut] != '`'
    ensures Clean(runes, start, cut, end)
  {
  }

  /** Scanning a piece is scanning that stretch of the text. */
  lemma {:induction false} ScanPiece(runes: string, a: nat, b: nat, i: nat, open: Option<nat>, open': Option<nat>)
    requires a + i <= b <= |runes| && open.None? == open'.None?
    ensures Scan(runes[a..b], i, b - a, open).None? == Scan(runes, a + i, b, open').None?
    decreases b - i
  {
    var piece := runes[a..b];
    if a + i < b {
      if FenceAt(piece, i, b - a) {
        ScanPiece(runes, a, b, i + 3, if open.None? then Some(i) else None, if open'.None? then Some(a + i) else None);
      } else {
        ScanPiece(runes, a, b, i + 1, open, open');
      }
    }
  }

  lemma ScanStep(runes: string, i: nat, end: nat, open: Option<nat>)
    requires end <= |runes|
    ensures Scan(runes, i, end, open) ==
            if i >= end then open
            else if FenceAt(runes, i, end) then Scan(runes, i + 3, end, if open.None? then Some(i) else None)
            else Scan(runes, i + 1, end, open)
  {
  }

  /** The scan up to `end` is the scan up to the cut, resumed: a fence across the cut toggles once more. */
  lemma {:induction false} ScanResumes(runes: string, i: nat, cut: nat, end: nat, open: Option<nat>)
    requires i <= cut <= end <= |runes|
    ensures var r, before := Resume(runes, i, cut, end), Scan(runes, i, cut, open);
            var at := if r == cut then before else if before.None? then Some((r - 3) as nat) else None;
            Scan(runes, i, end, open) == Scan(runes, r, end, at)
    decreases cut - i
  {
    hide Scan;
    ScanStep(runes, i, end, open);
    ScanStep(runes, i, cut, open);
    if i < cut {
      if FenceAt(runes, i, end) {
        if i + 3 <= cut {
          assert FenceAt(runes, i, cut);
          ScanResumes(runes, i + 3, cut, end, if open.None? then Some(i) else None);
        } else {
          NoRoom(runes, i, cut, open);
        }
      } else {
        assert !FenceAt(runes, i, cut);
        ScanResumes(runes, i + 1, cut, end, open);
      }
    }
  }

  lemma {:induction false} NoRoom(runes: string, i: nat, end: nat, open: Option<nat>)
    requires end <= |runes|
    requires forall k :: i <= k < end ==> !FenceAt(runes, k, end)
    ensures Scan(runes, i, end, open) == open
    decreases end - i
  {
    if i < end {
      NoRoom(runes, i + 1, end, open);
    }
  }

  lemma {:induction false} ToFirstFence(runes: string, i: nat, fence: nat, end: nat, open: Option<nat>)
    requires i <= fence && end == fence + 3 && end <= |runes| && FenceAt(runes, fence, end)
    requires forall k :: i <= k < fence ==> !FenceAt(runes, k, end)
    ensures Scan(runes, i, end, open) == if open.None? then Some(fence) else None
    decreases fence - i
  {
    if i < fence {
      ToFirstFence(runes, i + 1, fence, end, open);
    }
  }

  /**
   * A chunk that runs on to a closing fence is balanced exactly when no fence met by the scanner straddles the first
   * cut, or the straddling one overlaps the fence it ran on to.
   */
  lemma ExtendedBalance(runes: string, start: nat, cut: nat, end: nat)
    requires start < cut <= end - 3 && end <= |runes|
    requires Scan(runes, start, cut, None).Some? && NextClosing(runes, cut, |runes|) == end
    ensures Balanced(runes[start..end]) <==> Clean(runes, start, cut, end) || end - 3 < Resume(runes, start, cut, end)
  {
    var r := Resume(runes, start, cut, end);
    ScanPiece(runes, start, end, 0, None, None);
    ScanResumes(runes, start, cut, end, None);
    forall k | cut <= k < end - 3
      ensures !FenceAt(runes, k, end)
    {
      assert !FenceAt(runes, k, |runes|);
    }
    var at := if r == cut then Scan(runes, start, cut, None) else None;
    if r <= end - 3 {
      ToFirstFence(runes, r, end - 3, end, at);
    } else {
      NoRoom(runes, r, end, at);
    }
  }

  /** An open text that is trimmed, given a newline and a fence, is closed; a closed one is opened again. */
  lemma ClosedBalance(text: string)
    ensures Balanced(Closed(text)) <==> !Balanced(text)
  {
    var kept := TrimEnd(text, IsBlank);
    var k, chunk := |kept|, Closed(text);
    assert chunk[..k] == kept == text[..k];
    assert forall i :: k <= i < |text| ==> IsBlank(text[i]);
    ScanCut(text, k, None);
    ScanCut(chunk, k, None);
    ScanSame(text, chunk, 0, k, None);
    ToFirstFence(chunk, k, k + 1, k + 4, Scan(chunk, 0, k, None));
    NoRoom(text, k, |text|, Scan(text, 0, k, None));
  }

  /** The scan of a text factors at a place with a backtick on one side only. */
  lemma ScanCut(s: string, k: nat, open: Option<nat>)
    requires k <= |s| && (k < |s| ==> s[k] != '`')
    ensures Scan(s, 0, |s|, open) == Scan(s, k, |s|, Scan(s, 0, k, open))
  {
    ScanResumes(s, 0, k, |s|, open);
    assert Resume(s, 0, k, |s|) == k;
  }

  lemma {:induction false} ScanSame(s: string, t: string, i: nat, k: nat, open: Option<nat>)
    requires k <= |s| && k <= |t| && s[..k] == t[..k]
    ensures Scan(s, i, k, open) == Scan(t, i, k, open)
    decreases k - i
  {
    if i < k {
      assert forall j :: 0 <= j < k ==> s[j] == s[..k][j] && t[j] == t[..k][j];
      ScanSame(s, t, i + 1, k, open);
      if FenceAt(s, i, k) {
        ScanSame(s, t, i + 3, k, if open.None? then Some(i) else None);
      }
    }
  }

  /**
   * Closing a block that is open at the cut and has no closing fence before `end` gives a balanced chunk exactly
   * when no fence met by the scanner straddles the cut.
   */
  lemma InjectedBalance(runes: string, start: nat, cut: nat, end: nat)
    requires start < cut <= end <= |runes|
    requires Scan(runes, start, cut, None).Some?
    requires NextClosing(runes, cut, |runes|) == -1 || NextClosing(runes, cut, |runes|) > end
    ensures Balanced(Closed(runes[start..end])) <==> Clean(runes, start, cut, end)
  {
    var r := Resume(runes, start, cut, end);
    ClosedBalance(runes[start..end]);
    ScanPiece(runes, start, end, 0, None, None);
    ScanResumes(runes, start, cut, end, None);
    forall k | cut <= k < end
      ensures !FenceAt(runes, k, end)
    {
      assert !FenceAt(runes, k, |runes|) || NextClosing(runes, cut, |runes|) <= k + 3;
    }
    NoRoom(runes, r, end, if r == cut then Scan(runes, start, cut, None) else None);
  }

  lemma {:induction false} ScanFlips(runes: string, i: nat, end: nat, open: Option<nat>, open': Option<nat>)
    requires end <= |runes| && open.None? != open'.None?
    ensures Scan(runes, i, end, open).None? != Scan(runes, i, end, open').None?
    decreases end - i
  {
    if i < end {
      if FenceAt(runes, i, end) {
        ScanFlips(runes, i + 3, end, if open.None? then Some(i) else None, if open'.None? then Some(i) else None);
      } else {
        ScanFlips(runes, i + 1, end, open, open');
      }
    }
  }

  /** Where no fence straddles the seam, a stretch of text is balanced if and only if both or none of its parts are. */
  lemma BalancedJoin(runes: string, a: nat, k: nat, e: nat)
    requires a <= k <= e <= |runes| && Clean(runes, a, k, e)
    ensures Balanced(runes[a..e]) <==> (Balanced(runes[a..k]) <==> Balanced(runes[k..e]))
  {
    hide Scan;
    ScanPiece(runes, a, e, 0, None, None);
    ScanPiece(runes, a, k, 0, None, None);
    ScanPiece(runes, k, e, 0, None, None);
    ScanResumes(runes, a, k, e, None);
    var before := Scan(runes, a, k, None);
    if before.Some? {
      ScanFlips(runes, k, e, before, None);
    }
  }

  /** The scanner reaches the fence that it finds open with every earlier fence closed. */
  lemma {:induction false} OpenIsReached(runes: string, i: nat, cut: nat, before: Option<nat>, open: nat)
    requires i <= open && cut <= |runes| && (before.Some? ==> before.value < i)
    requires Scan(runes, i, cut, before) == Some(open)
    ensures open <= |runes| && Scan(runes, i, open, before).None?
    decreases open - i
  {
    if i < open {
      if FenceAt(runes, i, cut) {
        assert i + 3 <= open;
        OpenIsReached(runes, i + 3, cut, if before.None? then Some(i) else None, open);
      } else {
        OpenIsReached(runes, i + 1, cut, before, open);
      }
    }
  }

  /**
   * A chunk that stops before the open block is balanced if and only if the stretch between its end and the block is:
   * it ends inside an earlier block exactly when that block's closing fence stands in this stretch.
   */
  lemma StoppedBalance(runes: string, start: nat, cut: nat, end: nat, open: nat)
    requires start < end <= open < |runes| && cut <= |runes| && Scan(runes, start, cut, None) == Some(open)
    requires end == open || runes[end] != '`'
    ensures Balanced(runes[start..end]) <==> Balanced(runes[end..open])
  {
    hide Scan, Resume;
    OpenIsReached(runes, start, cut, None, open);
    ScanPiece(runes, start, open, 0, None, None);
    if end < open {
      NotBetweenBackticks(runes, start, end, open);
      BalancedJoin(runes, start, end, open);
    } else {
      NoRoom(runes[end..open], 0, 0, None);
    }
  }

  predicate BetweenIsBalanced(runes: string, start: nat, maxLen: nat, end: nat)
    requires maxLen > 0 && start + maxLen < |runes|
  {
    var open := OpenBlock(runes, start, maxLen);
    open.Some? && end <= open.value && Balanced(runes[end..open.value])
  }

  /** For every maxLen > 0: the exact balance of a chunk that stops before the open block. */
  lemma BeforeBalance(runes: string, start: nat, maxLen: nat)
    requires maxLen > 0 && start + maxLen < |runes| && Decide(runes, start, maxLen).Before?
    ensures var d := Decide(runes, start, maxLen);
            start < d.end <= |runes|
            && (Balanced(runes[start..d.end]) <==> BetweenIsBalanced(runes, start, maxLen, d.end))
  {
    hide Decide, HeaderEnd, NextClosing, FirstCut, Scan;
    DecideExplained(runes, start, maxLen);
    var d, open := Decide(runes, start, maxLen), OpenBlock(runes, start, maxLen).value;
    StoppedBalance(runes, start, FirstCut(runes, start, maxLen), d.end, open);
  }

  /** Such a chunk is balanced whenever no fence stands between its end and the open block. */
  lemma StopsOutsideBlocks(runes: string, start: nat, maxLen: nat)
    requires maxLen > 0 && start + maxLen < |runes| && Decide(runes, start, maxLen).Before?
    requires forall k :: Decide(runes, start, maxLen).end <= k && k + 3 <= OpenBlock(runes, start, maxLen).value ==>
               !FenceAt(runes, k, |runes|)
    ensures Balanced(runes[start..Decide(runes, start, maxLen).end])
  {
    hide Decide, OpenBlock, Scan;
    BeforeBalance(runes, start, maxLen);
    DecideExplained(runes, start, maxLen);
    var end, open := Decide(runes, start, maxLen).end, OpenBlock(runes, start, maxLen).value;
    var between := runes[end..open];
    forall k | 0 <= k < |between|
      ensures !FenceAt(between, k, |between|)
    {
      assert end + k + 3 <= open ==> !FenceAt(runes, end + k, |runes|);
    }
    NoRoom(between, 0, |between|, None);
  }

  /** What the decision promises about the chunk it makes, for every text, start and maxLen >= 10. */
  predicate BalanceOf(d: Decision, runes: string, start: nat, maxLen: nat)
    requires maxLen > 0 && InRange(d, runes, start, maxLen) && start <= |runes|
  {
    match d
    case Rest => true
    case Before(_, end) =>
      start + maxLen < |runes|
      && (Balanced(runes[start..end]) <==> BetweenIsBalanced(runes, start, maxLen, end))
    case Plain(cut) => Balanced(runes[start..cut])
    case Extend(cut, end) =>
      start <= cut <= end
      && (Balanced(runes[start..end]) <==>
          Clean(runes, start, cut, end) || end - 3 < Resume(runes, start, cut, end))
    case Inject(cut, end, _) =>
      start <= cut <= end && (Balanced(Closed(runes[start..end])) <==> Clean(runes, start, cut, end))
  }

  lemma ExplainedBalance(d: Decision, runes: string, start: nat, maxLen: nat)
    requires maxLen >= 10 && start < |runes|
    requires InRange(d, runes, start, maxLen) && Explained(d, runes, start, maxLen)
    ensures BalanceOf(d, runes, start, maxLen)
  {
    hide HeaderEnd, Header, LastInRange, Clean, Resume, Closed, FirstCut, NextClosing;
    match d
    case Rest =>
    case Before(_, end) =>
      var cut := FirstCut(runes, start, maxLen);
      StoppedBalance(runes, start, cut, end, OpenBlock(runes, start, maxLen).value);
    case Plain(cut) => ScanPiece(runes, start, cut, 0, None, None);
    case Extend(cut, end) => ExtendedBalance(runes, start, cut, end);
    case Inject(cut, end, _) =>
      BetterCut(runes, start, maxLen, HeaderEnd(runes, OpenBlock(runes, start, maxLen).value));
      InjectedBalance(runes, start, cut, end);
  }

  /** For maxLen >= 10, on every text and from every start: what the chunk of the next iteration is worth. */
  lemma DecisionBalance(runes: string, start: nat, maxLen: nat)
    requires maxLen >= 10 && start < |runes|
    ensures BalanceOf(Decide(runes, start, maxLen), runes, start, maxLen)
  {
    var d := Decide(runes, start, maxLen);
    DecideExplained(runes, start, maxLen);
    ExplainedBalance(d, runes, start, maxLen);
  }

  predicate BalancedChunk(d: Decision, runes: string, start: nat, maxLen: nat)
    requires InRange(d, runes, start, maxLen) && start <= |runes|
  {
    match d
    case Extend(_, end) => Balanced(runes[start..end])
    case Inject(_, end, _) => Balanced(Closed(runes[start..end]))
    case Plain(cut) => Balanced(runes[start..cut])
    case _ => true
  }

  lemma CleanCutBalances(d: Decision, runes: string, start: nat, maxLen: nat)
    requires maxLen > 0 && start < |runes| && InRange(d, runes, start, maxLen) && BalanceOf(d, runes, start, maxLen)
    requires d.Extend? || d.Inject? ==> start < d.cut < |runes| && (runes[d.cut - 1] != '`' || runes[d.cut] != '`')
    ensures BalancedChunk(d, runes, start, maxLen)
  {
    match d
    case Extend(cut, end) => NotBetweenBackticks(runes, start, cut, end);
    case Inject(cut, end, _) => NotBetweenBackticks(runes, start, cut, end);
    case _ =>
  }

  /** If the first cut is not between two backticks the chunk is balanced, unless it ends before the open block. */
  lemma NaturalCutBalances(runes: string, start: nat, maxLen: nat)
    requires maxLen >= 10 && start + maxLen < |runes|
    requires var cut := FirstCut(runes, start, maxLen); runes[cut - 1] != '`' || runes[cut] != '`'
    ensures BalancedChunk(Decide(runes, start, maxLen), runes, start, maxLen)
  {
    hide Decide, BalanceOf, BalancedChunk, Header, HeaderEnd, NextClosing, LastInRange, Scan;
    var d := Decide(runes, start, maxLen);
    DecisionBalance(runes, start, maxLen);
    DecideExplained(runes, start, maxLen);
    CleanCutBalances(d, runes, start, maxLen);
  }
}
