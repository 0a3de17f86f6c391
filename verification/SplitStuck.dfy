/** Blocks whose header line is too long to be put back, and the texts on which the splitter never ends. */
module SplitStuck {
  import opened Text
  import opened Split
  import opened SplitBalance
  import opened SplitTermination

  /**
   * The remaining text opens with a block that is open at the natural cut and not closed within maxLen runes, and
   * whose header line leaves fewer than 7 of the maxLen runes.
   */
  predicate OpensLong(runes: string, start: nat, maxLen: nat)
    requires maxLen > 0 && start + maxLen < |runes|
  {
    && OpenBlock(runes, start, maxLen) == Some(start)
    && ClosesLate(runes, start, FirstCut(runes, start, maxLen), maxLen)
    && |Header(runes, start)| + 6 >= maxLen
  }

  predicate ClosesLate(runes: string, start: nat, cut: nat, maxLen: nat) {
    var closing := NextClosing(runes, cut, |runes|);
    closing == -1 || closing - start > maxLen
  }

  /**
   * A text on which the splitter never ends: each iteration removes maxLen-5 runes and puts back at least as many, and
   * what it leaves is such a text again.
   */
  predicate Stuck(text: string, maxLen: nat) {
    && maxLen >= 5 && |text| > maxLen && OpensLong(text, 0, maxLen)
    && !IsSpace(text[|text| - 1])
    && |Header(text, 0)| < |text| && text[|Header(text, 0)|] == '\n'
  }

  lemma OpensLongParts(text: string, start: nat, maxLen: nat)
    requires maxLen > 0 && start + maxLen < |text| && OpensLong(text, start, maxLen)
    ensures FenceAt(text, start, |text|) && |Header(text, start)| + 6 >= maxLen
  {
    hide FirstCut, Header, ClosesLate, Scan;
  }

  // ----- the same front -------------------------------------------------------------------------------

  predicate SameAt(runes: string, a: nat, text: string, b: nat, n: nat) {
    a + n <= |runes| && b + n <= |text| && runes[a..a + n] == text[b..b + n]
  }

  lemma SameRune(runes: string, a: nat, text: string, b: nat, n: nat, i: nat)
    requires SameAt(runes, a, text, b, n) && i < n
    ensures runes[a + i] == text[b + i]
  {
    assert runes[a..a + n][i] == text[b..b + n][i];
  }

  lemma {:induction false} SameLast(runes: string, a: nat, text: string, b: nat, n: nat, lo: nat, hi: nat,
                                    kind: char -> bool)
    requires SameAt(runes, a, text, b, n) && lo <= hi <= n
    ensures LastFrom(runes, a + lo, a + hi, a - 1, kind) - a == LastFrom(text, b + lo, b + hi, b - 1, kind) - b
    decreases hi
  {
    if lo < hi {
      SameRune(runes, a, text, b, n, hi - 1);
      SameLast(runes, a, text, b, n, lo, hi - 1, kind);
    }
  }

  lemma SameLastInRange(runes: string, a: nat, text: string, b: nat, n: nat, window: nat, kind: char -> bool)
    requires SameAt(runes, a, text, b, n)
    ensures LastInRange(runes, a, a + n, window, kind) - a == LastInRange(text, b, b + n, window, kind) - b
  {
    hide LastFrom;
    SameLast(runes, a, text, b, n, Max(n - window, 0), n, kind);
  }

  lemma SameCut(runes: string, a: nat, text: string, b: nat, maxLen: nat)
    requires maxLen > 0 && a + maxLen < |runes| && b + maxLen < |text| && SameAt(runes, a, text, b, Limit(maxLen))
    ensures FirstCut(runes, a, maxLen) - a == FirstCut(text, b, maxLen) - b
  {
    hide Limit, LastInRange;
    SameLastInRange(runes, a, text, b, Limit(maxLen), 200, IsNewline);
    SameLastInRange(runes, a, text, b, Limit(maxLen), 100, IsGap);
  }

  function Shift(open: Option<nat>, a: nat, b: nat): Option<nat>
    requires open.Some? ==> a <= open.value
  {
    if open.None? then None else Some(open.value - a + b)
  }

  lemma {:induction false} SameScan(runes: string, a: nat, text: string, b: nat, n: nat, i: nat, end: nat,
                                    open: Option<nat>)
    requires SameAt(runes, a, text, b, n) && end <= n && (open.Some? ==> a <= open.value)
    ensures var r := Scan(runes, a + i, a + end, open);
            (r.Some? ==> a <= r.value) && Scan(text, b + i, b + end, Shift(open, a, b)) == Shift(r, a, b)
    decreases end - i
  {
    hide FenceAt;
    if i < end {
      SameFence(runes, a, text, b, n, i, end);
      if FenceAt(runes, a + i, a + end) {
        SameScan(runes, a, text, b, n, i + 3, end, if open.None? then Some(a + i) else None);
      } else {
        SameScan(runes, a, text, b, n, i + 1, end, open);
      }
    }
  }

  lemma SameFence(runes: string, a: nat, text: string, b: nat, n: nat, i: nat, end: nat)
    requires SameAt(runes, a, text, b, n) && end <= n
    ensures FenceAt(runes, a + i, a + end) <==> FenceAt(text, b + i, b + end)
  {
    if i + 2 < end {
      SameRune(runes, a, text, b, n, i);
      SameRune(runes, a, text, b, n, i + 1);
      SameRune(runes, a, text, b, n, i + 2);
    }
  }

  // ----- what a long opening leads to ----------------------------------------------------------------

  lemma LongInjects(runes: string, start: nat, maxLen: nat)
    requires maxLen > 0 && start + maxLen < |runes| && OpensLong(runes, start, maxLen)
    ensures maxLen >= 5
    ensures Decide(runes, start, maxLen)
            == Inject(FirstCut(runes, start, maxLen), start + maxLen - 5, Header(runes, start))
  {
    hide FirstCut, Header, LastInRange, NextClosing, Scan;
    HeaderShape(runes, start);
    assert OpenBlock(runes, start, maxLen) == Some(start);
  }

  /** The text that the injection leaves. */
  function Refilled(runes: string, start: nat, maxLen: nat): string
    requires maxLen >= 5 && start + maxLen < |runes| && FenceAt(runes, start, |runes|)
  {
    Reopened(Header(runes, start), runes[start + maxLen - 5..])
  }

  predicate HeaderLike(h: string) {
    3 <= |h| && h[..3] == FENCE && !IsSpace(h[0]) && !IsSpace(h[|h| - 1]) && forall i :: 0 <= i < |h| ==> h[i] != '\n'
  }

  lemma HeaderIsLike(runes: string, open: nat)
    requires FenceAt(runes, open, |runes|)
    ensures HeaderLike(Header(runes, open)) && SameAt(runes, open, Header(runes, open), 0, |Header(runes, open)|)
  {
    HeaderShape(runes, open);
    hide Header, HeaderEnd;
    var h := Header(runes, open);
    assert h[0..|h|] == h;
  }

  lemma HeaderOfRejoined(h: string, tail: string)
    requires HeaderLike(h)
    ensures var t := h + "\n" + tail; FenceAt(t, 0, |t|) && Header(t, 0) == h
  {
    hide Header;
    var t := h + "\n" + tail;
    assert t[..|h|] == h && t[|h|] == '\n';
    assert h[..3] == [h[0], h[1], h[2]] && t[0] == h[0] && t[1] == h[1] && t[2] == h[2];
    HeaderOfLine(t, h);
  }

  function Kept(tail: string): (r: string)
    ensures |r| <= |tail| && r == tail[..|r|]
  {
    TrimEnd(tail, IsSpace)
  }

  /** Header, newline, and what is kept of the rest; or the header alone. */
  lemma ReopenedParts(h: string, tail: string)
    requires HeaderLike(h)
    ensures var t, kept := Reopened(h, tail), Kept(tail);
            if kept == [] then t == h
            else t == h + "\n" + kept && FenceAt(t, 0, |t|) && Header(t, 0) == h && !IsSpace(t[|t| - 1])
  {
    hide Header, TrimEnd, Reopened;
    ReopenedShape(h, tail);
    HeaderOfRejoined(h, Kept(tail));
  }

  lemma NothingTrimmed(tail: string)
    requires tail != [] && !IsSpace(tail[|tail| - 1])
    ensures Kept(tail) == tail
  {
    hide TrimEnd;
    TrimEndUnique(tail, IsSpace, |tail|);
    assert tail[..|tail|] == tail;
  }

  /** If nothing is kept behind the header, the header is short. */
  lemma AloneIsShort(runes: string, start: nat, maxLen: nat)
    requires maxLen >= 5 && start + maxLen < |runes| && FenceAt(runes, start, |runes|)
    requires Kept(runes[start + maxLen - 5..]) == []
    ensures |Header(runes, start)| <= maxLen
  {
    HeaderIsLike(runes, start);
    hide Header;
    var h, b := Header(runes, start), runes[start + maxLen - 5..];
    SameRune(runes, start, h, 0, |h|, |h| - 1);
    assert forall i :: 0 <= i < |b| ==> IsSpace(b[i]) && b[i] == runes[start + maxLen - 5 + i];
  }

  /** The parts of what the injection leaves, if it does not fit. */
  lemma RefilledParts(runes: string, start: nat, maxLen: nat)
    requires maxLen >= 5 && start + maxLen < |runes| && FenceAt(runes, start, |runes|)
    requires |Refilled(runes, start, maxLen)| > maxLen
    ensures var h, t := Header(runes, start), Refilled(runes, start, maxLen);
            && HeaderLike(h) && SameAt(runes, start, h, 0, |h|)
            && t == h + "\n" + Kept(runes[start + maxLen - 5..])
            && FenceAt(t, 0, |t|) && Header(t, 0) == h && !IsSpace(t[|t| - 1])
  {
    HeaderIsLike(runes, start);
    hide Header, Reopened, Kept, HeaderLike, SameAt;
    ReopenedParts(Header(runes, start), runes[start + maxLen - 5..]);
    if Kept(runes[start + maxLen - 5..]) == [] {
      AloneIsShort(runes, start, maxLen);
    }
  }

  // ----- it is stuck, or nearly all gone --------------------------------------------------------------

  /**
   * The one way out: without a newline the header is the bare fence, and the rest may start with another one, which
   * then closes the block that has just been reopened.
   */
  predicate Shortcut(runes: string, start: nat, maxLen: nat)
    requires maxLen >= 5 && start + maxLen < |runes|
  {
    maxLen >= 7 && NewlineFrom(runes, start) == -1 && FenceAt(runes, start + maxLen - 5, |runes|)
  }

  /** `t` is a header, a newline, and the front of runes[from..]. */
  predicate Rejoined(runes: string, start: nat, from: nat, h: string, t: string) {
    && SameAt(runes, start, h, 0, |h|) && |h| < |t| && t[..|h|] == h && t[|h|] == '\n'
    && from + (|t| - |h| - 1) <= |runes| && t[|h| + 1..] == runes[from..from + (|t| - |h| - 1)]
  }

  lemma Rejoins(runes: string, start: nat, from: nat, h: string, n: nat)
    requires SameAt(runes, start, h, 0, |h|) && from + n <= |runes|
    ensures Rejoined(runes, start, from, h, h + "\n" + runes[from..from + n])
  {
    hide SameAt;
    var piece := runes[from..from + n];
    var t := h + "\n" + piece;
    assert t[..|h|] == h && t[|h| + 1..] == piece;
  }

  lemma KeptIsPiece(runes: string, from: nat)
    requires from <= |runes|
    ensures var n := |Kept(runes[from..])|;
            from + n <= |runes| && Kept(runes[from..]) == runes[from..from + n]
  {
    var n := |Kept(runes[from..])|;
    assert runes[from..][..n] == runes[from..from + n];
  }

  lemma KeptRejoins(runes: string, start: nat, from: nat, h: string)
    requires SameAt(runes, start, h, 0, |h|) && from <= |runes|
    ensures Rejoined(runes, start, from, h, h + "\n" + Kept(runes[from..]))
  {
    hide Kept, SameAt, Rejoined;
    KeptIsPiece(runes, from);
    Rejoins(runes, start, from, h, |Kept(runes[from..])|);
  }

  lemma RefilledRejoins(runes: string, start: nat, maxLen: nat)
    requires maxLen >= 5 && start + maxLen < |runes| && FenceAt(runes, start, |runes|)
    requires |Refilled(runes, start, maxLen)| > maxLen
    ensures Rejoined(runes, start, start + maxLen - 5, Header(runes, start), Refilled(runes, start, maxLen))
  {
    hide Header, Reopened, Kept, HeaderLike, SameAt, Rejoined, Refilled;
    RefilledParts(runes, start, maxLen);
    KeptRejoins(runes, start, start + maxLen - 5, Header(runes, start));
  }

  lemma FrontIsSame(runes: string, start: nat, from: nat, h: string, t: string, n: nat)
    requires Rejoined(runes, start, from, h, t) && n <= |h|
    ensures SameAt(runes, start, t, 0, n)
  {
    assert forall i :: 0 <= i < n ==> runes[start + i] == runes[start..start + |h|][i] == h[0..|h|][i] == t[..|h|][i];
    assert runes[start..start + n] == t[0..0 + n];
  }

  /** Every fence of the rejoined text is one of the old text. */
  lemma RejoinedFenceIsOld(runes: string, start: nat, from: nat, h: string, t: string, k: nat)
    requires Rejoined(runes, start, from, h, t) && FenceAt(t, k, |t|)
    ensures k + 2 < |h| ==> FenceAt(runes, start + k, |runes|)
    ensures k + 2 >= |h| ==> k > |h| && FenceAt(runes, from + (k - |h| - 1), |runes|)
  {
    if k + 2 < |h| {
      FrontIsSame(runes, start, from, h, t, |h|);
      SameRune(runes, start, t, 0, |h|, k);
      SameRune(runes, start, t, 0, |h|, k + 1);
      SameRune(runes, start, t, 0, |h|, k + 2);
    } else {
      var j := k - |h| - 1;
      assert k > |h|;
      var piece := runes[from..from + (|t| - |h| - 1)];
      assert t[k] == piece[j] && t[k + 1] == piece[j + 1] && t[k + 2] == piece[j + 2];
    }
  }

  lemma NoFenceSoon(runes: string, start: nat, cut: nat, maxLen: nat, p: nat)
    requires ClosesLate(runes, start, cut, maxLen) && cut <= p && p + 3 <= start + maxLen
    ensures !FenceAt(runes, p, |runes|)
  {
  }

  /** The rune behind a header whose line ends is a space or that newline. */
  lemma BehindHeader(runes: string, open: nat)
    requires FenceAt(runes, open, |runes|) && NewlineFrom(runes, open) != -1
    ensures var h := Header(runes, open);
            open + |h| < |runes| && IsSpace(runes[open + |h|])
            && forall i :: open + |h| <= i < NewlineFrom(runes, open) ==> IsSpace(runes[i])
  {
    HeaderShape(runes, open);
    hide NewlineFrom, TrimEnd, TrimStart, TrimSpace;
    var n, h := NewlineFrom(runes, open), Header(runes, open);
    var line := runes[open..n];
    TrimSpaceFromInk(line);
    assert forall i :: |h| <= i < |line| ==> IsSpace(line[i]) && line[i] == runes[open + i];
  }

  /** A block that is open at the cut and not closed soon is open at the end of its header too. */
  lemma OpenBehindHeader(runes: string, start: nat, maxLen: nat, k: nat)
    requires maxLen >= 10 && start + maxLen < |runes| && OpensLong(runes, start, maxLen)
    requires k + 1 == start + Limit(maxLen) && k + 3 <= start + maxLen && start < k && runes[k] != '`'
    ensures Scan(runes, start, k, None) == Some(start)
  {
    hide Scan, Resume, LastInRange, NextClosing, Limit, Header;
    var c := FirstCut(runes, start, maxLen);
    assert Scan(runes, start, c, None) == Some(start);
    if c <= k {
      ScanResumes(runes, start, c, k, None);
      assert Clean(runes, start, c, k) by { NotBetweenBackticks(runes, start, c, k); }
      forall i | c <= i < k
        ensures !FenceAt(runes, i, k)
      {
        if i + 3 <= k {
          NoFenceSoon(runes, start, c, maxLen, i);
        }
      }
      NoRoom(runes, c, k, Some(start));
    } else {
      ScanResumes(runes, start, k, c, None);
      assert Clean(runes, start, k, c) by { NotBetweenBackticks(runes, start, k, c); }
      NoRoom(runes, k, c, Scan(runes, start, k, None));
    }
  }

  /** With a long header the front of the refilled text is the old front, up to the limit of the natural cut. */
  lemma LongHeaderKeepsOpen(runes: string, start: nat, maxLen: nat, h: string, t: string)
    requires maxLen >= 5 && start + maxLen < |runes| && |t| > maxLen && OpensLong(runes, start, maxLen)
    requires Rejoined(runes, start, start + maxLen - 5, h, t) && |h| >= Limit(maxLen)
    ensures FirstCut(t, 0, maxLen) == FirstCut(runes, start, maxLen) - start
    ensures OpenBlock(t, 0, maxLen) == Some(0)
  {
    hide FirstCut, Scan, Limit, Rejoined, Header, ClosesLate;
    FrontIsSame(runes, start, start + maxLen - 5, h, t, Limit(maxLen));
    SameCut(runes, start, t, 0, maxLen);
    var n := FirstCut(t, 0, maxLen);
    SameScan(runes, start, t, 0, Limit(maxLen), 0, n, None);
    assert Scan(runes, start, start + n, None) == Some(start);
  }

  lemma CutBehind(runes: string, start: nat, from: nat, h: string, t: string, maxLen: nat)
    requires maxLen >= 5 && |t| > maxLen && Rejoined(runes, start, from, h, t)
    requires 3 <= |h| < Limit(maxLen) && |h| + 6 >= maxLen
    ensures |h| <= FirstCut(t, 0, maxLen) < Limit(maxLen)
  {
    hide LastInRange, Limit;
    var newline := LastInRange(t, 0, Limit(maxLen), 200, IsNewline);
    assert newline >= |h| by { assert IsNewline(t[|h|]) && Limit(maxLen) - |h| <= 200; }
  }

  /** The old text is open at its own end of the header. */
  lemma OpenAtHeaderEnd(runes: string, start: nat, maxLen: nat)
    requires maxLen >= 10 && start + maxLen < |runes| && OpensLong(runes, start, maxLen)
    requires |Header(runes, start)| < Limit(maxLen)
    ensures Scan(runes, start, start + |Header(runes, start)|, None) == Some(start)
  {
    hide FirstCut, Header, NewlineFrom, Limit, Scan, FenceAt, OpensLong;
    OpensLongParts(runes, start, maxLen);
    SpaceBehind(runes, start);
    OpenBehindHeader(runes, start, maxLen, start + |Header(runes, start)|);
  }

  lemma SpaceBehind(runes: string, open: nat)
    requires FenceAt(runes, open, |runes|) && |Header(runes, open)| > 3
    ensures open + |Header(runes, open)| < |runes| && runes[open + |Header(runes, open)|] != '`'
  {
    hide Header, NewlineFrom;
    BareHeader(runes, open);
    BehindHeader(runes, open);
  }

  lemma ScanBehind(runes: string, start: nat, from: nat, h: string, t: string)
    requires Rejoined(runes, start, from, h, t) && Scan(runes, start, start + |h|, None) == Some(start)
    ensures Scan(t, 0, |h|, None) == Some(0)
  {
    hide Rejoined, Scan, SameAt;
    FrontIsSame(runes, start, from, h, t, |h|);
    SameScan(runes, start, t, 0, |h|, 0, |h|, None);
  }

  lemma OpenAtOnce(t: string, cut: nat)
    requires FenceAt(t, 0, |t|) && 3 <= cut <= 5 && cut <= |t|
    ensures Scan(t, 0, cut, None) == Some(0)
  {
    assert FenceAt(t, 0, cut);
    NoRoom(t, 3, cut, Some(0));
  }

  lemma SmallLimit(maxLen: nat)
    requires 0 < maxLen < 10
    ensures Limit(maxLen) <= 5
  {
  }

  /** With a header that ends before that limit the refilled text is cut behind its header. */
  lemma ShortHeaderKeepsOpen(runes: string, start: nat, maxLen: nat, h: string, t: string)
    requires maxLen >= 5 && start + maxLen < |runes| && |t| > maxLen && OpensLong(runes, start, maxLen)
    requires h == Header(runes, start) && FenceAt(t, 0, |t|)
    requires Rejoined(runes, start, start + maxLen - 5, h, t) && 3 <= |h| < Limit(maxLen)
    ensures FirstCut(t, 0, maxLen) >= |h|
    ensures OpenBlock(t, 0, maxLen) == Some(0)
  {
    hide FirstCut, OpenBlock, Rejoined, Header, Scan, Limit, ClosesLate;
    CutBehind(runes, start, start + maxLen - 5, h, t, maxLen);
    var cut := FirstCut(t, 0, maxLen);
    if maxLen >= 10 {
      OpenAtHeaderEnd(runes, start, maxLen);
      ScanBehind(runes, start, start + maxLen - 5, h, t);
      assert cut == |h|;
    } else {
      SmallLimit(maxLen);
      OpenAtOnce(t, cut);
    }
    OpenBlockIs(t, maxLen, cut);
  }

  lemma OpenBlockIs(t: string, maxLen: nat, cut: nat)
    requires maxLen > 0 && |t| > maxLen && cut == FirstCut(t, 0, maxLen)
    ensures OpenBlock(t, 0, maxLen) == Scan(t, 0, cut, None)
  {
    hide FirstCut, Scan;
  }

  lemma BareHeader(runes: string, open: nat)
    requires FenceAt(runes, open, |runes|) && |Header(runes, open)| > 3
    ensures NewlineFrom(runes, open) != -1
  {
    hide NewlineFrom, TrimSpace;
  }

  /** With no newline before the fence at p, the header reaches beyond it. */
  lemma HeaderCovers(runes: string, open: nat, p: nat)
    requires FenceAt(runes, open, |runes|) && NewlineFrom(runes, open) != -1
    requires open <= p && FenceAt(runes, p, |runes|) && p < NewlineFrom(runes, open)
    ensures |Header(runes, open)| >= p + 3 - open
  {
    BehindHeader(runes, open);
    hide Header, NewlineFrom;
    assert !IsSpace(runes[p + 2]) && runes[p + 1] != '\n' && runes[p + 2] != '\n';
  }

  /** If the natural cut is at the limit there is no newline before it. */
  lemma CutAtLimit(runes: string, start: nat, maxLen: nat, i: nat)
    requires 0 < maxLen <= 200 && start + maxLen < |runes|
    requires start < i < FirstCut(runes, start, maxLen) && runes[i] == '\n'
    ensures runes[FirstCut(runes, start, maxLen)] == '\n' && FirstCut(runes, start, maxLen) < start + Limit(maxLen)
  {
    hide LastInRange;
    var newline := LastInRange(runes, start, start + Limit(maxLen), 200, IsNewline);
    assert IsNewline(runes[i]);
  }

  /** A fence of the rest that lies before the natural cut is the shortcut. */
  lemma EarlyFenceIsShortcut(runes: string, start: nat, maxLen: nat, p: nat)
    requires 5 <= maxLen < 10 && start + maxLen < |runes| && FenceAt(runes, start, |runes|)
    requires start + maxLen - 5 <= p < FirstCut(runes, start, maxLen) && FenceAt(runes, p, |runes|)
    requires p - start + |Header(runes, start)| <= 2 * maxLen - 9
    ensures Shortcut(runes, start, maxLen)
  {
    HeaderShape(runes, start);
    hide Header, HeaderEnd, NewlineFrom, FirstCut;
    var n := NewlineFrom(runes, start);
    assert p == start + maxLen - 5 by { SmallLimit(maxLen); }
    assert runes[p] == '`';
    if n != -1 {
      NewlineBehind(runes, start, maxLen, p);
      HeaderCovers(runes, start, p);
    }
  }

  lemma NewlineBehind(runes: string, start: nat, maxLen: nat, p: nat)
    requires 5 <= maxLen < 10 && start + maxLen < |runes| && p == start + maxLen - 5 && runes[p] != '\n'
    requires p < FirstCut(runes, start, maxLen) && FenceAt(runes, start, |runes|) && NewlineFrom(runes, start) != -1
    ensures NewlineFrom(runes, start) > p
  {
    hide NewlineFrom, FirstCut;
    var n := NewlineFrom(runes, start);
    assert n >= start + 3 by { assert runes[start] == runes[start + 1] == runes[start + 2] == '`'; }
    SmallLimit(maxLen);
    if n < p {
      CutAtLimit(runes, start, maxLen, n);
    }
  }

  lemma SoonFenceIsShortcut(runes: string, start: nat, maxLen: nat, p: nat)
    requires maxLen >= 5 && start + maxLen < |runes| && OpensLong(runes, start, maxLen)
    requires start + maxLen - 5 <= p && p + 3 <= start + maxLen && FenceAt(runes, p, |runes|)
    requires p - start + |Header(runes, start)| <= 2 * maxLen - 9
    ensures Shortcut(runes, start, maxLen)
  {
    hide FirstCut, Header, Scan, Shortcut;
    var c := FirstCut(runes, start, maxLen);
    if p >= c {
      NoFenceSoon(runes, start, c, maxLen, p);
    } else {
      EarlyFenceIsShortcut(runes, start, maxLen, p);
    }
  }

  lemma RejoinedFenceIsShortcut(runes: string, start: nat, maxLen: nat, h: string, c: nat, t: string, k: nat)
    requires maxLen >= 5 && start + maxLen < |runes| && OpensLong(runes, start, maxLen)
    requires h == Header(runes, start) && 3 <= |h| && |h| + 6 >= maxLen
    requires c == FirstCut(runes, start, maxLen) && ClosesLate(runes, start, c, maxLen)
    requires Rejoined(runes, start, start + maxLen - 5, h, t) && FenceAt(t, k, |t|)
    requires k + 3 <= maxLen && (k >= |h| || start + k >= c)
    ensures Shortcut(runes, start, maxLen)
  {
    hide FirstCut, Header, Rejoined, Scan, NewlineFrom, Shortcut, ClosesLate, OpensLong, FenceAt, Limit;
    RejoinedFenceIsOld(runes, start, start + maxLen - 5, h, t, k);
    if k + 2 < |h| {
      NoFenceSoon(runes, start, c, maxLen, start + k);
    } else {
      SoonFenceIsShortcut(runes, start, maxLen, start + maxLen - 5 + (k - |h| - 1));
    }
  }

  /** No fence closes the reopened block soon. */
  lemma NoneClosesSoon(runes: string, start: nat, maxLen: nat, t: string, k: nat)
    requires maxLen >= 5 && start + maxLen < |runes| && OpensLong(runes, start, maxLen)
    requires Rejoined(runes, start, start + maxLen - 5, Header(runes, start), t)
    requires !Shortcut(runes, start, maxLen) && k + 3 <= maxLen && 3 <= |Header(runes, start)|
    requires k >= |Header(runes, start)| || start + k >= FirstCut(runes, start, maxLen)
    ensures !FenceAt(t, k, |t|)
  {
    if FenceAt(t, k, |t|) {
      hide FirstCut, Header, Rejoined, Shortcut, ClosesLate, FenceAt, OpenBlock;
      RejoinedFenceIsShortcut(runes, start, maxLen, Header(runes, start), FirstCut(runes, start, maxLen), t, k);
    }
  }

  lemma ClosesLateIs(t: string, cut: nat, maxLen: nat)
    requires forall k :: cut <= k && k + 3 <= maxLen ==> !FenceAt(t, k, |t|)
    ensures ClosesLate(t, 0, cut, maxLen)
  {
    hide FenceAt;
    var r := NextClosing(t, cut, |t|);
    assert r != -1 ==> FenceAt(t, r - 3, |t|);
  }

  /** The reopened block is open at the cut, and not closed soon. */
  lemma ReopenedStaysOpen(runes: string, start: nat, maxLen: nat, h: string, t: string)
    requires maxLen >= 5 && start + maxLen < |runes| && OpensLong(runes, start, maxLen) && |t| > maxLen
    requires !Shortcut(runes, start, maxLen) && h == Header(runes, start) && 3 <= |h| && FenceAt(t, 0, |t|)
    requires Rejoined(runes, start, start + maxLen - 5, h, t)
    ensures OpenBlock(t, 0, maxLen) == Some(0) && ClosesLate(t, 0, FirstCut(t, 0, maxLen), maxLen)
  {
    hide Header, Rejoined, Shortcut, FirstCut, Limit, OpensLong, OpenBlock, ClosesLate, FenceAt;
    if |h| >= Limit(maxLen) {
      LongHeaderKeepsOpen(runes, start, maxLen, h, t);
    } else {
      ShortHeaderKeepsOpen(runes, start, maxLen, h, t);
    }
    var cut := FirstCut(t, 0, maxLen);
    forall k | cut <= k && k + 3 <= maxLen
      ensures !FenceAt(t, k, |t|)
    {
      NoneClosesSoon(runes, start, maxLen, t, k);
    }
    ClosesLateIs(t, cut, maxLen);
  }

  /** What an injection into a long opening leaves fits into a chunk, or is stuck, unless it takes the shortcut. */
  lemma LongLeavesStuck(runes: string, start: nat, maxLen: nat)
    requires maxLen >= 5 && start + maxLen < |runes| && OpensLong(runes, start, maxLen)
    requires !Shortcut(runes, start, maxLen) && |Refilled(runes, start, maxLen)| > maxLen
    ensures Stuck(Refilled(runes, start, maxLen), maxLen)
  {
    hide Header, Reopened, Kept, Rejoined, Shortcut, Refilled, FirstCut, OpensLong, OpenBlock, SameAt, ClosesLate,
         FenceAt;
    OpensLongParts(runes, start, maxLen);
    RefilledParts(runes, start, maxLen);
    RefilledRejoins(runes, start, maxLen);
    var h, t := Header(runes, start), Refilled(runes, start, maxLen);
    ReopenedStaysOpen(runes, start, maxLen, h, t);
    OpensLongIs(t, maxLen);
    assert t[|h|] == '\n' && |h| < |t|;
  }

  lemma OpensLongIs(t: string, maxLen: nat)
    requires maxLen > 0 && |t| > maxLen && OpenBlock(t, 0, maxLen) == Some(0)
    requires ClosesLate(t, 0, FirstCut(t, 0, maxLen), maxLen) && |Header(t, 0)| + 6 >= maxLen
    ensures OpensLong(t, 0, maxLen)
  {
  }

  // ----- runs on stuck texts ------------------------------------------------------------------------

  predicate StuckState(s: State, maxLen: nat) {
    s.start == 0 && Stuck(s.runes, maxLen)
  }

  /** If nothing is trimmed the text does not get shorter. */
  lemma RefilledGrows(text: string, maxLen: nat)
    requires maxLen >= 5 && |text| > maxLen && !IsSpace(text[|text| - 1]) && OpensLong(text, 0, maxLen)
    ensures FenceAt(text, 0, |text|) && |Refilled(text, 0, maxLen)| > maxLen
  {
    hide Header, HeaderLike, Reopened, Kept, OpensLong, SameAt, FenceAt, IsSpace;
    OpensLongParts(text, 0, maxLen);
    HeaderIsLike(text, 0);
    var h, b := Header(text, 0), text[maxLen - 5..];
    assert b[|b| - 1] == text[|text| - 1];
    NothingTrimmed(b);
    ReopenedParts(h, b);
  }

  lemma StuckStays(text: string, maxLen: nat)
    requires Stuck(text, maxLen)
    ensures FenceAt(text, 0, |text|) && Stuck(Refilled(text, 0, maxLen), maxLen)
  {
    RefilledGrows(text, maxLen);
    assert NewlineFrom(text, 0) != -1;
    hide Header, Refilled, OpensLong, NewlineFrom, FenceAt;
    LongLeavesStuck(text, 0, maxLen);
  }

  lemma StuckStep(s: State, maxLen: nat)
    requires maxLen > 0 && StuckState(s, maxLen)
    ensures StuckState(Step(s, maxLen), maxLen)
  {
    assert OpensLong(s.runes, 0, maxLen);
    hide Header, OpensLong, Refilled, Step, FenceAt, Stuck;
    StuckStays(s.runes, maxLen);
    StuckIsLong(s.runes, maxLen);
    LongStep(s, maxLen);
  }

  lemma InjectsStep(s: State, maxLen: nat)
    requires maxLen > 0 && !Done(s) && Decide(s.runes, s.start, maxLen).Inject?
    ensures var d := Decide(s.runes, s.start, maxLen);
            && d.end <= |s.runes| && Step(s, maxLen).runes == Reopened(d.header, s.runes[d.end..])
            && Step(s, maxLen).start == 0
  {
    hide Decide, Reopened;
  }

  lemma LongStep(s: State, maxLen: nat)
    requires maxLen > 0 && s.start + maxLen < |s.runes| && OpensLong(s.runes, s.start, maxLen)
    ensures maxLen >= 5 && FenceAt(s.runes, s.start, |s.runes|)
    ensures Step(s, maxLen).runes == Refilled(s.runes, s.start, maxLen) && Step(s, maxLen).start == 0
  {
    OpensLongParts(s.runes, s.start, maxLen);
    hide Header, Reopened, Decide, FirstCut, OpensLong, FenceAt, Step;
    LongInjects(s.runes, s.start, maxLen);
    InjectsStep(s, maxLen);
  }

  lemma StuckIsLong(text: string, maxLen: nat)
    requires Stuck(text, maxLen)
    ensures |text| > maxLen
  {
  }

  /** On a stuck text the splitter never ends: after n iterations it has handed out n chunks and is stuck again. */
  lemma NeverEnds(content: string, maxLen: nat, n: nat)
    requires maxLen > 0 && Stuck(content, maxLen)
    ensures !Done(Run(content, maxLen, n)) && |Run(content, maxLen, n).events| == n
  {
    hide Stuck, Next;
    var init := State(content, 0, []);
    forall s | StuckState(s, maxLen)
      ensures StuckState(Step(s, maxLen), maxLen)
    {
      StuckStep(s, maxLen);
    }
    Invariant(Stepper(maxLen), s => StuckState(s, maxLen), init, n);
    StuckIsLong(Run(content, maxLen, n).runes, maxLen);
    OneEventEach(maxLen, init, n);
  }

  lemma {:induction false} StaysStuck(content: string, maxLen: nat, n: nat, m: nat)
    requires maxLen > 0 && n <= m && StuckState(Run(content, maxLen, n), maxLen)
    ensures StuckState(Run(content, maxLen, m), maxLen)
  {
    hide Step, StuckState;
    if n < m {
      StaysStuck(content, maxLen, n, m - 1);
      StuckStep(Run(content, maxLen, m - 1), maxLen);
    }
  }

  /** For every text: once a run has come to a stuck text it does not end, wherever that text stood in the input. */
  lemma StuckRunsDoNotEnd(content: string, maxLen: nat, n: nat)
    requires maxLen > 0 && StuckState(Run(content, maxLen, n), maxLen)
    ensures !Terminates(content, maxLen)
  {
    hide Run, Stuck;
    forall m: nat
      ensures !Done(Run(content, maxLen, m))
    {
      if m <= n {
        if Done(Run(content, maxLen, m)) {
          StaysDone(content, maxLen, m, n);
          StuckIsLong(Run(content, maxLen, n).runes, maxLen);
          assert false;
        }
      } else {
        StaysStuck(content, maxLen, n, m);
        StuckIsLong(Run(content, maxLen, m).runes, maxLen);
      }
    }
  }
}
