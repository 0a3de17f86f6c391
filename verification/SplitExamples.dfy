/** Inputs on which the splitter does not do what its documentation promises. */
module SplitExamples {
  import opened Text
  import opened Split
  import opened SplitBalance
  import opened SplitTermination
  import opened SplitStuck
  import opened SplitEnding

  lemma {:induction false} ScanOver(runes: string, i: nat, stop: nat, end: nat, open: Option<nat>)
    requires i <= stop <= end <= |runes|
    requires forall k :: i <= k < stop ==> !FenceAt(runes, k, end)
    ensures Scan(runes, i, end, open) == Scan(runes, stop, end, open)
    decreases stop - i
  {
    if i < stop {
      ScanOver(runes, i + 1, stop, end, open);
    }
  }

  /** From one fence to the next. */
  lemma Hop(t: string, i: nat, next: nat, end: nat, open: Option<nat>)
    requires end <= |t| && FenceAt(t, i, end) && i + 3 <= next <= end
    requires forall k :: i + 3 <= k < next ==> t[k] != '`'
    ensures Scan(t, i, end, open) == Scan(t, next, end, if open.None? then Some(i) else None)
  {
    ScanOver(t, i + 3, next, end, if open.None? then Some(i) else None);
  }

  const CUT_BLOCK := "```\nc\n```foo```x\n" + seq(32, _ => 'y')

  predicate RunesOf(t: string) {
    && |t| == 49
    && t[0] == '`' && t[1] == '`' && t[2] == '`' && t[3] == '\n' && t[4] == 'c' && t[5] == '\n'
    && t[6] == '`' && t[7] == '`' && t[8] == '`' && t[9] == 'f' && t[10] == 'o' && t[11] == 'o'
    && t[12] == '`' && t[13] == '`' && t[14] == '`' && t[15] == 'x' && t[16] == '\n'
    && forall k :: 17 <= k < |t| ==> t[k] == 'y'
  }

  lemma BlockRunes()
    ensures RunesOf(CUT_BLOCK)
  {
  }

  lemma BlockNewlines(t: string)
    requires RunesOf(t)
    ensures FirstCut(t, 0, 40) == 16
    ensures LastInRange(t, 0, 12, 200, IsNewline) == 5
  {
    hide LastInRange;
    assert Limit(40) == 20;
    var a, b := LastInRange(t, 0, 20, 200, IsNewline), LastInRange(t, 0, 12, 200, IsNewline);
    assert IsNewline(t[16]) && IsNewline(t[5]);
    assert a == 16;
    assert !IsNewline(t[6]) && !IsNewline(t[7]) && !IsNewline(t[8]) && !IsNewline(t[9]);
    assert !IsNewline(t[10]) && !IsNewline(t[11]);
    assert b == 5;
  }

  lemma BlockFences(t: string)
    requires RunesOf(t)
    ensures Scan(t, 0, 16, None) == Some(12)
    ensures !Balanced(t[0..5])
  {
    assert FenceAt(t, 0, 16) && FenceAt(t, 6, 16) && FenceAt(t, 12, 16) && FenceAt(t, 0, 5);
    Hop(t, 0, 6, 16, None);
    Hop(t, 6, 12, 16, Some(0));
    Hop(t, 12, 16, 16, None);
    Hop(t, 0, 5, 5, None);
    ScanPiece(t, 0, 5, 0, None, None);
  }

  /**
   * Code blocks are not always kept whole: when the splitter stops before an open block it may stop at a newline
   * inside an earlier, complete block. Here the first chunk is "```", newline, "c" with no closing fence.
   */
  lemma StopsInsideAnEarlierBlock()
    ensures Decide(CUT_BLOCK, 0, 40) == Before(16, 5)
    ensures !Balanced(CUT_BLOCK[0..5])
  {
    hide LastInRange, NewlineFrom, NextClosing, Scan, TrimSpace, FirstCut;
    BlockRunes();
    var t := CUT_BLOCK;
    BlockNewlines(t);
    BlockFences(t);
    assert t[17] == 'y';
    assert NextClosing(t, 16, |t|) == -1;
    assert NewlineFrom(t, 12) == 16;
  }

  const STRADDLED := "```" + seq(15, _ => 'a') + "```b```" + seq(20, _ => 'c')

  predicate Straddled(t: string) {
    && |t| == 45
    && FenceAt(t, 0, |t|) && FenceAt(t, 18, |t|) && FenceAt(t, 22, |t|) && t[21] == 'b'
    && (forall k :: 3 <= k < 18 ==> t[k] == 'a')
    && (forall k :: 25 <= k < |t| ==> t[k] == 'c')
  }

  lemma StraddledRunes()
    ensures Straddled(STRADDLED)
  {
  }

  lemma StraddledScans(t: string)
    requires Straddled(t)
    ensures FirstCut(t, 0, 40) == 20
    ensures Scan(t, 0, 20, None) == Some(0)
    ensures NextClosing(t, 20, |t|) == 25
    ensures !Balanced(t[0..25])
  {
    hide LastInRange, NextClosing;
    assert Limit(40) == 20;
    Hop(t, 0, 18, 20, None);
    Hop(t, 0, 18, 25, None);
    Hop(t, 18, 22, 25, Some(0));
    Hop(t, 22, 25, 25, None);
    ScanPiece(t, 0, 25, 0, None, None);
    assert !FenceAt(t, 20, |t|) && !FenceAt(t, 21, |t|);
  }

  /**
   * A chunk that runs on to a closing fence can end up with an odd number of fences: here the natural cut, at the
   * limit, falls inside a closing fence, and the chunk runs on to the opening fence of the next block.
   */
  lemma ExtendsToAnOpeningFence()
    ensures Decide(STRADDLED, 0, 40) == Extend(20, 25)
    ensures !Balanced(STRADDLED[0..25])
  {
    hide NextClosing, Scan, FirstCut;
    StraddledRunes();
    StraddledScans(STRADDLED);
  }

  /** Texts on which the splitter never ends exist: a header line of four runes is too long for chunks of ten. */
  lemma SomeTextsAreStuck()
    ensures Stuck("```a\nbcdefghi", 10)
  {
    hide Stuck;
    var t := "```a\nbcdefghi";
    assert |t| == 13 && t[0] == '`' && t[1] == '`' && t[2] == '`' && t[3] == 'a' && t[4] == '\n' && t[5] == 'b';
    assert t[6] == 'c' && t[7] == 'd' && t[8] == 'e' && t[9] == 'f' && t[10] == 'g' && t[11] == 'h' && t[12] == 'i';
    ShortBlockIsStuck(t);
  }

  /** The same with a block that is opened by four backticks. */
  lemma FourBackticksAreStuck()
    ensures Stuck("````\nbcdefghi", 10)
  {
    hide Stuck;
    var t := "````\nbcdefghi";
    assert |t| == 13 && t[0] == '`' && t[1] == '`' && t[2] == '`' && t[3] == '`' && t[4] == '\n' && t[5] == 'b';
    assert t[6] == 'c' && t[7] == 'd' && t[8] == 'e' && t[9] == 'f' && t[10] == 'g' && t[11] == 'h' && t[12] == 'i';
    ShortBlockIsStuck(t);
  }

  lemma ShortBlockIsStuck(t: string)
    requires |t| == 13 && t[0] == t[1] == t[2] == '`' && !IsSpace(t[3]) && t[4] == '\n'
    requires forall i :: 5 <= i < 13 ==> 'b' <= t[i] <= 'i'
    ensures Stuck(t, 10)
  {
    var h := t[..4];
    assert forall i :: 0 <= i < 4 ==> t[i] == h[i];
    HeaderOfLine(t, h);
    assert forall i :: 3 <= i < |t| ==> !FenceAt(t, i, |t|);
    hide Header, OpensLong;
    OneBlockOpensLong(t, 10);
  }
}
