/** Block integrity over whole runs of the splitter. */
module SplitBlocks {
  import opened Text
  import opened Split
  import opened SplitBalance
  import opened SplitTermination

  /** How many backticks stand directly before k, from a on. */
  function TicksBefore(runes: string, a: nat, k: nat): (r: nat)
    requires a <= k <= |runes|
    ensures r <= k - a && (forall i :: k - r <= i < k ==> runes[i] == '`')
    ensures a < k - r ==> runes[k - r - 1] != '`'
  {
    if a < k && runes[k - 1] == '`' then TicksBefore(runes, a, k - 1) + 1 else 0
  }

  /** How many backticks stand at k and directly after it. */
  function TicksAfter(runes: string, k: nat): (r: nat)
    requires k <= |runes|
    ensures k + r <= |runes| && (forall i :: k <= i < k + r ==> runes[i] == '`')
    ensures k + r < |runes| ==> runes[k + r] != '`'
    decreases |runes| - k
  {
    if k < |runes| && runes[k] == '`' then TicksAfter(runes, k + 1) + 1 else 0
  }

  /** No fence is lost where the text is cut: what both sides have over after their fences does not make up a third. */
  predicate NoFenceLost(runes: string, start: nat, end: nat)
    requires start <= end <= |runes|
  {
    TicksBefore(runes, start, end) % 3 + TicksAfter(runes, end) % 3 < 3
  }

  /**
   * The iteration makes a balanced chunk and leaves the parity of the fences after it right. An injecting one puts back
   * a header that opens the block once, or makes up for the fence it has cut in two.
   */
  predicate WellCut(s: State, maxLen: nat)
    requires maxLen > 0
  {
    Done(s) ||
    match Decide(s.runes, s.start, maxLen)
    case Rest => true
    case Plain(cut) => NoFenceLost(s.runes, s.start, cut)
    case Before(_, end) =>
      BetweenIsBalanced(s.runes, s.start, maxLen, end) && NoFenceLost(s.runes, s.start, end)
    case Extend(cut, end) =>
      && cut <= end && (Clean(s.runes, s.start, cut, end) || end - 3 < Resume(s.runes, s.start, cut, end))
      && NoFenceLost(s.runes, s.start, end)
    case Inject(cut, end, header) =>
      && cut <= end && Clean(s.runes, s.start, cut, end)
      && (Balanced(header) <==> !NoFenceLost(s.runes, s.start, end))
  }

  predicate AllBalanced(events: seq<Event>) {
    forall e :: e in events ==> Balanced(e.chunk)
  }

  /** All chunks so far are balanced, and so is what is left. */
  predicate InBlocks(s: State) {
    s.start <= |s.runes| && Balanced(s.runes[s.start..]) && AllBalanced(s.events)
  }

  lemma EmptyIsBalanced()
    ensures Balanced("")
  {
  }

  lemma BlanksAreBalanced(s: string)
    requires forall i :: 0 <= i < |s| ==> s[i] != '`'
    ensures Balanced(s)
  {
    NoRoom(s, 0, |s|, None);
  }

  /** Runes that are no backticks can be dropped from the front, and from the end. */
  lemma DropFront(runes: string, a: nat, k: nat)
    requires a <= k <= |runes| && forall i :: a <= i < k ==> runes[i] != '`'
    ensures Balanced(runes[a..]) <==> Balanced(runes[k..])
  {
    hide Balanced, Resume;
    assert runes[a..|runes|] == runes[a..] && runes[k..|runes|] == runes[k..];
    if a < k {
      NotBetweenBackticks(runes, a, k, |runes|);
      BalancedJoin(runes, a, k, |runes|);
      BlanksAreBalanced(runes[a..k]);
    }
  }

  lemma DropEnd(runes: string, k: nat)
    requires k <= |runes| && forall i :: k <= i < |runes| ==> runes[i] != '`'
    ensures Balanced(runes[..k]) <==> Balanced(runes)
  {
    hide Balanced, Resume;
    BlanksAreBalanced(runes[k..]);
    assert runes[0..|runes|] == runes && runes[0..k] == runes[..k] && runes[k..|runes|] == runes[k..];
    if 0 < k {
      NotBetweenBackticks(runes, 0, k, |runes|);
      BalancedJoin(runes, 0, k, |runes|);
    } else {
      EmptyIsBalanced();
      assert runes[k..] == runes && runes[..k] == "";
    }
  }

  // ----- cutting a run of backticks ------------------------------------------------------------------

  lemma {:induction false} TicksBalance(s: string, i: nat, open: Option<nat>)
    requires i <= |s| && forall k :: 0 <= k < |s| ==> s[k] == '`'
    ensures Scan(s, i, |s|, open).None? <==> (open.None? <==> (|s| - i) / 3 % 2 == 0)
    decreases |s| - i
  {
    if i + 3 <= |s| {
      var next := if open.None? then Some(i) else None;
      assert FenceAt(s, i, |s|);
      TicksBalance(s, i + 3, next);
      assert (|s| - i) / 3 == (|s| - i - 3) / 3 + 1;
    } else {
      NoRoom(s, i, |s|, open);
    }
  }

  lemma TicksAlone(s: string)
    requires forall k :: 0 <= k < |s| ==> s[k] == '`'
    ensures Balanced(s) <==> |s| / 3 % 2 == 0
  {
    TicksBalance(s, 0, None);
  }

  /** A stretch is joined to the run of backticks after it, or the run to what comes after it. */
  lemma JoinAt(runes: string, a: nat, k: nat, e: nat)
    requires a <= k <= e <= |runes|
    requires a < k < e ==> runes[k - 1] != '`' || runes[k] != '`'
    ensures Balanced(runes[a..e]) <==> (Balanced(runes[a..k]) <==> Balanced(runes[k..e]))
  {
    hide Balanced, Resume;
    if a == k || k == e {
      EmptyIsBalanced();
      assert runes[a..a] == runes[e..e] == "";
    } else {
      NotBetweenBackticks(runes, a, k, e);
      BalancedJoin(runes, a, k, e);
    }
  }

  lemma CarriedThird(m: nat, n: nat)
    ensures ((m + n) / 3 % 2 == 0 <==> (m / 3 % 2 == 0 <==> n / 3 % 2 == 0)) <==> m % 3 + n % 3 < 3
  {
    var carry := if m % 3 + n % 3 < 3 then 0 else 1;
    assert (m + n) / 3 == m / 3 + n / 3 + carry;
  }

  lemma TicksJoin(runes: string, p: nat, k: nat, q: nat)
    requires p <= k <= q <= |runes| && forall i :: p <= i < q ==> runes[i] == '`'
    ensures (Balanced(runes[p..q]) <==> (Balanced(runes[p..k]) <==> Balanced(runes[k..q])))
            <==> (k - p) % 3 + (q - k) % 3 < 3
  {
    hide Balanced;
    assert |runes[p..q]| == (k - p) + (q - k);
    TicksAlone(runes[p..q]);
    TicksAlone(runes[p..k]);
    TicksAlone(runes[k..q]);
    CarriedThird(k - p, q - k);
  }

  /** The exact effect of a cut on the balance of its two sides. */
  lemma CutBalance(runes: string, a: nat, k: nat)
    requires a <= k <= |runes|
    ensures (Balanced(runes[a..]) <==> (Balanced(runes[a..k]) <==> Balanced(runes[k..]))) <==> NoFenceLost(runes, a, k)
  {
    hide Balanced;
    var p, q, e := k - TicksBefore(runes, a, k), k + TicksAfter(runes, k), |runes|;
    assert runes[a..e] == runes[a..] && runes[k..e] == runes[k..];
    JoinAt(runes, a, p, e);
    JoinAt(runes, p, q, e);
    JoinAt(runes, a, p, k);
    JoinAt(runes, k, q, e);
    TicksJoin(runes, p, k, q);
  }

  // ----- one iteration -------------------------------------------------------------------------------

  lemma EmitKeepsBlocksIff(s: State, end: nat)
    requires s.start < end <= |s.runes| && InBlocks(s)
    ensures InBlocks(Emit(s, end)) <==> Balanced(s.runes[s.start..end]) && NoFenceLost(s.runes, s.start, end)
  {
    hide Balanced, NoFenceLost;
    CutBalance(s.runes, s.start, end);
    DropFront(s.runes, end, SkipBlank(s.runes, end));
    LastIsBalanced(s.events, Event(s.runes[s.start..end], None));
  }

  lemma LastIsBalanced(events: seq<Event>, e: Event)
    requires AllBalanced(events)
    ensures AllBalanced(events + [e]) <==> Balanced(e.chunk)
  {
    hide Balanced;
    assert e in events + [e];
  }

  /** Reopening toggles as header and tail do. */
  lemma ReopenedBalance(header: string, tail: string)
    requires header != [] && !IsSpace(header[0]) && !IsSpace(header[|header| - 1])
    ensures Balanced(Reopened(header, tail)) <==> (Balanced(header) <==> Balanced(tail))
  {
    hide Balanced, Resume, TrimEnd, Reopened;
    var text, kept := header + "\n" + tail, TrimEnd(tail, IsSpace);
    var h := |header|;
    assert text[h] == '\n' && text[0..h] == header && text[h + 1..] == tail;
    JoinAt(text, 0, h, |text|);
    DropFront(text, h, h + 1);
    assert text[0..|text|] == text && text[h..|text|] == text[h..];
    ReopenedShape(header, tail);
    if kept == [] {
      BlanksAreBalanced(tail);
    } else {
      var k := h + 1 + |kept|;
      forall i | k <= i < |text|
        ensures text[i] != '`'
      {
        assert IsSpace(tail[i - h - 1]);
      }
      assert text[..k] == header + "\n" + kept;
      DropEnd(text, k);
    }
  }

  lemma InjectKeepsBlocksIff(s: State, end: nat, open: nat)
    requires s.start <= end <= |s.runes| && InBlocks(s) && FenceAt(s.runes, open, |s.runes|)
    ensures var h := Header(s.runes, open);
            InBlocks(State(Reopened(h, s.runes[end..]), 0, s.events + [Event(Closed(s.runes[s.start..end]), Some(h))]))
            <==> Balanced(Closed(s.runes[s.start..end])) && (Balanced(h) <==> !NoFenceLost(s.runes, s.start, end))
  {
    hide Balanced, Header, HeaderEnd, Reopened, Closed, NoFenceLost;
    var h := Header(s.runes, open);
    ClosedBalance(s.runes[s.start..end]);
    CutBalance(s.runes, s.start, end);
    HeaderShape(s.runes, open);
    ReopenedBalance(h, s.runes[end..]);
    LastIsBalanced(s.events, Event(Closed(s.runes[s.start..end]), Some(h)));
    var t := Reopened(h, s.runes[end..]);
    assert t[0..] == t;
  }

  lemma RestKeepsBlocks(s: State)
    requires s.start <= |s.runes| && InBlocks(s)
    ensures InBlocks(State(s.runes, |s.runes|, s.events + [Event(s.runes[s.start..], None)]))
  {
    hide Balanced;
    EmptyIsBalanced();
    assert s.runes[|s.runes|..] == "";
  }

  /** For every limit of at least 10 and every state in blocks: exactly the well-cut iterations keep it so. */
  lemma StepKeepsBlocksIff(s: State, maxLen: nat)
    requires maxLen >= 10 && InBlocks(s)
    ensures InBlocks(Step(s, maxLen)) <==> WellCut(s, maxLen)
  {
    if !Done(s) {
      DecisionBalance(s.runes, s.start, maxLen);
      DecideExplained(s.runes, s.start, maxLen);
      hide InBlocks, Balanced, Clean, BetweenIsBalanced, Decide, Header, HeaderEnd, Reopened, Closed, FirstCut;
      hide NextClosing, NoFenceLost, Resume;
      match Decide(s.runes, s.start, maxLen)
      case Rest => RestKeepsBlocks(s);
      case Plain(cut) => EmitKeepsBlocksIff(s, cut);
      case Before(_, end) => EmitKeepsBlocksIff(s, end);
      case Extend(_, end) => EmitKeepsBlocksIff(s, end);
      case Inject(_, end, _) => InjectKeepsBlocksIff(s, end, OpenBlock(s.runes, s.start, maxLen).value);
    }
  }

  /**
   * Through the first n iterations all chunks and the text that is left stay balanced if and only if the text is
   * balanced and every one of the iterations is well cut. Once the run is done, that makes every chunk of the message
   * balanced, the last one included.
   */
  lemma {:induction false} BlocksStayWholeIff(content: string, maxLen: nat, n: nat)
    requires maxLen >= 10
    ensures (forall m: nat :: m <= n ==> InBlocks(Run(content, maxLen, m)))
            <==> Balanced(content) && forall m: nat :: m < n ==> WellCut(Run(content, maxLen, m), maxLen)
  {
    hide WellCut, Step, Balanced, InBlocks, Iterate, Run;
    if n == 0 {
      StartsInBlocks(content, maxLen);
    } else {
      BlocksStayWholeIff(content, maxLen, n - 1);
      if InBlocks(Run(content, maxLen, n - 1)) {
        StepKeepsBlocksIff(Run(content, maxLen, n - 1), maxLen);
        RunStep(content, maxLen, n - 1);
        assert InBlocks(Run(content, maxLen, n)) <==> WellCut(Run(content, maxLen, n - 1), maxLen);
      }
    }
  }

  lemma StartsInBlocks(content: string, maxLen: nat)
    requires maxLen > 0
    ensures InBlocks(Run(content, maxLen, 0)) <==> Balanced(content)
  {
    hide Balanced;
    assert content[0..] == content;
  }

  lemma RunStep(content: string, maxLen: nat, n: nat)
    requires maxLen > 0
    ensures Run(content, maxLen, n + 1) == Step(Run(content, maxLen, n), maxLen)
  {
  }
}
