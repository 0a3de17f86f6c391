/** No run of the splitter loses or invents text: the input can be rebuilt from the chunks. */
module SplitConservation {
  import opened Text
  import opened Split

  /**
   * Undo one iteration: from the ink of the text it left over to the ink of the text it started with.
   * An injected chunk must end in a fence and the rest must start with the header that was put back;
   * both are taken off again.
   */
  function UndoOne(e: Event, rest: string): Option<string> {
    match e.reopened
    case None => Some(Ink(e.chunk) + rest)
    case Some(header) =>
      var ink := Ink(e.chunk);
      if |ink| >= 3 && ink[|ink| - 3..] == FENCE && Ink(header) <= rest
      then Some(ink[..|ink| - 3] + rest[|Ink(header)|..])
      else None
  }

  function Undo(events: seq<Event>, rest: string): Option<string> {
    if events == [] then Some(rest)
    else
      var k := |events| - 1;
      match UndoOne(events[k], rest)
      case None => None
      case Some(before) => Undo(events[..k], before)
  }

  lemma InkTrimStart(s: string)
    ensures Ink(TrimStart(s, IsSpace)) == Ink(s)
  {
    var k := FirstKept(s, 0, IsSpace);
    assert s == s[..k] + s[k..];
    InkConcat(s[..k], s[k..]);
    InkOfSpaces(s[..k]);
  }

  lemma InkTrimSpace(s: string)
    ensures Ink(TrimSpace(s)) == Ink(s)
  {
    InkTrimStart(s);
    InkTrimEnd(TrimStart(s, IsSpace), IsSpace);
  }

  lemma InkJoin(a: string, b: string)
    ensures Ink(a + "\n" + b) == Ink(a) + Ink(b)
  {
    InkConcat(a + "\n", b);
    InkConcat(a, "\n");
    InkOfSpaces("\n");
    assert Ink(a) + [] == Ink(a);
  }

  lemma InkClosed(text: string)
    ensures Ink(Closed(text)) == Ink(text) + FENCE
  {
    InkTrimEnd(text, IsBlank);
    InkJoin(TrimEnd(text, IsBlank), FENCE);
    InkOfInk(FENCE);
  }

  lemma InkReopened(header: string, tail: string)
    ensures Ink(Reopened(header, tail)) == Ink(header) + Ink(tail)
  {
    InkTrimSpace(header + "\n" + tail);
    InkJoin(header, tail);
  }

  lemma InkEmitted(runes: string, start: nat, end: nat)
    requires start <= end <= |runes|
    ensures Ink(runes[start..]) == Ink(runes[start..end]) + Ink(runes[SkipBlank(runes, end)..])
  {
    var k := SkipBlank(runes, end);
    assert runes[start..] == runes[start..end] + (runes[end..k] + runes[k..]);
    InkConcat(runes[start..end], runes[end..k] + runes[k..]);
    InkConcat(runes[end..k], runes[k..]);
    InkOfSpaces(runes[end..k]);
  }

  predicate Rebuilds(s: State, content: string) {
    s.start <= |s.runes| && Undo(s.events, Ink(s.runes[s.start..])) == Some(Ink(content))
  }

  /** One more event keeps the rebuilding going if undoing it gives the text it started from. */
  lemma UndoMore(events: seq<Event>, e: Event, before: string, after: string)
    requires UndoOne(e, after) == Some(before)
    ensures Undo(events + [e], after) == Undo(events, before)
  {
    assert (events + [e])[..|events|] == events;
  }

  lemma EmitRebuilds(s: State, end: nat, content: string)
    requires s.start <= end <= |s.runes| && Rebuilds(s, content)
    ensures Rebuilds(Emit(s, end), content)
  {
    var t := Emit(s, end);
    InkEmitted(s.runes, s.start, end);
    UndoMore(s.events, Event(s.runes[s.start..end], None), Ink(s.runes[s.start..]), Ink(t.runes[t.start..]));
  }

  lemma UndoInjected(text: string, header: string, tail: string)
    ensures UndoOne(Event(Closed(text), Some(header)), Ink(Reopened(header, tail))) == Some(Ink(text) + Ink(tail))
  {
    InkClosed(text);
    InkReopened(header, tail);
  }

  lemma InjectRebuilds(s: State, end: nat, header: string, content: string)
    requires s.start <= end <= |s.runes| && Rebuilds(s, content)
    ensures Rebuilds(State(Reopened(header, s.runes[end..]), 0,
                           s.events + [Event(Closed(s.runes[s.start..end]), Some(header))]), content)
  {
    var text, tail := s.runes[s.start..end], s.runes[end..];
    var rest := Reopened(header, tail);
    assert Ink(s.runes[s.start..]) == Ink(text) + Ink(tail) by {
      assert s.runes[s.start..] == text + tail;
      InkConcat(text, tail);
    }
    UndoInjected(text, header, tail);
    UndoMore(s.events, Event(Closed(text), Some(header)), Ink(s.runes[s.start..]), Ink(rest));
    assert rest[0..] == rest;
  }

  lemma RestRebuilds(s: State, content: string)
    requires Rebuilds(s, content)
    ensures Rebuilds(State(s.runes, |s.runes|, s.events + [Event(s.runes[s.start..], None)]), content)
  {
    var ink := Ink(s.runes[s.start..]);
    assert ink + [] == ink;
    assert s.runes[|s.runes|..] == [];
    UndoMore(s.events, Event(s.runes[s.start..], None), ink, []);
  }

  lemma ApplyRebuilds(s: State, d: Decision, maxLen: nat, content: string)
    requires s.start < |s.runes| && InRange(d, s.runes, s.start, maxLen) && Rebuilds(s, content)
    ensures Rebuilds(Apply(s, d), content)
  {
    match d
    case Rest => RestRebuilds(s, content);
    case Inject(_, end, header) => InjectRebuilds(s, end, header, content);
    case Plain(end) => EmitRebuilds(s, end, content);
    case Extend(_, end) => EmitRebuilds(s, end, content);
    case Before(_, end) => EmitRebuilds(s, end, content);
  }

  /**
   * After any number of iterations, for every text and maxLen > 0: taking the injected fences off the chunks and
   * the reopened headers off the text that follows them gives back the non-white-space runes of the input, in order.
   */
  lemma Conservation(content: string, maxLen: nat, n: nat)
    requires maxLen > 0
    ensures Rebuilds(Run(content, maxLen, n), content)
  {
    forall s | Rebuilds(s, content)
      ensures Rebuilds(Step(s, maxLen), content)
    {
      if !Done(s) {
        ApplyRebuilds(s, Decide(s.runes, s.start, maxLen), maxLen, content);
      }
    }
    assert content[0..] == content;
    Invariant(Stepper(maxLen), s => Rebuilds(s, content), State(content, 0, []), n);
  }

  // ----- text without fences -------------------------------------------------------------------

  predicate NoFence(runes: string) {
    forall i :: 0 <= i < |runes| ==> !FenceAt(runes, i, |runes|)
  }

  /** Take the chunks off the front of the text one by one, skipping only blanks; what is left over, if they fit. */
  function Peel(text: string, events: seq<Event>): Option<string> {
    if events == [] then Some(text)
    else
      var k := |events| - 1;
      match Peel(text, events[..k])
      case None => None
      case Some(left) =>
        var chunk := events[k].chunk;
        if chunk != [] && chunk <= left then Some(left[SkipBlank(left, |chunk|)..]) else None
  }

  lemma {:induction false} SkipBlankSuffix(runes: string, start: nat, i: nat)
    requires start <= i <= |runes|
    ensures SkipBlank(runes[start..], i - start) == SkipBlank(runes, i) - start
    decreases |runes| - i
  {
    if i < |runes| && IsBlank(runes[i]) {
      SkipBlankSuffix(runes, start, i + 1);
    }
  }

  predicate Peels(s: State, content: string) {
    s.runes == content && s.start <= |content| && Peel(content, s.events) == Some(content[s.start..])
  }

  lemma FenceFreeDecision(runes: string, start: nat, maxLen: nat)
    requires maxLen > 0 && start < |runes| && NoFence(runes)
    ensures Decide(runes, start, maxLen).Rest? || Decide(runes, start, maxLen).Plain?
  {
  }

  lemma PeelMore(text: string, events: seq<Event>, e: Event, left: string)
    requires Peel(text, events) == Some(left) && e.chunk != [] && e.chunk <= left
    ensures Peel(text, events + [e]) == Some(left[SkipBlank(left, |e.chunk|)..])
  {
    assert (events + [e])[..|events|] == events;
  }

  lemma EmitPeels(s: State, end: nat, content: string)
    requires s.start < end <= |s.runes| && Peels(s, content)
    ensures Peels(Emit(s, end), content)
  {
    var left, chunk, k := content[s.start..], content[s.start..end], SkipBlank(content, end);
    assert chunk <= left;
    PeelMore(content, s.events, Event(chunk, None), left);
    SkipBlankSuffix(content, s.start, end);
    assert left[k - s.start..] == content[k..];
  }

  lemma ApplyPeels(s: State, d: Decision, maxLen: nat, content: string)
    requires s.start < |s.runes| && InRange(d, s.runes, s.start, maxLen) && (d.Rest? || d.Plain?)
    requires Peels(s, content)
    ensures Peels(Apply(s, d), content)
  {
    var end := if d.Rest? then |content| else d.cut;
    EmitPeels(s, end, content);
    assert content[s.start..] == content[s.start..|content|];
  }

  lemma StepPeels(s: State, maxLen: nat, content: string)
    requires maxLen > 0 && NoFence(content) && Peels(s, content)
    ensures Peels(Step(s, maxLen), content)
  {
    if !Done(s) {
      FenceFreeDecision(s.runes, s.start, maxLen);
      ApplyPeels(s, Decide(s.runes, s.start, maxLen), maxLen, content);
    }
  }

  /**
   * For text without a fence every chunk is a non-empty contiguous piece of the input, the pieces come in order,
   * and only blanks between two pieces are dropped; once the splitter is done nothing else is missing.
   */
  lemma PlainTextIsCut(content: string, maxLen: nat, n: nat)
    requires maxLen > 0 && NoFence(content)
    ensures Peels(Run(content, maxLen, n), content)
    ensures Done(Run(content, maxLen, n)) ==> Peel(content, Run(content, maxLen, n).events) == Some([])
  {
    forall s | Peels(s, content)
      ensures Peels(Step(s, maxLen), content)
    {
      StepPeels(s, maxLen, content);
    }
    var init := State(content, 0, []);
    assert Peels(init, content) by { assert content[0..] == content; }
    Invariant(Stepper(maxLen), s => Peels(s, content), init, n);
  }
}
