/** What the model is sent and what an answer comes to, as functions of what the model and the tools do. */
module AgentRuns {
  import opened Text
  import opened Transcript
  import opened ToolGroups

  /** What a call of the model comes to. A timeout is never taken for a context error. */
  datatype Outcome =
    | Reply(content: string, calls: seq<ToolCall>)
    | Timeout
    | ContextError
    | OtherError

  /**
   * The outside world. `llm` answers a call given its messages (retry r of iteration i is call 3 * i + r), `tool` gives
   * the content of the result of a call of an iteration, `prompt` the text of the system message, `note` the text that
   * marks a compression.
   */
  datatype World = World(
    llm: (nat, seq<Message>) -> Outcome,
    tool: (nat, nat, ToolCall) -> string,
    prompt: (nat, string) -> string,
    note: nat -> string)

  function SystemMessage(content: string): Message {
    Message("system", content, [], "")
  }

  /** The one system message, the sanitized history, and the user's message if it is not blank. */
  function BuildMessages(w: World, n: nat, history: seq<Message>, summary: string, current: string): seq<Message> {
    [SystemMessage(w.prompt(n, summary))] + Sanitize(history)
    + if TrimSpace(current) != "" then [Message("user", current, [], "")] else []
  }

  /** A request that keeps every tool result with its call: one system message, and then complete groups. */
  predicate WellFormedRequest(r: seq<Message>) {
    r != [] && IsSystem(r[0]) && Grouped(r[1..]) && NoneIsSystem(r[1..])
  }

  lemma BuiltIsWellFormed(w: World, n: nat, history: seq<Message>, summary: string, current: string)
    requires Loose(history)
    ensures WellFormedRequest(BuildMessages(w, n, history, summary, current))
  {
    hide Sanitize, TrimSpace, Grouped, AcceptableAt;
    var body, user := Sanitize(history), Message("user", current, [], "");
    SanitizeGroups(history);
    SanitizeAcceptable(history);
    NoSystem(body);
    var r := [SystemMessage(w.prompt(n, summary))] + body;
    assert r[1..] == body;
    GroupedPlain(user);
    if TrimSpace(current) != "" {
      RequestMore(r, [user]);
    } else {
      assert r + [] == r;
    }
  }

  lemma NoSystem(h: seq<Message>)
    requires Acceptable(h)
    ensures NoneIsSystem(h)
  {
    forall i | 0 <= i < |h|
      ensures !IsSystem(h[i])
    {
      assert AcceptableAt(h, i);
    }
  }

  predicate NoneIsSystem(h: seq<Message>) { forall m :: m in h ==> !IsSystem(m) }

  lemma RequestMore(r: seq<Message>, group: seq<Message>)
    requires WellFormedRequest(r) && Grouped(group) && NoneIsSystem(group)
    ensures WellFormedRequest(r + group)
  {
    hide Grouped, IsSystem;
    var t := r + group;
    GroupedConcat(r[1..], group);
    assert t[1..] == r[1..] + group;
    assert t[0] == r[0];
  }

  /** Complete groups are more than anchored tool messages. */
  lemma WellFormedIsAnchored(r: seq<Message>)
    requires WellFormedRequest(r)
    ensures ToolsAnchored(r)
  {
    assert r == r[..1] + r[1..];
    forall k | 0 <= k < |r| && IsTool(r[k])
      ensures Anchored(r[..k])
    {
      GroupedAnchors(r[..1], r[1..], k);
    }
  }

  /** Behind every tool message, skipping tool messages, stands an assistant turn with tool calls. */
  predicate ToolsAnchored(r: seq<Message>) {
    forall k :: 0 <= k < |r| && IsTool(r[k]) ==> Anchored(r[..k])
  }

  lemma {:induction false} AnchoredBehind(before: seq<Message>, h: seq<Message>)
    requires Anchored(h)
    ensures Anchored(before + h)
    decreases |h|
  {
    var k := |h| - 1;
    assert (before + h)[..|before + h| - 1] == before + h[..k];
    if IsTool(h[k]) {
      AnchoredBehind(before, h[..k]);
    }
  }

  /** A request built from any history whatsoever is anchored. */
  lemma BuiltIsAnchored(w: World, n: nat, history: seq<Message>, summary: string, current: string)
    ensures ToolsAnchored(BuildMessages(w, n, history, summary, current))
  {
    hide Sanitize, TrimSpace, Anchored, Accepts;
    var r, system, body := BuildMessages(w, n, history, summary, current), SystemMessage(w.prompt(n, summary)),
                           Sanitize(history);
    SanitizeAcceptable(history);
    forall k | 0 <= k < |r| && IsTool(r[k])
      ensures Anchored(r[..k])
    {
      assert 1 <= k <= |body| && r[k] == body[k - 1];
      assert AcceptableAt(body, k - 1);
      AnchoredMeans(body, k - 1);
      AnchoredBehind([system], body[..k - 1]);
      assert r[..k] == [system] + body[..k - 1];
    }
  }

  /** Where the tool-call loop started: the first request, the stored history, and the summary it is rebuilt with. */
  datatype Origin = Origin(messages: seq<Message>, history: seq<Message>, summary: string)

  /** A compression: what had been appended since the one before, and the number of the prompt it rebuilds with. */
  datatype Rebuild = Rebuild(tail: seq<Message>, n: nat)

  /** The request and the stored history right after these compressions. */
  function Rebuilt(w: World, o: Origin, past: seq<Rebuild>): (seq<Message>, seq<Message>) {
    if past == [] then (o.messages, o.history)
    else
      var k := |past| - 1;
      var compressed := Compress(Rebuilt(w, o, past[..k]).1 + past[k].tail, w.note);
      (BuildMessages(w, past[k].n, compressed, o.summary, ""), compressed)
  }

  /** Request and stored history have both grown by the same complete groups since the last compression. */
  predicate Grew(w: World, o: Origin, past: seq<Rebuild>, tail: seq<Message>, r: seq<Message>, h: seq<Message>) {
    && (forall p :: p in past ==> Grouped(p.tail)) && Grouped(tail)
    && r == Rebuilt(w, o, past).0 + tail && h == Rebuilt(w, o, past).1 + tail
  }

  /**
   * Between two compressions the request, and with it the stored history, has grown by complete groups only: by plain
   * messages and call turns with exactly one result for each call, with its identifier, in order.
   */
  ghost predicate InStep(w: World, o: Origin, r: seq<Message>, h: seq<Message>) {
    exists past, tail :: Grew(w, o, past, tail, r, h)
  }

  ghost predicate Extended(w: World, o: Origin, r: seq<Message>) {
    exists h :: InStep(w, o, r, h)
  }

  lemma StartsInStep(w: World, o: Origin)
    ensures InStep(w, o, o.messages, o.history)
  {
    assert o.messages + [] == o.messages && o.history + [] == o.history;
    assert Grew(w, o, [], [], o.messages, o.history);
  }

  lemma InStepMore(w: World, o: Origin, r: seq<Message>, h: seq<Message>, group: seq<Message>)
    requires InStep(w, o, r, h) && Grouped(group)
    ensures InStep(w, o, r + group, h + group)
  {
    hide BuildMessages, Grouped, Rebuilt;
    var past: seq<Rebuild>, tail :| Grew(w, o, past, tail, r, h);
    GroupedConcat(tail, group);
    assert r + group == Rebuilt(w, o, past).0 + (tail + group);
    assert h + group == Rebuilt(w, o, past).1 + (tail + group);
    assert Grew(w, o, past, tail + group, r + group, h + group);
  }

  lemma InStepRebuilt(w: World, o: Origin, r: seq<Message>, h: seq<Message>, n: nat)
    requires InStep(w, o, r, h)
    ensures InStep(w, o, BuildMessages(w, n, Compress(h, w.note), o.summary, ""), Compress(h, w.note))
  {
    hide BuildMessages, Grouped, Compress;
    var past: seq<Rebuild>, tail :| Grew(w, o, past, tail, r, h);
    var more := past + [Rebuild(tail, n)];
    assert more[..|past|] == past;
    var r', h' := BuildMessages(w, n, Compress(h, w.note), o.summary, ""), Compress(h, w.note);
    assert Rebuilt(w, o, more) == (r', h');
    assert Grouped([]) by { EmptyIsGrouped(); }
    assert r' + [] == r' && h' + [] == h';
    assert Grew(w, o, more, [], r', h');
  }

  lemma EmptyIsGrouped()
    ensures Grouped([])
  {
  }

  lemma ExtendedIsAnchored(w: World, o: Origin, r: seq<Message>)
    requires ToolsAnchored(o.messages) && Extended(w, o, r)
    ensures ToolsAnchored(r)
  {
    hide BuildMessages, Anchored, Grouped;
    var h :| InStep(w, o, r, h);
    var past: seq<Rebuild>, tail :| Grew(w, o, past, tail, r, h);
    var built := Rebuilt(w, o, past).0;
    if past != [] {
      var k := |past| - 1;
      var compressed := Compress(Rebuilt(w, o, past[..k]).1 + past[k].tail, w.note);
      BuiltIsAnchored(w, past[k].n, compressed, o.summary, "");
    }
    forall k | 0 <= k < |r| && IsTool(r[k])
      ensures Anchored(r[..k])
    {
      if k < |built| {
        assert r[..k] == built[..k] && r[k] == built[k];
      } else {
        GroupedAnchors(built, tail, k);
      }
    }
  }

  lemma {:induction false} GroupedAnchors(before: seq<Message>, h: seq<Message>, k: nat)
    requires Grouped(h) && |before| <= k < |before + h| && IsTool((before + h)[k])
    ensures Anchored((before + h)[..k])
    decreases |h|
  {
    hide Anchored, AllAnswered, IsTool;
    var all, i := before + h, k - |before|;
    if IsPlain(h[0]) {
      assert before + [h[0]] + h[1..] == all;
      GroupedAnchors(before + [h[0]], h[1..], k);
    } else {
      var n := |h[0].toolCalls|;
      if i <= n {
        assert all[|before| + 1..|before| + 1 + n] == h[1..1 + n] && all[|before|] == h[0];
        assert i != 0 by { CallIsNoTool(h[0]); }
        AnchoredThroughResults(all, |before|, k, n);
      } else {
        assert before + h[..1 + n] + h[1 + n..] == all;
        GroupedAnchors(before + h[..1 + n], h[1 + n..], k);
      }
    }
  }

  lemma CallIsNoTool(m: Message)
    requires IsCall(m)
    ensures !IsTool(m)
  {
  }

  lemma AnchoredThroughResults(all: seq<Message>, at: nat, k: nat, n: nat)
    requires at < k <= at + n < |all| && IsCall(all[at]) && |all[at].toolCalls| == n
    requires AllAnswered(all[at].toolCalls, all[at + 1..at + 1 + n])
    ensures Anchored(all[..k])
  {
    forall j | at + 1 <= j < k
      ensures IsTool(all[j])
    {
      assert Answers(all[at + 1..at + 1 + n][j - at - 1], all[at].toolCalls[j - at - 1]);
    }
    assert AllTools(all, at + 1, k);
    AnchoredMeans(all, k);
  }

  // ----- what a run comes to -----------------------------------------------------------------------------

  /** The calls of one iteration: how they end, what the messages and the stored history then are, what was sent. */
  datatype Tries = Tries(outcome: Outcome, messages: seq<Message>, history: seq<Message>, requests: seq<seq<Message>>)

  /**
   * At most three calls. A timeout repeats the call; a context error compresses the stored history and rebuilds the
   * messages from it; anything else, or a third failure, ends the iteration's calls.
   */
  function Try(w: World, i: nat, retry: nat, messages: seq<Message>, history: seq<Message>, summary: string): Tries
    requires retry <= 2
    decreases 2 - retry
  {
    var outcome := w.llm(3 * i + retry, messages);
    if retry < 2 && outcome.Timeout? then
      var t := Try(w, i, retry + 1, messages, history, summary);
      t.(requests := [messages] + t.requests)
    else if retry < 2 && outcome.ContextError? then
      var compressed := Compress(history, w.note);
      var rebuilt := BuildMessages(w, 3 * i + retry + 1, compressed, summary, "");
      var t := Try(w, i, retry + 1, rebuilt, compressed, summary);
      t.(requests := [messages] + t.requests)
    else Tries(outcome, messages, history, [messages])
  }

  /** The three ways in which one call goes on. */
  lemma TryOnce(w: World, i: nat, retry: nat, messages: seq<Message>, history: seq<Message>, summary: string)
    requires retry <= 2
    ensures var outcome, t := w.llm(3 * i + retry, messages), Try(w, i, retry, messages, history, summary);
            if retry < 2 && outcome.Timeout? then
              var next := Try(w, i, retry + 1, messages, history, summary);
              t == next.(requests := [messages] + next.requests)
            else if retry < 2 && outcome.ContextError? then
              var h := Compress(history, w.note);
              var next := Try(w, i, retry + 1, BuildMessages(w, 3 * i + retry + 1, h, summary, ""), h, summary);
              t == next.(requests := [messages] + next.requests)
            else t == Tries(outcome, messages, history, [messages])
  {
  }

  /** What all tries come to, when `sent` has been sent and `rest` is still to come. */
  predicate GoesOn(all: Tries, sent: seq<seq<Message>>, rest: Tries) {
    all.outcome == rest.outcome && all.messages == rest.messages && all.history == rest.history
    && all.requests == sent + rest.requests
  }

  function ToolResult(w: World, i: nat, k: nat, call: ToolCall): Message {
    Message("tool", w.tool(i, k, call), [], call.id)
  }

  function CallTurn(content: string, calls: seq<ToolCall>): Message {
    Message("assistant", content, calls, "")
  }

  /** The call turn and one result for each call. */
  function Turn(w: World, i: nat, content: string, calls: seq<ToolCall>): seq<Message> {
    [CallTurn(content, calls)] + seq(|calls|, k requires 0 <= k < |calls| => ToolResult(w, i, k, calls[k]))
  }

  datatype Run = Run(content: string, failed: bool, iterations: nat, history: seq<Message>, requests: seq<seq<Message>>)

  /** The iterations from the i-th on. */
  function Loop(w: World, i: nat, max: nat, messages: seq<Message>, history: seq<Message>, summary: string): Run
    requires i <= max
    decreases max - i
  {
    if i == max then Run("", false, i, history, [])
    else
      var t := Try(w, i, 0, messages, history, summary);
      if !t.outcome.Reply? then Run("", true, i + 1, t.history, t.requests)
      else if t.outcome.calls == [] then Run(t.outcome.content, false, i + 1, t.history, t.requests)
      else
        var turn := Turn(w, i, t.outcome.content, t.outcome.calls);
        var r := Loop(w, i + 1, max, t.messages + turn, t.history + turn, summary);
        r.(requests := t.requests + r.requests)
  }

  lemma LoopOnce(w: World, i: nat, max: nat, messages: seq<Message>, history: seq<Message>, summary: string)
    requires i < max
    ensures var t, r := Try(w, i, 0, messages, history, summary), Loop(w, i, max, messages, history, summary);
            if !t.outcome.Reply? then r == Run("", true, i + 1, t.history, t.requests)
            else if t.outcome.calls == [] then r == Run(t.outcome.content, false, i + 1, t.history, t.requests)
            else
              var turn := Turn(w, i, t.outcome.content, t.outcome.calls);
              var next := Loop(w, i + 1, max, t.messages + turn, t.history + turn, summary);
              r == next.(requests := t.requests + next.requests)
  {
    hide Try, Turn;
  }

  lemma LoopEnd(w: World, max: nat, messages: seq<Message>, history: seq<Message>, summary: string)
    ensures Loop(w, max, max, messages, history, summary) == Run("", false, max, history, [])
  {
  }

  /** What the run comes to, when `sent` has been sent and `rest` is still to come. */
  predicate RunGoesOn(all: Run, sent: seq<seq<Message>>, rest: Run) {
    all == rest.(requests := all.requests) && all.requests == sent + rest.requests
  }

  predicate AllWellFormed(requests: seq<seq<Message>>) {
    forall r :: r in requests ==> WellFormedRequest(r)
  }

  lemma {:induction false} TryIsSafe(w: World, i: nat, retry: nat, messages: seq<Message>, history: seq<Message>,
                                     summary: string)
    requires retry <= 2 && WellFormedRequest(messages) && Loose(history)
    ensures var t := Try(w, i, retry, messages, history, summary);
            && AllWellFormed(t.requests) && 1 <= |t.requests| <= 3 - retry
            && WellFormedRequest(t.messages) && Loose(t.history) && |t.history| <= |history|
    decreases 2 - retry
  {
    hide WellFormedRequest, Loose, Compress, BuildMessages;
    if retry < 2 {
      var compressed := Compress(history, w.note);
      CompressLoose(history, w.note);
      BuiltIsWellFormed(w, 3 * i + retry + 1, compressed, summary, "");
      TryIsSafe(w, i, retry + 1, messages, history, summary);
      TryIsSafe(w, i, retry + 1, BuildMessages(w, 3 * i + retry + 1, compressed, summary, ""), compressed, summary);
    }
  }

  predicate AllAnchored(requests: seq<seq<Message>>) {
    forall r :: r in requests ==> ToolsAnchored(r)
  }

  ghost predicate AllExtended(w: World, o: Origin, requests: seq<seq<Message>>) {
    forall r :: r in requests ==> Extended(w, o, r)
  }

  /** From any stored history whatsoever: at most three calls, and what was appended to each request is complete. */
  lemma {:induction false} TryExtends(w: World, o: Origin, i: nat, retry: nat, messages: seq<Message>,
                                      history: seq<Message>)
    requires retry <= 2 && InStep(w, o, messages, history)
    ensures var t := Try(w, i, retry, messages, history, o.summary);
            AllExtended(w, o, t.requests) && 1 <= |t.requests| <= 3 - retry && InStep(w, o, t.messages, t.history)
    decreases 2 - retry
  {
    hide InStep, Compress, BuildMessages;
    assert Extended(w, o, messages);
    if retry < 2 {
      var n, compressed := 3 * i + retry + 1, Compress(history, w.note);
      InStepRebuilt(w, o, messages, history, n);
      TryExtends(w, o, i, retry + 1, messages, history);
      TryExtends(w, o, i, retry + 1, BuildMessages(w, n, compressed, o.summary, ""), compressed);
    }
  }

  lemma {:induction false} LoopExtends(w: World, o: Origin, i: nat, max: nat, messages: seq<Message>,
                                       history: seq<Message>)
    requires i <= max && InStep(w, o, messages, history)
    ensures var r := Loop(w, i, max, messages, history, o.summary);
            && AllExtended(w, o, r.requests) && |r.requests| <= 3 * (max - i) && r.iterations <= max
            && exists m :: InStep(w, o, m, r.history)
    decreases max - i
  {
    hide InStep, Extended, Try, Turn;
    if i < max {
      TryExtends(w, o, i, 0, messages, history);
      var t := Try(w, i, 0, messages, history, o.summary);
      if t.outcome.Reply? && t.outcome.calls != [] {
        var turn := Turn(w, i, t.outcome.content, t.outcome.calls);
        TurnIsGrouped(w, i, t.outcome.content, t.outcome.calls);
        InStepMore(w, o, t.messages, t.history, turn);
        LoopExtends(w, o, i + 1, max, t.messages + turn, t.history + turn);
      }
    }
  }

  lemma TurnIsGrouped(w: World, i: nat, content: string, calls: seq<ToolCall>)
    requires calls != []
    ensures var turn := Turn(w, i, content, calls);
            && |turn| == 1 + |calls| && Grouped(turn) && IsCall(turn[0])
            && turn[0].toolCalls == calls && AllAnswered(calls, turn[1..])
            && NoneIsSystem(turn)
  {
    var turn := Turn(w, i, content, calls);
    GroupedGroup(turn[0], turn[1..]);
    assert turn == [turn[0]] + turn[1..];
  }

  /**
   * Whatever the model and the tools answer, and however often the history had to be compressed: every request of a
   * run is well formed, there are at most three per iteration, and the history that is left can be mended again.
   */
  lemma {:induction false} LoopIsSafe(w: World, i: nat, max: nat, messages: seq<Message>, history: seq<Message>,
                                      summary: string)
    requires i <= max && WellFormedRequest(messages) && Loose(history)
    ensures var r := Loop(w, i, max, messages, history, summary);
            AllWellFormed(r.requests) && |r.requests| <= 3 * (max - i) && r.iterations <= max && Loose(r.history)
    decreases max - i
  {
    hide WellFormedRequest, Loose, Try, Turn;
    if i < max {
      TryIsSafe(w, i, 0, messages, history, summary);
      var t := Try(w, i, 0, messages, history, summary);
      if t.outcome.Reply? && t.outcome.calls != [] {
        var turn := Turn(w, i, t.outcome.content, t.outcome.calls);
        TurnIsGrouped(w, i, t.outcome.content, t.outcome.calls);
        RequestMore(t.messages, turn);
        LooseConcat(t.history, turn);
        LoopIsSafe(w, i + 1, max, t.messages + turn, t.history + turn, summary);
      }
    }
  }

  /** The answer to one user message, or None if the model failed, and the history that is then stored. */
  function Answer(w: World, max: nat, history: seq<Message>, summary: string, user: string, noHistory: bool,
                  defaultResponse: string): (Option<string>, Run)
  {
    var messages := BuildMessages(w, 0, if noHistory then [] else history, if noHistory then "" else summary, user);
    var r := Loop(w, 0, max, messages, history + [Message("user", user, [], "")], summary);
    if r.failed then (None, r)
    else
      var content := if r.content == "" then defaultResponse else r.content;
      (Some(content), r.(history := r.history + [Message("assistant", content, [], "")]))
  }

  /** The origin of an answer: the user's message is stored, and is in the first request. */
  function Asked(w: World, history: seq<Message>, summary: string, user: string, noHistory: bool): Origin {
    Origin(BuildMessages(w, 0, if noHistory then [] else history, if noHistory then "" else summary, user),
           history + [Message("user", user, [], "")], summary)
  }

  /**
   * For every stored history, also one whose last group was interrupted, and through every compression: what was
   * appended to the requests of an answer since the message was asked, or since the last compression, is complete
   * groups, with one result for each call; each tool message is anchored; and there are at most 3 * max requests.
   */
  lemma RequestsAreAnchored(w: World, max: nat, history: seq<Message>, summary: string, user: string, noHistory: bool,
                            defaultResponse: string)
    ensures var r := Answer(w, max, history, summary, user, noHistory, defaultResponse).1;
            && AllExtended(w, Asked(w, history, summary, user, noHistory), r.requests)
            && AllAnchored(r.requests) && |r.requests| <= 3 * max
  {
    hide Extended, ToolsAnchored, Loop, BuildMessages;
    var o := Asked(w, history, summary, user, noHistory);
    StartsInStep(w, o);
    LoopExtends(w, o, 0, max, o.messages, o.history);
    BuiltIsAnchored(w, 0, if noHistory then [] else history, if noHistory then "" else summary, user);
    var requests := Answer(w, max, history, summary, user, noHistory, defaultResponse).1.requests;
    forall r | r in requests
      ensures ToolsAnchored(r)
    {
      ExtendedIsAnchored(w, o, r);
    }
  }

  /** A stored history whose groups are complete, but for what compression has torn, stays one. */
  lemma AnswerIsSafe(w: World, max: nat, history: seq<Message>, summary: string, user: string, noHistory: bool,
                     defaultResponse: string)
    requires Loose(history)
    ensures var r := Answer(w, max, history, summary, user, noHistory, defaultResponse).1;
            AllWellFormed(r.requests) && |r.requests| <= 3 * max && Loose(r.history)
  {
    hide WellFormedRequest, Loose, Loop, BuildMessages, Grouped;
    EmptyIsLoose();
    var shown := if noHistory then [] else history;
    BuiltIsWellFormed(w, 0, shown, if noHistory then "" else summary, user);
    var messages := BuildMessages(w, 0, shown, if noHistory then "" else summary, user);
    var asked := Message("user", user, [], "");
    GroupedPlain(asked);
    LooseConcat(history, [asked]);
    LoopIsSafe(w, 0, max, messages, history + [asked], summary);
    var r := Loop(w, 0, max, messages, history + [asked], summary);
    var answer := Message("assistant", if r.content == "" then defaultResponse else r.content, [], "");
    GroupedPlain(answer);
    LooseConcat(r.history, [answer]);
  }

  lemma EmptyIsLoose()
    ensures Loose([])
  {
  }
}
