/** An answer call by call: what each call of the model is given, when it is the last, and what is answered. */
module AgentTrace {
  import opened Text
  import opened Transcript
  import opened ToolGroups
  import opened AgentRuns

  // ----- what a request shows ----------------------------------------------------------------------------

  /**
   * The system message, what the history shows, and a tail. What the history shows is acceptable, is the history itself
   * if that is acceptable, and otherwise some of its messages in order, among them all ordinary ones.
   */
  predicate IsRequest(r: seq<Message>, system: Message, history: seq<Message>, tail: seq<Message>) {
    && 1 + |tail| <= |r| && r[0] == system && r[|r| - |tail|..] == tail
    && Shows(r[1..|r| - |tail|], history)
  }

  predicate Shows(body: seq<Message>, history: seq<Message>) {
    && Acceptable(body) && Subsequence(body, history) && Ordinary(body) == Ordinary(history)
    && (Acceptable(history) ==> body == history)
  }

  predicate Blank(s: string) { forall i :: 0 <= i < |s| ==> IsSpace(s[i]) }

  lemma BlankIff(s: string)
    ensures TrimSpace(s) == "" <==> Blank(s)
  {
  }

  /** The user's message, unless it is blank. */
  function UserTail(user: string): seq<Message> {
    if Blank(user) then [] else [Message("user", user, [], "")]
  }

  lemma BuiltIsRequest(w: World, n: nat, history: seq<Message>, summary: string, current: string)
    ensures IsRequest(BuildMessages(w, n, history, summary, current), SystemMessage(w.prompt(n, summary)), history,
                      UserTail(current))
  {
    hide Sanitize, TrimSpace, Acceptable, Subsequence, Ordinary, Blank;
    BlankIff(current);
    SanitizeAcceptable(history);
    SanitizeFixes(history);
    OrdinaryStay(history);
    var r, tail := BuildMessages(w, n, history, summary, current), UserTail(current);
    assert r[1..|r| - |tail|] == Sanitize(history);
  }

  // ----- from call to call -----------------------------------------------------------------------------------

  /** A call of the model: its number (retry r of iteration i is 3 * i + r), what it is given, what is stored then. */
  datatype Call = Call(number: nat, request: seq<Message>, history: seq<Message>)

  /** The call turn and, in order, the result of each call under its identifier. */
  predicate IsTurn(w: World, i: nat, content: string, calls: seq<ToolCall>, turn: seq<Message>) {
    && |turn| == 1 + |calls| && turn[0] == Message("assistant", content, calls, "")
    && forall k :: 0 <= k < |calls| ==> turn[1 + k] == Message("tool", w.tool(i, k, calls[k]), [], calls[k].id)
  }

  /** Up to four messages stay; of more, the first is marked with the number of those dropped, and a suffix stays. */
  predicate IsCompressed(h: seq<Message>, h': seq<Message>, note: nat -> string) {
    if |h| <= 4 then h' == h
    else
      var dropped := (|h| - 2) / 2;
      && |h'| == |h| - dropped && h'[0] == h[0].(content := h[0].content + note(dropped))
      && h'[1..] == h[1 + dropped..]
  }

  lemma CompressIs(h: seq<Message>, note: nat -> string)
    ensures IsCompressed(h, Compress(h, note), note)
  {
    if |h| > 4 {
      CompressKeeps(h, note);
    }
  }

  /**
   * How one call leads to the next: tool calls are run and their turn is appended to request and history; a timeout is
   * repeated as it was; a context error compresses the history, and the request is built from that anew.
   */
  predicate Leads(w: World, summary: string, a: Call, b: Call) {
    match w.llm(a.number, a.request)
    case Reply(content, calls) =>
      && calls != [] && b.number == 3 * (a.number / 3 + 1)
      && a.request <= b.request && IsTurn(w, a.number / 3, content, calls, b.request[|a.request|..])
      && b.history == a.history + b.request[|a.request|..]
    case Timeout => a.number % 3 < 2 && b == Call(a.number + 1, a.request, a.history)
    case ContextError =>
      && a.number % 3 < 2 && b.number == a.number + 1 && IsCompressed(a.history, b.history, w.note)
      && IsRequest(b.request, SystemMessage(w.prompt(b.number, summary)), b.history, [])
    case OtherError => false
  }

  predicate IsChain(w: World, summary: string, calls: seq<Call>) {
    forall k :: 0 < k < |calls| ==> Leads(w, summary, calls[k - 1], calls[k])
  }

  predicate Requests(calls: seq<Call>, requests: seq<seq<Message>>) {
    |calls| == |requests| && forall k :: 0 <= k < |calls| ==> calls[k].request == requests[k]
  }

  /** The trace is that of the requests, from the origin on. */
  predicate IsTrace(w: World, max: nat, o: Origin, calls: seq<Call>, requests: seq<seq<Message>>) {
    && Requests(calls, requests)
    && (calls == [] <==> max == 0) && (calls != [] ==> calls[0] == Call(0, o.messages, o.history))
    && IsChain(w, o.summary, calls)
  }

  /** What is answered and stored in the end: the text, or the default if there is none. */
  predicate Says(text: string, default: string, history: seq<Message>, answer: Option<string>, stored: seq<Message>) {
    var said := if text == "" then default else text;
    answer == Some(said) && stored == history + [Message("assistant", said, [], "")]
  }

  /**
   * Why the last call was the last, and what is answered and stored: a reply without calls is the answer; after as many
   * iterations as are allowed the last turn is stored and the default answered; another error, or a third timeout or
   * context error, is no answer.
   */
  predicate Concludes(w: World, max: nat, last: Call, default: string, answer: Option<string>, stored: seq<Message>) {
    match w.llm(last.number, last.request)
    case Reply(content, calls) =>
      if calls == [] then Says(content, default, last.history, answer, stored)
      else
        var n := |last.history| + 1 + |calls|;
        && last.number / 3 + 1 == max && n <= |stored| && stored[..|last.history|] == last.history
        && IsTurn(w, last.number / 3, content, calls, stored[|last.history|..n])
        && Says("", default, stored[..n], answer, stored)
    case OtherError => answer == None && stored == last.history
    case _ => last.number % 3 == 2 && answer == None && stored == last.history
  }

  lemma TurnIsTurn(w: World, i: nat, content: string, calls: seq<ToolCall>)
    ensures IsTurn(w, i, content, calls, Turn(w, i, content, calls))
  {
  }

  lemma ChainMore(w: World, summary: string, first: Call, rest: seq<Call>)
    requires IsChain(w, summary, rest) && (rest != [] ==> Leads(w, summary, first, rest[0]))
    ensures IsChain(w, summary, [first] + rest)
  {
    hide Leads;
    var all := [first] + rest;
    forall k | 0 < k < |all|
      ensures Leads(w, summary, all[k - 1], all[k])
    {
      assert all[k] == rest[k - 1];
    }
  }

  lemma ChainConcat(w: World, summary: string, s: seq<Call>, t: seq<Call>)
    requires IsChain(w, summary, s) && IsChain(w, summary, t)
    requires s != [] && t != [] ==> Leads(w, summary, s[|s| - 1], t[0])
    ensures IsChain(w, summary, s + t)
  {
    hide Leads;
    var all := s + t;
    forall k | 0 < k < |all|
      ensures Leads(w, summary, all[k - 1], all[k])
    {
      if k < |s| {
        assert all[k - 1] == s[k - 1] && all[k] == s[k];
      } else if k > |s| {
        assert all[k - 1] == t[k - 1 - |s|] && all[k] == t[k - |s|];
      }
    }
  }

  lemma RebuiltLeads(w: World, n: nat, request: seq<Message>, history: seq<Message>, summary: string)
    requires w.llm(n, request).ContextError? && n % 3 < 2
    ensures var h := Compress(history, w.note);
            Leads(w, summary, Call(n, request, history), Call(n + 1, BuildMessages(w, n + 1, h, summary, ""), h))
  {
    hide IsRequest, IsCompressed, Compress, BuildMessages;
    CompressIs(history, w.note);
    BuiltIsRequest(w, n + 1, Compress(history, w.note), summary, "");
  }

  lemma {:induction false} TryTrace(w: World, i: nat, retry: nat, messages: seq<Message>, history: seq<Message>,
                                    summary: string) returns (calls: seq<Call>)
    requires retry <= 2
    ensures var t := Try(w, i, retry, messages, history, summary);
            && Requests(calls, t.requests) && calls != [] && calls[0] == Call(3 * i + retry, messages, history)
            && IsChain(w, summary, calls)
            && var last := calls[|calls| - 1];
            && last.request == t.messages && last.history == t.history && last.number / 3 == i
            && t.outcome == w.llm(last.number, last.request)
            && (t.outcome.Timeout? || t.outcome.ContextError? ==> last.number % 3 == 2)
    decreases 2 - retry
  {
    hide Compress, BuildMessages, IsRequest, IsCompressed, IsChain, IsTurn;
    var first := Call(3 * i + retry, messages, history);
    var outcome := w.llm(3 * i + retry, messages);
    var rest := [];
    if retry < 2 && outcome.Timeout? {
      rest := TryTrace(w, i, retry + 1, messages, history, summary);
    } else if retry < 2 && outcome.ContextError? {
      var h := Compress(history, w.note);
      RebuiltLeads(w, 3 * i + retry, messages, history, summary);
      rest := TryTrace(w, i, retry + 1, BuildMessages(w, 3 * i + retry + 1, h, summary, ""), h, summary);
    } else {
      assert IsChain(w, summary, rest) by { NoCalls(w, summary); }
    }
    ChainMore(w, summary, first, rest);
    calls := [first] + rest;
  }

  lemma NoCalls(w: World, summary: string)
    ensures IsChain(w, summary, [])
  {
  }

  /** The answer and the stored history that the iterations come to. */
  function Ending(r: Run, default: string): (Option<string>, seq<Message>) {
    if r.failed then (None, r.history)
    else
      var said := if r.content == "" then default else r.content;
      (Some(said), r.history + [Message("assistant", said, [], "")])
  }

  predicate IsLoopTrace(w: World, i: nat, max: nat, o: Origin, default: string, calls: seq<Call>, r: Run) {
    && Requests(calls, r.requests) && IsChain(w, o.summary, calls)
    && (calls == [] <==> i == max) && (calls != [] ==> calls[0] == Call(3 * i, o.messages, o.history))
    && (calls != [] ==>
          Concludes(w, max, calls[|calls| - 1], default, Ending(r, default).0, Ending(r, default).1))
  }

  lemma TurnLeads(w: World, i: nat, a: Call, summary: string)
    requires a.number / 3 == i && w.llm(a.number, a.request).Reply? && w.llm(a.number, a.request).calls != []
    ensures var outcome := w.llm(a.number, a.request);
            var turn := Turn(w, i, outcome.content, outcome.calls);
            Leads(w, summary, a, Call(3 * (i + 1), a.request + turn, a.history + turn))
  {
    var outcome := w.llm(a.number, a.request);
    hide IsTurn, Turn;
    var turn := Turn(w, i, outcome.content, outcome.calls);
    TurnIsTurn(w, i, outcome.content, outcome.calls);
    assert (a.request + turn)[|a.request|..] == turn;
  }

  lemma LastTurnConcludes(w: World, i: nat, a: Call, default: string)
    requires a.number / 3 == i && w.llm(a.number, a.request).Reply? && w.llm(a.number, a.request).calls != []
    ensures var outcome := w.llm(a.number, a.request);
            var h := a.history + Turn(w, i, outcome.content, outcome.calls);
            Concludes(w, i + 1, a, default, Some(default), h + [Message("assistant", default, [], "")])
  {
    var outcome := w.llm(a.number, a.request);
    hide IsTurn;
    var turn := Turn(w, i, outcome.content, outcome.calls);
    TurnIsTurn(w, i, outcome.content, outcome.calls);
    var stored := a.history + turn + [Message("assistant", default, [], "")];
    var n := |a.history| + 1 + |outcome.calls|;
    assert stored[|a.history|..n] == turn && stored[..n] == a.history + turn;
  }

  lemma {:induction false} LoopTrace(w: World, i: nat, max: nat, o: Origin, default: string) returns (calls: seq<Call>)
    requires i <= max
    ensures IsLoopTrace(w, i, max, o, default, calls, Loop(w, i, max, o.messages, o.history, o.summary))
    decreases max - i
  {
    hide Try, Turn, Leads, IsChain, Concludes;
    calls := [];
    assert IsChain(w, o.summary, calls) by { NoCalls(w, o.summary); }
    if i < max {
      calls := TryTrace(w, i, 0, o.messages, o.history, o.summary);
      var t, last := Try(w, i, 0, o.messages, o.history, o.summary), calls[|calls| - 1];
      if t.outcome.Reply? && t.outcome.calls != [] {
        var turn := Turn(w, i, t.outcome.content, t.outcome.calls);
        TurnLeads(w, i, last, o.summary);
        LastTurnConcludes(w, i, last, default);
        var rest := LoopTrace(w, i + 1, max, Origin(t.messages + turn, t.history + turn, o.summary), default);
        ChainConcat(w, o.summary, calls, rest);
        calls := calls + rest;
      } else {
        EndsHere(w, i, max, t, last, default);
      }
    }
  }

  lemma EndsHere(w: World, i: nat, max: nat, t: Tries, last: Call, default: string)
    requires t.outcome == w.llm(last.number, last.request) && last.history == t.history
    requires t.outcome.Timeout? || t.outcome.ContextError? ==> last.number % 3 == 2
    requires !t.outcome.Reply? || t.outcome.calls == []
    ensures var content := if t.outcome.Reply? then t.outcome.content else "";
            var r := Run(content, !t.outcome.Reply?, i + 1, t.history, t.requests);
            Concludes(w, max, last, default, Ending(r, default).0, Ending(r, default).1)
  {
  }

  /**
   * An answer, whatever the model and the tools do: the calls that were made, each following from the one before, and
   * what is answered and stored in the end, which follows from the last one.
   */
  ghost predicate IsAnswer(w: World, max: nat, o: Origin, default: string, requests: seq<seq<Message>>,
                           answer: Option<string>, stored: seq<Message>)
  {
    if max == 0 then requests == [] && Says("", default, o.history, answer, stored)
    else exists calls ::
      IsTrace(w, max, o, calls, requests) && Concludes(w, max, calls[|calls| - 1], default, answer, stored)
  }

  lemma AnswerIsAnswer(w: World, max: nat, history: seq<Message>, summary: string, user: string, noHistory: bool,
                       default: string)
    ensures var (answer, r) := Answer(w, max, history, summary, user, noHistory, default);
            IsAnswer(w, max, Asked(w, history, summary, user, noHistory), default, r.requests, answer, r.history)
  {
    hide Loop, Concludes, IsChain, BuildMessages;
    var o := Asked(w, history, summary, user, noHistory);
    var calls := LoopTrace(w, 0, max, o, default);
    if max == 0 {
      LoopEnd(w, 0, o.messages, o.history, summary);
    } else {
      assert IsTrace(w, max, o, calls, Loop(w, 0, max, o.messages, o.history, summary).requests);
    }
  }

  /** The first request shows the stored history, or nothing of it, and ends in what the user asked. */
  lemma AskedShowsTheMessage(w: World, history: seq<Message>, summary: string, user: string, noHistory: bool)
    ensures var o := Asked(w, history, summary, user, noHistory);
            && o.history == history + [Message("user", user, [], "")] && o.summary == summary
            && IsRequest(o.messages, SystemMessage(w.prompt(0, if noHistory then "" else summary)),
                         if noHistory then [] else history, UserTail(user))
  {
    hide IsRequest, BuildMessages;
    BuiltIsRequest(w, 0, if noHistory then [] else history, if noHistory then "" else summary, user);
  }

  // ----- what compression may lose --------------------------------------------------------------------------------

  /** Of what stands behind the first message exactly the older half, the last message not counted, is dropped. */
  lemma CompressedAt(h: seq<Message>, h': seq<Message>, note: nat -> string, p: nat)
    requires IsCompressed(h, h', note) && 4 < |h| && (|h| - 2) / 2 < p < |h|
    ensures h'[p - (|h| - |h'|)] == h[p]
  {
    var dropped := (|h| - 2) / 2;
    assert h'[1..][p - dropped - 1] == h[1 + dropped..][p - dropped - 1];
  }

  /** An older answer, the user's question, and two turns of tool calls. */
  function TwoTurns(): seq<Message> {
    var call := ToolCall("c", "clock", "{}");
    var turn := [Message("assistant", "", [call], ""), Message("tool", "noon", [], "c")];
    [Message("assistant", "Hello.", [], ""), Message("user", "What time is it?", [], "")] + turn + turn
  }

  /** The user's last message is not spared: here compression drops it. */
  lemma TheQuestionMayGo(note: nat -> string)
    ensures exists m :: m in TwoTurns() && m.role == "user"
    ensures forall m :: m in Compress(TwoTurns(), note) ==> m.role != "user"
  {
    var h := TwoTurns();
    assert |h| == 6 && h[1].role == "user";
    assert h[2].role == "assistant" && h[3].role == "tool" && h[4].role == "assistant" && h[5].role == "tool";
    CompressKeeps(h, note);
    forall m | m in Compress(h, note)
      ensures m.role != "user"
    {
    }
  }

  lemma FirstOfAnswer(w: World, max: nat, o: Origin, default: string, requests: seq<seq<Message>>,
                      answer: Option<string>, stored: seq<Message>)
    requires IsAnswer(w, max, o, default, requests, answer, stored)
    ensures max > 0 ==> requests != [] && requests[0] == o.messages
  {
    hide IsChain, Concludes;
  }
}
