/** Sessions and the loop that calls the model, runs tools and compresses the history when it does not fit. */
module AgentLoop {
  import opened Text
  import opened Transcript
  import opened ToolGroups
  import opened AgentRuns
  import opened AgentTrace

  datatype Session = Session(messages: seq<Message>, summary: string)

  class SessionManager {
    var sessions: map<string, Session>

    constructor ()
      ensures sessions == map[]
    {
      sessions := map[];
    }

    function History(key: string): seq<Message>
      reads this
    {
      if key in sessions then sessions[key].messages else []
    }

    function Summary(key: string): string
      reads this
    {
      if key in sessions then sessions[key].summary else ""
    }

    /** All other sessions. */
    function Others(key: string): map<string, Session>
      reads this
    {
      sessions - {key}
    }

    method AddFullMessage(key: string, msg: Message)
      modifies this
      ensures History(key) == old(History(key)) + [msg] && Others(key) == old(Others(key)) && key in sessions
      ensures Summary(key) == old(Summary(key))
    {
      var session := if key in sessions then sessions[key] else Session([], "");
      sessions := sessions[key := session.(messages := session.messages + [msg])];
    }

    method SetHistory(key: string, history: seq<Message>)
      modifies this
      ensures History(key) == (if key in old(sessions) then history else []) && Others(key) == old(Others(key))
      ensures Summary(key) == old(Summary(key)) && sessions.Keys == old(sessions.Keys)
    {
      if key in sessions {
        sessions := sessions[key := sessions[key].(messages := history)];
      }
    }

    method TruncateHistory(key: string, keepLast: int)
      modifies this
      ensures var h := old(History(key));
              History(key) == if keepLast <= 0 then [] else if |h| <= keepLast then h else h[|h| - keepLast..]
      ensures Others(key) == old(Others(key)) && Summary(key) == old(Summary(key))
      ensures sessions.Keys == old(sessions.Keys)
      ensures Loose(old(History(key))) ==> Loose(History(key))
    {
      if key !in sessions {
        return;
      }
      var session := sessions[key];
      ghost var h := session.messages;
      if keepLast <= 0 {
        sessions := sessions[key := session.(messages := [])];
        return;
      }
      if |session.messages| <= keepLast {
        return;
      }
      if Loose(h) {
        LooseSuffix(h, |h| - keepLast);
      }
      sessions := sessions[key := session.(messages := session.messages[|session.messages| - keepLast..])];
    }
  }

  class AgentLoop {
    const sessions: SessionManager
    const maxIterations: nat
    const world: World

    constructor (sessions: SessionManager, maxIterations: nat, world: World)
      ensures this.sessions == sessions && this.maxIterations == maxIterations && this.world == world
    {
      this.sessions := sessions;
      this.maxIterations := maxIterations;
      this.world := world;
    }

    method ForceCompression(key: string)
      modifies sessions
      ensures sessions.History(key) == Compress(old(sessions.History(key)), world.note)
      ensures sessions.Others(key) == old(sessions.Others(key))
      ensures sessions.Summary(key) == old(sessions.Summary(key))
    {
      var history := sessions.History(key);
      if |history| <= 4 {
        return;
      }
      var conversation := history[1..|history| - 1];
      var mid := |conversation| / 2;
      var first := history[0].(content := history[0].content + world.note(mid));
      sessions.SetHistory(key, [first] + conversation[mid..] + [history[|history| - 1]]);
    }

    /** The retry loop of one iteration. */
    method CallWithRetries(key: string, i: nat, request: seq<Message>)
      returns (outcome: Outcome, messages: seq<Message>, ghost requests: seq<seq<Message>>)
      modifies sessions
      ensures Try(world, i, 0, request, old(sessions.History(key)), old(sessions.Summary(key)))
              == Tries(outcome, messages, sessions.History(key), requests)
      ensures sessions.Others(key) == old(sessions.Others(key)) && sessions.Summary(key) == old(sessions.Summary(key))
    {
      hide BuildMessages, Compress, Try, SessionManager.Others, SessionManager.Summary, SessionManager.History;
      messages, requests := request, [];
      ghost var all := Try(world, i, 0, request, sessions.History(key), sessions.Summary(key));
      ghost var summary := sessions.Summary(key);
      for retry := 0 to 3
        invariant retry <= 2
        invariant sessions.Others(key) == old(sessions.Others(key)) && sessions.Summary(key) == summary
        invariant GoesOn(all, requests, Try(world, i, retry, messages, sessions.History(key), summary))
      {
        TryOnce(world, i, retry, messages, sessions.History(key), summary);
        outcome := world.llm(3 * i + retry, messages);
        requests := requests + [messages];
        if outcome.Timeout? && retry < 2 {
          continue;
        }
        if outcome.ContextError? && retry < 2 {
          ForceCompression(key);
          messages := BuildMessages(world, 3 * i + retry + 1, sessions.History(key), sessions.Summary(key), "");
          continue;
        }
        return;
      }
    }

    /** Append the call turn and one result for each call, to the messages and to the session alike. */
    method RunTools(key: string, i: nat, messages: seq<Message>, content: string, calls: seq<ToolCall>)
      returns (extended: seq<Message>)
      modifies sessions
      ensures extended == messages + Turn(world, i, content, calls)
      ensures sessions.History(key) == old(sessions.History(key)) + Turn(world, i, content, calls)
      ensures sessions.Others(key) == old(sessions.Others(key)) && sessions.Summary(key) == old(sessions.Summary(key))
    {
      ghost var turn := Turn(world, i, content, calls);
      var assistant := CallTurn(content, calls);
      extended := messages + [assistant];
      sessions.AddFullMessage(key, assistant);
      assert turn[..1] == [assistant];
      for k := 0 to |calls|
        invariant extended == messages + turn[..1 + k]
        invariant sessions.History(key) == old(sessions.History(key)) + turn[..1 + k]
        invariant sessions.Others(key) == old(sessions.Others(key))
        invariant sessions.Summary(key) == old(sessions.Summary(key))
      {
        var result := ToolResult(world, i, k, calls[k]);
        extended := extended + [result];
        sessions.AddFullMessage(key, result);
        assert turn[..2 + k] == turn[..1 + k] + [result];
      }
      assert turn[..1 + |calls|] == turn;
    }

    /** runLLMIteration. `failed` says that the run ended with an error. */
    method RunLLMIteration(key: string, initial: seq<Message>)
      returns (finalContent: string, iteration: nat, failed: bool, ghost requests: seq<seq<Message>>)
      modifies sessions
      ensures Loop(world, 0, maxIterations, initial, old(sessions.History(key)), old(sessions.Summary(key)))
              == Run(finalContent, failed, iteration, sessions.History(key), requests)
      ensures sessions.Others(key) == old(sessions.Others(key)) && sessions.Summary(key) == old(sessions.Summary(key))
    {
      hide Try, Turn, Loop, SessionManager.Others, SessionManager.Summary, SessionManager.History;
      finalContent, iteration, failed, requests := "", 0, false, [];
      var messages := initial;
      ghost var summary := sessions.Summary(key);
      ghost var all := Loop(world, 0, maxIterations, initial, sessions.History(key), summary);
      while iteration < maxIterations
        invariant iteration <= maxIterations && finalContent == "" && !failed
        invariant RunGoesOn(all, requests,
                            Loop(world, iteration, maxIterations, messages, sessions.History(key), summary))
        invariant sessions.Others(key) == old(sessions.Others(key)) && sessions.Summary(key) == summary
      {
        LoopOnce(world, iteration, maxIterations, messages, sessions.History(key), summary);
        ghost var sent;
        var outcome;
        outcome, messages, sent := CallWithRetries(key, iteration, messages);
        requests := requests + sent;
        iteration := iteration + 1;
        if !outcome.Reply? {
          failed := true;
          return;
        }
        if |outcome.calls| == 0 {
          finalContent := outcome.content;
          return;
        }
        messages := RunTools(key, iteration - 1, messages, outcome.content, outcome.calls);
      }
      LoopEnd(world, maxIterations, messages, sessions.History(key), summary);
    }

    /**
     * One user message: the request is built from the stored history, the message is stored, the model and its tools
     * run, and the answer is stored. With noHistory the first request leaves the stored history out.
     */
    method RunAgentLoop(key: string, user: string, noHistory: bool, defaultResponse: string)
      returns (answer: Option<string>, ghost requests: seq<seq<Message>>)
      modifies sessions
      ensures var (a, r) := Answer(world, maxIterations, old(sessions.History(key)), old(sessions.Summary(key)), user,
                                   noHistory, defaultResponse);
              answer == a && sessions.History(key) == r.history && requests == r.requests
      ensures IsAnswer(world, maxIterations,
                       Asked(world, old(sessions.History(key)), old(sessions.Summary(key)), user, noHistory),
                       defaultResponse, requests, answer, sessions.History(key))
      ensures maxIterations > 0 ==>
                && requests != []
                && IsRequest(requests[0],
                             SystemMessage(world.prompt(0, if noHistory then "" else old(sessions.Summary(key)))),
                             if noHistory then [] else old(sessions.History(key)), UserTail(user))
      ensures AllExtended(world, Asked(world, old(sessions.History(key)), old(sessions.Summary(key)), user, noHistory),
                          requests)
      ensures AllAnchored(requests) && |requests| <= 3 * maxIterations
      ensures Loose(old(sessions.History(key))) ==> Loose(sessions.History(key)) && AllWellFormed(requests)
      ensures sessions.Others(key) == old(sessions.Others(key))
    {
      hide Loop, BuildMessages, AllWellFormed, AllAnchored, AllExtended, Loose;
      ghost var stored, known := sessions.History(key), sessions.Summary(key);
      RequestsAreAnchored(world, maxIterations, stored, known, user, noHistory, defaultResponse);
      AnswerIsAnswer(world, maxIterations, stored, known, user, noHistory, defaultResponse);
      AskedShowsTheMessage(world, stored, known, user, noHistory);
      hide IsAnswer, IsRequest, Asked;
      ghost var (a, r) := Answer(world, maxIterations, stored, known, user, noHistory, defaultResponse);
      FirstOfAnswer(world, maxIterations, Asked(world, stored, known, user, noHistory), defaultResponse, r.requests, a,
                    r.history);
      if Loose(stored) {
        AnswerIsSafe(world, maxIterations, stored, known, user, noHistory, defaultResponse);
      }
      var history := if noHistory then [] else sessions.History(key);
      var summary := if noHistory then "" else sessions.Summary(key);
      var messages := BuildMessages(world, 0, history, summary, user);
      sessions.AddFullMessage(key, Message("user", user, [], ""));
      var content, iteration, failed;
      content, iteration, failed, requests := RunLLMIteration(key, messages);
      if failed {
        return None, requests;
      }
      if content == "" {
        content := defaultResponse;
      }
      sessions.AddFullMessage(key, Message("assistant", content, [], ""));
      answer := Some(content);
    }
  }
}
