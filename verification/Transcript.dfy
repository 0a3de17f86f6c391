/** Conversation transcripts: tool results bracketed under the assistant message that asked for them. */
module Transcript {

  datatype ToolCall = ToolCall(id: string, name: string, arguments: string)

  datatype Message = Message(role: string, content: string, toolCalls: seq<ToolCall>, toolCallID: string)

  predicate IsTool(m: Message) { m.role == "tool" }

  predicate IsSystem(m: Message) { m.role == "system" }

  /** An assistant turn that asks for tool calls. */
  predicate IsCall(m: Message) { m.role == "assistant" && m.toolCalls != [] }

  // ----- the sanitizer ---------------------------------------------------------------------------------

  /** Behind the tool messages at the end stands an assistant turn with tool calls. */
  predicate Anchored(h: seq<Message>) {
    h != [] && (if IsTool(h[|h| - 1]) then Anchored(h[..|h| - 1]) else IsCall(h[|h| - 1]))
  }

  predicate Accepts(h: seq<Message>, m: Message) {
    if IsSystem(m) then false
    else if IsTool(m) then Anchored(h)
    else if IsCall(m) then h != [] && (h[|h| - 1].role == "user" || IsTool(h[|h| - 1]))
    else true
  }

  /** The sanitizer's loop: from what has been kept so far through the rest of the history. */
  function Sift(kept: seq<Message>, rest: seq<Message>): seq<Message>
    decreases |rest|
  {
    if rest == [] then kept else Sift(if Accepts(kept, rest[0]) then kept + [rest[0]] else kept, rest[1..])
  }

  function Sanitize(h: seq<Message>): seq<Message> {
    Sift([], h)
  }

  predicate AllTools(h: seq<Message>, lo: nat, hi: nat)
    requires hi <= |h|
  {
    forall j :: lo <= j < hi ==> IsTool(h[j])
  }

  /** An earlier assistant turn with tool calls, with nothing but tool messages in between. */
  predicate Bracketed(h: seq<Message>, k: nat)
    requires k <= |h|
  {
    exists i :: 0 <= i < k && IsCall(h[i]) && AllTools(h, i + 1, k)
  }

  predicate AcceptableAt(h: seq<Message>, k: nat)
    requires k < |h|
  {
    && !IsSystem(h[k])
    && (IsTool(h[k]) ==> Bracketed(h, k))
    && (IsCall(h[k]) ==> k > 0 && (h[k - 1].role == "user" || IsTool(h[k - 1])))
  }

  /** What providers accept: no system messages; bracketed tool messages; calls directly after a user or a tool. */
  predicate Acceptable(h: seq<Message>) {
    forall k :: 0 <= k < |h| ==> AcceptableAt(h, k)
  }

  lemma {:induction false} AnchoredMeans(h: seq<Message>, k: nat)
    requires k <= |h|
    ensures Anchored(h[..k]) <==> Bracketed(h, k)
  {
    if k > 0 {
      assert h[..k][..k - 1] == h[..k - 1];
      AnchoredMeans(h, k - 1);
      if IsTool(h[k - 1]) {
        if Bracketed(h, k - 1) {
          var i :| 0 <= i < k - 1 && IsCall(h[i]) && AllTools(h, i + 1, k - 1);
          assert AllTools(h, i + 1, k);
        }
        if Bracketed(h, k) {
          var i :| 0 <= i < k && IsCall(h[i]) && AllTools(h, i + 1, k);
          assert AllTools(h, i + 1, k - 1);
        }
      } else if IsCall(h[k - 1]) {
        assert AllTools(h, k - 1 + 1, k);
      }
    }
  }

  lemma AcceptableAtIff(h: seq<Message>, k: nat)
    requires k < |h|
    ensures AcceptableAt(h, k) <==> Accepts(h[..k], h[k])
  {
    hide Anchored, Bracketed;
    AnchoredMeans(h, k);
  }

  lemma AcceptableIff(h: seq<Message>)
    ensures Acceptable(h) <==> forall k :: 0 <= k < |h| ==> Accepts(h[..k], h[k])
  {
    hide AcceptableAt, Accepts;
    forall k | 0 <= k < |h|
      ensures AcceptableAt(h, k) <==> Accepts(h[..k], h[k])
    {
      AcceptableAtIff(h, k);
    }
  }

  lemma AcceptableMore(h: seq<Message>, m: Message)
    requires Acceptable(h) && Accepts(h, m)
    ensures Acceptable(h + [m])
  {
    hide Anchored, Acceptable, Accepts;
    AcceptableIff(h);
    AcceptableIff(h + [m]);
    forall k | 0 <= k < |h + [m]|
      ensures Accepts((h + [m])[..k], (h + [m])[k])
    {
      if k < |h| {
        assert (h + [m])[..k] == h[..k];
      } else {
        assert (h + [m])[..k] == h;
      }
    }
  }

  lemma {:induction false} SiftAcceptable(kept: seq<Message>, rest: seq<Message>)
    requires Acceptable(kept)
    ensures Acceptable(Sift(kept, rest))
    decreases |rest|
  {
    hide Acceptable, Accepts;
    if rest != [] {
      if Accepts(kept, rest[0]) {
        AcceptableMore(kept, rest[0]);
        SiftAcceptable(kept + [rest[0]], rest[1..]);
      } else {
        SiftAcceptable(kept, rest[1..]);
      }
    }
  }

  lemma {:induction false} SiftKeeps(h: seq<Message>, k: nat)
    requires k <= |h| && Acceptable(h)
    ensures Sift(h[..k], h[k..]) == h
    decreases |h| - k
  {
    hide Acceptable, Accepts, Anchored;
    if k < |h| {
      AcceptableIff(h);
      assert h[..k] + [h[k]] == h[..k + 1] && h[k..][1..] == h[k + 1..];
      SiftKeeps(h, k + 1);
    } else {
      assert h[..k] == h;
    }
  }

  /** The kept messages are some of the history's, in order. */
  predicate Subsequence(s: seq<Message>, h: seq<Message>) {
    if s == [] then true
    else h != [] && (if s[|s| - 1] == h[|h| - 1] && Subsequence(s[..|s| - 1], h[..|h| - 1]) then true
                     else Subsequence(s, h[..|h| - 1]))
  }

  lemma SubsequenceMore(s: seq<Message>, h: seq<Message>, m: Message)
    requires Subsequence(s, h)
    ensures Subsequence(s, h + [m]) && Subsequence(s + [m], h + [m])
  {
    assert (h + [m])[..|h|] == h && (s + [m])[..|s|] == s;
  }

  lemma {:induction false} SiftSubsequence(kept: seq<Message>, done: seq<Message>, rest: seq<Message>)
    requires Subsequence(kept, done)
    ensures Subsequence(Sift(kept, rest), done + rest)
    decreases |rest|
  {
    hide Accepts, Subsequence;
    if rest == [] {
      assert done + rest == done;
    } else {
      SubsequenceMore(kept, done, rest[0]);
      assert done + rest == done + [rest[0]] + rest[1..];
      SiftSubsequence(if Accepts(kept, rest[0]) then kept + [rest[0]] else kept, done + [rest[0]], rest[1..]);
    }
  }

  /** The sanitizer returns an acceptable subsequence of the history. */
  lemma SanitizeAcceptable(h: seq<Message>)
    ensures Acceptable(Sanitize(h)) && Subsequence(Sanitize(h), h)
  {
    SiftAcceptable([], h);
    SiftSubsequence([], [], h);
    assert [] + h == h;
  }

  /** It changes a history if and only if the history is not acceptable already; so it is idempotent. */
  lemma SanitizeFixes(h: seq<Message>)
    ensures Sanitize(h) == h <==> Acceptable(h)
    ensures Sanitize(Sanitize(h)) == Sanitize(h)
  {
    hide Acceptable, Sift;
    SanitizeAcceptable(h);
    SanitizeAcceptable(Sanitize(h));
    assert h[..0] == [] && h[0..] == h;
    if Acceptable(h) {
      SiftKeeps(h, 0);
    }
    var r := Sanitize(h);
    assert r[..0] == [] && r[0..] == r;
    SiftKeeps(r, 0);
  }

  // ----- no more is dropped than has to be -----------------------------------------------------------------

  lemma {:induction false} SiftConcat(kept: seq<Message>, s: seq<Message>, t: seq<Message>)
    ensures Sift(kept, s + t) == Sift(Sift(kept, s), t)
    decreases |s|
  {
    hide Accepts;
    if s == [] {
      assert s + t == t;
    } else {
      assert (s + t)[1..] == s[1..] + t && (s + t)[0] == s[0];
      SiftConcat(if Accepts(kept, s[0]) then kept + [s[0]] else kept, s[1..], t);
    }
  }

  /** A message that is rejected would make the history unacceptable. */
  lemma AcceptsIff(h: seq<Message>, m: Message)
    requires Acceptable(h)
    ensures Acceptable(h + [m]) <==> Accepts(h, m)
  {
    hide Acceptable, Accepts;
    if Acceptable(h + [m]) {
      AcceptableIff(h + [m]);
      assert (h + [m])[..|h|] == h && (h + [m])[|h|] == m;
    } else if Accepts(h, m) {
      AcceptableMore(h, m);
    }
  }

  /** Every message stays that can: the sanitizer is the longest choice from the front, message by message. */
  lemma SanitizeMore(h: seq<Message>, m: Message)
    ensures Sanitize([]) == []
    ensures var kept := Sanitize(h);
            Sanitize(h + [m]) == if Acceptable(kept + [m]) then kept + [m] else kept
  {
    hide Acceptable, Accepts;
    SanitizeAcceptable(h);
    SiftConcat([], h, [m]);
    AcceptsIff(Sanitize(h), m);
    assert [m][1..] == [];
  }

  /** Neither a system message, nor a tool's, nor a call turn. */
  predicate IsOrdinary(m: Message) { !IsSystem(m) && !IsTool(m) && !IsCall(m) }

  function Ordinary(h: seq<Message>): seq<Message> {
    if h == [] then []
    else Ordinary(h[..|h| - 1]) + if IsOrdinary(h[|h| - 1]) then [h[|h| - 1]] else []
  }

  lemma OrdinaryMore(h: seq<Message>, m: Message)
    ensures Ordinary(h + [m]) == Ordinary(h) + if IsOrdinary(m) then [m] else []
  {
    assert (h + [m])[..|h|] == h;
  }

  lemma OrdinaryIsAccepted(h: seq<Message>, m: Message)
    requires IsOrdinary(m)
    ensures Accepts(h, m)
  {
  }

  /** All ordinary messages come out, in order, whatever is dropped around them. */
  lemma {:induction false} OrdinaryStay(h: seq<Message>)
    ensures Ordinary(Sanitize(h)) == Ordinary(h)
    decreases |h|
  {
    hide Acceptable, Accepts, IsOrdinary, Sanitize;
    if h == [] {
      SanitizeMore([], Message("", "", [], ""));
    } else {
      var k := |h| - 1;
      OrdinaryStay(h[..k]);
      var kept := Sanitize(h[..k]);
      SanitizeMore(h[..k], h[k]);
      assert h[..k] + [h[k]] == h;
      OrdinaryMore(kept, h[k]);
      if IsOrdinary(h[k]) {
        SanitizeAcceptable(h[..k]);
        AcceptsIff(kept, h[k]);
        OrdinaryIsAccepted(kept, h[k]);
      }
    }
  }

  /** sanitizeHistoryForProvider: one pass with a backward scan for every tool message. */
  method SanitizeHistoryForProvider(history: seq<Message>) returns (sanitized: seq<Message>)
    ensures sanitized == Sanitize(history) && Acceptable(sanitized) && Subsequence(sanitized, history)
    ensures Ordinary(sanitized) == Ordinary(history)
  {
    hide Acceptable, Subsequence, Ordinary;
    SanitizeAcceptable(history);
    OrdinaryStay(history);
    if |history| == 0 {
      return history;
    }
    sanitized := [];
    assert history[0..] == history;
    for n := 0 to |history|
      invariant Sift(sanitized, history[n..]) == Sanitize(history)
    {
      var msg := history[n];
      assert history[n..][1..] == history[n + 1..];
      if msg.role == "system" {
        continue;
      }
      if msg.role == "tool" {
        if |sanitized| == 0 {
          continue;
        }
        var foundAssistant := FindAssistant(sanitized);
        if !foundAssistant {
          continue;
        }
      } else if msg.role == "assistant" && |msg.toolCalls| > 0 {
        if |sanitized| == 0 {
          continue;
        }
        var prev := sanitized[|sanitized| - 1];
        if prev.role != "user" && prev.role != "tool" {
          continue;
        }
      }
      sanitized := sanitized + [msg];
    }
    assert history[|history|..] == [];
  }

  method FindAssistant(sanitized: seq<Message>) returns (found: bool)
    ensures found == Anchored(sanitized)
  {
    var i := |sanitized| - 1;
    assert sanitized == sanitized[..i + 1];
    while i >= 0
      invariant -1 <= i < |sanitized|
      invariant Anchored(sanitized) == Anchored(sanitized[..i + 1])
    {
      assert sanitized[..i + 1][..i] == sanitized[..i];
      if sanitized[i].role == "tool" {
        i := i - 1;
      } else {
        return sanitized[i].role == "assistant" && |sanitized[i].toolCalls| > 0;
      }
    }
    return false;
  }
}
