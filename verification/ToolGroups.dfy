/** Histories made of complete tool groups, and what sanitizing, cutting and compressing do to them. */
module ToolGroups {
  import opened Transcript

  /** A message that belongs to no group. */
  predicate IsPlain(m: Message) { !IsTool(m) && !IsCall(m) }

  predicate Answers(m: Message, call: ToolCall) {
    IsTool(m) && m.toolCallID == call.id
  }

  /** One result for each call, with its identifier, in order. */
  predicate AllAnswered(calls: seq<ToolCall>, results: seq<Message>) {
    |results| == |calls| && forall i :: 0 <= i < |calls| ==> Answers(results[i], calls[i])
  }

  /** Plain messages and complete groups: a call turn followed by exactly its results. */
  predicate Grouped(h: seq<Message>)
    decreases |h|
  {
    if h == [] then true
    else if IsPlain(h[0]) then Grouped(h[1..])
    else
      && IsCall(h[0])
      && var n := |h[0].toolCalls|;
      1 + n <= |h| && AllAnswered(h[0].toolCalls, h[1..1 + n]) && Grouped(h[1 + n..])
  }

  /** Results whose call turn is gone, and then groups. */
  ghost predicate Torn(h: seq<Message>) {
    exists o :: 0 <= o <= |h| && AllTools(h, 0, o) && Grouped(h[o..])
  }

  /** A first message of any kind, and a torn rest: what a stored history looks like after compressions. */
  ghost predicate Loose(h: seq<Message>) {
    h != [] ==> Torn(h[1..])
  }

  lemma {:induction false} GroupedConcat(s: seq<Message>, t: seq<Message>)
    requires Grouped(s) && Grouped(t)
    ensures Grouped(s + t)
    decreases |s|
  {
    hide AllAnswered, IsPlain, IsCall;
    if s == [] {
      assert s + t == t;
    } else if IsPlain(s[0]) {
      assert (s + t)[1..] == s[1..] + t;
      GroupedConcat(s[1..], t);
    } else {
      var n := |s[0].toolCalls|;
      GroupedConcat(s[1 + n..], t);
      assert (s + t)[0] == s[0];
      assert (s + t)[1..1 + n] == s[1..1 + n];
      assert (s + t)[1 + n..] == s[1 + n..] + t;
    }
  }

  lemma GroupedPlain(m: Message)
    requires IsPlain(m)
    ensures Grouped([m])
  {
    assert Grouped([m][1..]);
  }

  lemma GroupedGroup(call: Message, results: seq<Message>)
    requires IsCall(call) && AllAnswered(call.toolCalls, results)
    ensures Grouped([call] + results)
  {
    var h, n := [call] + results, |results|;
    assert h[1..1 + n] == results && h[1 + n..] == [];
  }

  /** A grouped history does not end in a call turn. */
  lemma {:induction false} GroupedEnd(s: seq<Message>)
    requires Grouped(s) && s != []
    ensures !IsCall(s[|s| - 1])
    decreases |s|
  {
    if IsPlain(s[0]) {
      if |s| > 1 {
        GroupedEnd(s[1..]);
      }
    } else {
      var n := |s[0].toolCalls|;
      if |s| == 1 + n {
        assert s[n] == s[1..1 + n][n - 1];
        assert Answers(s[1..1 + n][n - 1], s[0].toolCalls[n - 1]);
      } else {
        GroupedEnd(s[1 + n..]);
      }
    }
  }

  // ----- sanitizing ------------------------------------------------------------------------------------

  /** Results are kept behind an anchored history ... */
  lemma {:induction false} SiftResults(kept: seq<Message>, results: seq<Message>, rest: seq<Message>)
    requires Anchored(kept) && AllTools(results, 0, |results|)
    ensures Sift(kept, results + rest) == Sift(kept + results, rest)
    decreases |results|
  {
    if results == [] {
      assert results + rest == rest && kept + results == kept;
    } else {
      var m := results[0];
      assert (results + rest)[1..] == results[1..] + rest;
      assert (kept + [m])[..|kept|] == kept;
      assert kept + [m] + results[1..] == kept + results;
      SiftResults(kept + [m], results[1..], rest);
    }
  }

  /** ... and dropped behind any other. */
  lemma {:induction false} SiftOrphans(kept: seq<Message>, results: seq<Message>, rest: seq<Message>)
    requires !Anchored(kept) && AllTools(results, 0, |results|)
    ensures Sift(kept, results + rest) == Sift(kept, rest)
    decreases |results|
  {
    if results == [] {
      assert results + rest == rest;
    } else {
      assert (results + rest)[1..] == results[1..] + rest;
      SiftOrphans(kept, results[1..], rest);
    }
  }

  /** Sanitizing keeps or drops whole groups. */
  lemma {:induction false} SiftGrouped(kept: seq<Message>, rest: seq<Message>)
    requires Grouped(kept) && Grouped(rest)
    ensures Grouped(Sift(kept, rest))
    decreases |rest|
  {
    hide Anchored;
    if rest != [] {
      if IsPlain(rest[0]) {
        GroupedPlain(rest[0]);
        GroupedConcat(kept, [rest[0]]);
        SiftGrouped(if Accepts(kept, rest[0]) then kept + [rest[0]] else kept, rest[1..]);
      } else {
        SiftGroup(kept, rest);
      }
    }
  }

  lemma {:induction false} SiftGroup(kept: seq<Message>, rest: seq<Message>)
    requires Grouped(kept) && Grouped(rest) && rest != [] && IsCall(rest[0])
    ensures Grouped(Sift(kept, rest))
    decreases |rest|, 0
  {
    var call, n := rest[0], |rest[0].toolCalls|;
    var results, after := rest[1..1 + n], rest[1 + n..];
    assert rest[1..] == results + after;
    AnsweredAreTools(call.toolCalls, results);
    if Accepts(kept, call) {
      KeepGroup(kept, call, results);
      assert Sift(kept, rest) == Sift(kept + [call] + results, after) by {
        SiftResults(kept + [call], results, after);
      }
      SiftGrouped(kept + [call] + results, after);
    } else {
      assert !Anchored(kept) by {
        if kept != [] {
          GroupedEnd(kept);
        }
      }
      SiftOrphans(kept, results, after);
      SiftGrouped(kept, after);
    }
  }

  lemma AnsweredAreTools(calls: seq<ToolCall>, results: seq<Message>)
    requires AllAnswered(calls, results)
    ensures AllTools(results, 0, |results|)
  {
    assert forall i :: 0 <= i < |results| ==> Answers(results[i], calls[i]);
  }

  lemma KeepGroup(kept: seq<Message>, call: Message, results: seq<Message>)
    requires Grouped(kept) && IsCall(call) && AllAnswered(call.toolCalls, results)
    ensures Grouped(kept + [call] + results) && Anchored(kept + [call])
  {
    hide Grouped, AllAnswered;
    assert (kept + [call])[..|kept|] == kept;
    GroupedGroup(call, results);
    GroupedConcat(kept, [call] + results);
    assert kept + [call] + results == kept + ([call] + results);
  }

  /**
   * Whatever a compression has torn apart, the sanitized history consists of complete groups: every call turn is
   * followed by exactly one result for each of its calls, with matching identifiers in order, and no other result is
   * left.
   */
  lemma SanitizeGroups(h: seq<Message>)
    requires Loose(h)
    ensures Grouped(Sanitize(h))
  {
    if h != [] {
      var rest := h[1..];
      var o :| 0 <= o <= |rest| && AllTools(rest, 0, o) && Grouped(rest[o..]);
      assert rest == rest[..o] + rest[o..];
      var kept := if Accepts([], h[0]) then [] + [h[0]] else [];
      if kept != [] {
        GroupedPlain(h[0]);
        assert kept == [h[0]];
      }
      SiftOrphans(kept, rest[..o], rest[o..]);
      SiftGrouped(kept, rest[o..]);
    }
  }

  /**
   * What sanitizing cannot do: a history whose last group was interrupted is acceptable as it is, so it is kept with
   * a call that has no result.
   */
  lemma InterruptedGroupsStay(user: Message, call: Message)
    requires user.role == "user" && IsCall(call)
    ensures Sanitize([user, call]) == [user, call] && !Grouped([user, call]) && !Loose([user, call])
  {
    var h := [user, call];
    assert AcceptableAt(h, 0) && AcceptableAt(h, 1);
    SanitizeFixes(h);
    assert h[1..] == [call] && !Grouped([call]);
    forall o | 0 <= o <= 1
      ensures !(AllTools([call], 0, o) && Grouped([call][o..]))
    {
      if o == 0 {
        assert [call][0..] == [call];
      } else {
        assert !IsTool([call][0]);
      }
    }
  }

  // ----- cutting ---------------------------------------------------------------------------------------

  lemma TornIntro(h: seq<Message>, o: nat)
    requires o <= |h| && AllTools(h, 0, o) && Grouped(h[o..])
    ensures Torn(h)
  {
  }

  lemma {:induction false} GroupedSuffix(h: seq<Message>, k: nat)
    requires Grouped(h) && k <= |h|
    ensures Torn(h[k..])
    decreases |h|
  {
    if k == 0 {
      assert h[0..] == h;
      TornIntro(h, 0);
    } else if IsPlain(h[0]) {
      GroupedSuffix(h[1..], k - 1);
      assert h[1..][k - 1..] == h[k..];
    } else {
      var n := |h[0].toolCalls|;
      if k < 1 + n {
        assert h[k..][1 + n - k..] == h[1 + n..];
        forall j | 0 <= j < 1 + n - k
          ensures IsTool(h[k..][j])
        {
          assert h[k..][j] == h[1..1 + n][k - 1 + j];
          assert Answers(h[1..1 + n][k - 1 + j], h[0].toolCalls[k - 1 + j]);
        }
        TornIntro(h[k..], 1 + n - k);
      } else {
        GroupedSuffix(h[1 + n..], k - 1 - n);
        assert h[1 + n..][k - 1 - n..] == h[k..];
      }
    }
  }

  lemma TornSuffix(h: seq<Message>, k: nat)
    requires Torn(h) && k <= |h|
    ensures Torn(h[k..])
  {
    var o :| 0 <= o <= |h| && AllTools(h, 0, o) && Grouped(h[o..]);
    if k <= o {
      assert h[k..][o - k..] == h[o..];
      assert forall j :: 0 <= j < o - k ==> h[k..][j] == h[k + j];
      TornIntro(h[k..], o - k);
    } else {
      hide Torn, Grouped, AllTools;
      GroupedSuffix(h[o..], k - o);
      assert h[o..][k - o..] == h[k..];
    }
  }

  lemma LooseCut(first: Message, h: seq<Message>, k: nat)
    requires Loose(h) && 0 < k <= |h|
    ensures Loose([first] + h[k..])
  {
    TornSuffix(h[1..], k - 1);
    assert h[1..][k - 1..] == h[k..];
    assert ([first] + h[k..])[1..] == h[k..];
  }

  lemma LooseSuffix(h: seq<Message>, k: nat)
    requires Loose(h) && k <= |h|
    ensures Loose(h[k..])
  {
    if k < |h| {
      TornSuffix(h[1..], k);
      assert h[1..][k..] == h[k..][1..];
    }
  }

  lemma TornConcat(h: seq<Message>, t: seq<Message>)
    requires Torn(h) && Grouped(t)
    ensures Torn(h + t)
  {
    hide Grouped;
    var o :| 0 <= o <= |h| && AllTools(h, 0, o) && Grouped(h[o..]);
    GroupedConcat(h[o..], t);
    assert (h + t)[o..] == h[o..] + t;
    TornIntro(h + t, o);
  }

  lemma LooseConcat(h: seq<Message>, t: seq<Message>)
    requires Loose(h) && Grouped(t)
    ensures Loose(h + t)
  {
    hide Grouped, Torn;
    if h == [] {
      assert h + t == t;
      GroupedIsLoose(t);
    } else {
      TornConcat(h[1..], t);
      assert (h + t)[1..] == h[1..] + t;
    }
  }

  lemma GroupedIsLoose(h: seq<Message>)
    requires Grouped(h)
    ensures Loose(h)
  {
    if h != [] {
      GroupedSuffix(h, 1);
    }
  }

  // ----- emergency compression -------------------------------------------------------------------------

  /**
   * forceCompression: the first message, marked, the second half of what lies between it and the last one, and the
   * last one. Histories of at most four messages stay as they are.
   */
  function Compress(h: seq<Message>, note: nat -> string): (r: seq<Message>)
    ensures |r| <= |h|
    ensures |h| > 4 ==> |r| < |h|
  {
    if |h| <= 4 then h
    else
      var conversation := h[1..|h| - 1];
      var mid := |conversation| / 2;
      [h[0].(content := h[0].content + note(mid))] + conversation[mid..] + [h[|h| - 1]]
  }

  /** What compression keeps behind the first message is a suffix of the history. */
  lemma CompressKeeps(h: seq<Message>, note: nat -> string)
    requires |h| > 4
    ensures var mid := (|h| - 2) / 2;
            Compress(h, note) == [h[0].(content := h[0].content + note(mid))] + h[1 + mid..]
  {
    var conversation := h[1..|h| - 1];
    var mid := |conversation| / 2;
    assert conversation[mid..] + [h[|h| - 1]] == h[1 + mid..];
  }

  /** Compression may cut a group in half, but the history stays one that the sanitizer can mend. */
  lemma CompressLoose(h: seq<Message>, note: nat -> string)
    requires Loose(h)
    ensures Loose(Compress(h, note))
  {
    if |h| > 4 {
      hide Loose, Compress;
      CompressKeeps(h, note);
      var mid := (|h| - 2) / 2;
      LooseCut(h[0].(content := h[0].content + note(mid)), h, 1 + mid);
    }
  }
}
