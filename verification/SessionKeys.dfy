/** Session keys: how they are printed from an agent, a channel and a peer, and parsed back. */
module SessionKeys {
  import opened Text

  // ----- lower case ----------------------------------------------------------------------------------------

  predicate IsAscii(c: char) { c < '\U{80}' }

  predicate IsLowerAlnum(c: char) { 'a' <= c <= 'z' || '0' <= c <= '9' }

  /**
   * What is used of unicode.ToLower: it maps spaces and nothing else to spaces, and its only ASCII results are those
   * of ASCII runes and lower-case letters.
   */
  ghost predicate Lowering(lower: char -> char) {
    forall c ::
      && (IsSpace(lower(c)) <==> IsSpace(c))
      && (IsAscii(c) ==> lower(c) == if 'A' <= c <= 'Z' then (c as int + 32) as char else c)
      && (!IsAscii(c) ==> !IsAscii(lower(c)) || 'a' <= lower(c) <= 'z')
  }

  /** Lower-casing ASCII letters alone is an instance. */
  lemma AsciiLowering()
    ensures Lowering((c: char) => if 'A' <= c <= 'Z' then (c as int + 32) as char else c)
  {
  }

  function ToLower(s: string, lower: char -> char): (r: string)
    ensures |r| == |s| && forall i :: 0 <= i < |s| ==> r[i] == lower(s[i])
  {
    seq(|s|, i requires 0 <= i < |s| => lower(s[i]))
  }

  // ----- agent identifiers -----------------------------------------------------------------------------------

  const DEFAULT_AGENT := "main"
  const DEFAULT_ACCOUNT := "default"
  const MAX_LENGTH := 64

  predicate IsIdChar(c: char) { IsLowerAlnum(c) || c == '_' || c == '-' }

  predicate IdChars(s: string) { forall i :: 0 <= i < |s| ==> IsIdChar(s[i]) }

  /** [a-z0-9][a-z0-9_-]{0,63} */
  predicate ValidId(s: string) {
    1 <= |s| <= MAX_LENGTH && IsLowerAlnum(s[0]) && IdChars(s)
  }

  predicate IsDash(c: char) { c == '-' }

  /** Every run of other characters becomes one dash. */
  function Collapse(s: string): (r: string)
    ensures IdChars(r)
    ensures IdChars(s) ==> r == s
    decreases |s|
  {
    if s == [] then []
    else if IsIdChar(s[0]) then [s[0]] + Collapse(s[1..])
    else ['-'] + Collapse(s[SkipOther(s, 1)..])
  }

  function SkipOther(s: string, i: nat): (r: nat)
    requires i <= |s|
    ensures i <= r <= |s|
    decreases |s| - i
  {
    if i < |s| && !IsIdChar(s[i]) then SkipOther(s, i + 1) else i
  }

  /** NormalizeAgentID and NormalizeAccountID; they differ in the default. */
  function Normalize(id: string, fallback: string, lower: char -> char): string {
    var trimmed := TrimSpace(id);
    if trimmed == "" then fallback
    else
      var low := ToLower(trimmed, lower);
      if ValidId(low) then low
      else
        var stripped := TrimEnd(TrimStart(Collapse(low), IsDash), IsDash);
        var cut := if |stripped| > MAX_LENGTH then stripped[..MAX_LENGTH] else stripped;
        if cut == "" then fallback else cut
  }

  /** A normal form is made of identifier characters, is not empty and does not start with a dash. */
  predicate IsNormal(s: string) {
    1 <= |s| <= MAX_LENGTH && IdChars(s) && s[0] != '-'
  }

  lemma StripKeepsIdChars(s: string)
    requires IdChars(s)
    ensures var r := TrimEnd(TrimStart(s, IsDash), IsDash);
            IdChars(r) && (r != [] ==> r[0] != '-')
  {
    var a := TrimStart(s, IsDash);
    var k := FirstKept(s, 0, IsDash);
    assert forall i :: 0 <= i < |a| ==> a[i] == s[k + i];
    var r := TrimEnd(a, IsDash);
    assert forall i :: 0 <= i < |r| ==> r[i] == a[i];
  }

  lemma NormalizeIsNormal(id: string, fallback: string, lower: char -> char)
    requires IsNormal(fallback)
    ensures IsNormal(Normalize(id, fallback, lower))
  {
    hide TrimSpace, TrimEnd, TrimStart, ToLower;
    StripKeepsIdChars(Collapse(ToLower(TrimSpace(id), lower)));
  }

  lemma IdCharsStay(s: string, lower: char -> char)
    requires Lowering(lower) && IdChars(s)
    ensures ToLower(s, lower) == s && TrimSpace(s) == s
  {
    forall i | 0 <= i < |s|
      ensures lower(s[i]) == s[i] && !IsSpace(s[i])
    {
      assert IsIdChar(s[i]);
    }
    assert ToLower(s, lower) == s;
    if s != [] {
      TrimSpaceFromInk(s);
      TrimEndUnique(s, IsSpace, |s|);
      assert s[..|s|] == s;
    }
  }

  /** The letters, digits and underscores of an identifier. */
  function Names(s: string): string {
    if s == [] then [] else (if IsIdChar(s[0]) && s[0] != '-' then [s[0]] else []) + Names(s[1..])
  }

  lemma NamesFirst(s: string)
    requires s != []
    ensures Names(s) == (if IsIdChar(s[0]) && s[0] != '-' then [s[0]] else []) + Names(s[1..])
  {
  }

  lemma {:induction false} NamesConcat(s: string, t: string)
    ensures Names(s + t) == Names(s) + Names(t)
  {
    if s == [] {
      assert s + t == t && [] + Names(t) == Names(t);
    } else {
      hide Names, IsIdChar;
      NamesFirst(s);
      NamesFirst(s + t);
      NamesConcat(s[1..], t);
      assert (s + t)[1..] == s[1..] + t && (s + t)[0] == s[0];
      Reassociate(if IsIdChar(s[0]) && s[0] != '-' then [s[0]] else [], Names(s[1..]), Names(t));
    }
  }

  lemma Reassociate(a: string, b: string, c: string)
    ensures a + (b + c) == a + b + c
  {
  }

  lemma {:induction false} NoNames(s: string)
    requires forall i :: 0 <= i < |s| ==> !IsIdChar(s[i]) || s[i] == '-'
    ensures Names(s) == []
  {
    if s != [] {
      NoNames(s[1..]);
    }
  }

  lemma {:induction false} CollapseKeepsNames(s: string)
    ensures Names(Collapse(s)) == Names(s)
    decreases |s|
  {
    if s != [] {
      if IsIdChar(s[0]) {
        CollapseKeepsNames(s[1..]);
        NamesConcat([s[0]], Collapse(s[1..]));
        assert [s[0]] + s[1..] == s;
        NamesConcat([s[0]], s[1..]);
      } else {
        var k := SkipOther(s, 1);
        OthersSkipped(s, 1);
        CollapseKeepsNames(s[k..]);
        NamesConcat("-", Collapse(s[k..]));
        assert s[..k] + s[k..] == s;
        NoNames(s[..k]);
        NoNames("-");
        NamesConcat(s[..k], s[k..]);
      }
    }
  }

  lemma {:induction false} OthersSkipped(s: string, i: nat)
    requires i <= |s|
    ensures var k := SkipOther(s, i);
            (forall j :: i <= j < k ==> !IsIdChar(s[j])) && (k < |s| ==> IsIdChar(s[k]))
    decreases |s| - i
  {
    if i < |s| && !IsIdChar(s[i]) {
      OthersSkipped(s, i + 1);
    }
  }

  lemma StripKeepsNames(s: string)
    ensures Names(TrimEnd(TrimStart(s, IsDash), IsDash)) == Names(s)
    ensures |TrimEnd(TrimStart(s, IsDash), IsDash)| <= |s|
  {
    var k := FirstKept(s, 0, IsDash);
    var a := TrimStart(s, IsDash);
    var r := TrimEnd(a, IsDash);
    assert s == s[..k] + a && a == r + a[|r|..];
    NoNames(s[..k]);
    NoNames(a[|r|..]);
    NamesConcat(s[..k], a);
    NamesConcat(r, a[|r|..]);
  }

  lemma CutKeepsNames(s: string, k: nat)
    requires k <= |s|
    ensures Names(s[..k]) <= Names(s)
  {
    assert s == s[..k] + s[k..];
    NamesConcat(s[..k], s[k..]);
  }

  lemma {:induction false} CollapseShrinks(s: string)
    ensures |Collapse(s)| <= |s|
    decreases |s|
  {
    if s != [] {
      CollapseShrinks(if IsIdChar(s[0]) then s[1..] else s[SkipOther(s, 1)..]);
    }
  }

  lemma NamelessIsStripped(s: string)
    requires IdChars(s)
    ensures TrimEnd(TrimStart(s, IsDash), IsDash) == "" <==> Names(s) == []
  {
    StripKeepsNames(s);
    StripKeepsIdChars(s);
    var r := TrimEnd(TrimStart(s, IsDash), IsDash);
    if r != "" {
      assert IsIdChar(r[0]);
    }
  }

  /**
   * Normalizing keeps the letters, digits and underscores of the lower-cased identifier, in order: all of them if it
   * has at most 64 runes, and else the first ones; an identifier without any becomes the default.
   */
  lemma NormalizeKeepsNames(id: string, fallback: string, lower: char -> char)
    ensures var low, r := ToLower(TrimSpace(id), lower), Normalize(id, fallback, lower);
            if Names(low) == "" then r == fallback
            else Names(r) <= Names(low) && (|low| <= MAX_LENGTH ==> Names(r) == Names(low))
  {
    hide TrimSpace, TrimEnd, TrimStart, ToLower, Collapse, SkipOther;
    var low := ToLower(TrimSpace(id), lower);
    var stripped := TrimEnd(TrimStart(Collapse(low), IsDash), IsDash);
    CollapseKeepsNames(low);
    CollapseShrinks(low);
    StripKeepsNames(Collapse(low));
    NamelessIsStripped(Collapse(low));
    if |stripped| > MAX_LENGTH {
      CutKeepsNames(stripped, MAX_LENGTH);
    }
  }

  lemma SkipRun(run: string, t: string)
    requires run != [] && (forall i :: 0 <= i < |run| ==> !IsIdChar(run[i])) && (t != [] ==> IsIdChar(t[0]))
    ensures SkipOther(run + t, 1) == |run| && (run + t)[|run|..] == t
  {
    var all := run + t;
    OthersSkipped(all, 1);
    assert forall i :: 0 <= i < |run| ==> all[i] == run[i];
    assert t != [] ==> all[|run|] == t[0];
  }

  lemma SkipSame(s: string, t: string)
    requires s != [] && !IsIdChar(s[0]) && IsIdChar(s[|s| - 1])
    ensures var k := SkipOther(s, 1); k < |s| && SkipOther(s + t, 1) == k && (s + t)[k..] == s[k..] + t
  {
    var all := s + t;
    OthersSkipped(s, 1);
    OthersSkipped(all, 1);
    assert forall i :: 0 <= i < |s| ==> all[i] == s[i];
  }

  lemma CollapseFirst(s: string)
    requires s != []
    ensures IsIdChar(s[0]) ==> Collapse(s) == [s[0]] + Collapse(s[1..])
    ensures !IsIdChar(s[0]) ==> Collapse(s) == "-" + Collapse(s[SkipOther(s, 1)..])
  {
  }

  /** A run of other characters between identifier characters becomes one dash. */
  lemma {:induction false} CollapseJoins(s: string, run: string, t: string)
    requires run != [] && (forall i :: 0 <= i < |run| ==> !IsIdChar(run[i]))
    requires (s != [] ==> IsIdChar(s[|s| - 1])) && (t != [] ==> IsIdChar(t[0]))
    ensures Collapse(s + (run + t)) == Collapse(s) + ("-" + Collapse(t))
    decreases |s|
  {
    hide Collapse, SkipOther, IsIdChar;
    var rest := run + t;
    CollapseFirst(s + rest);
    if s == [] {
      SkipRun(run, t);
      assert s + rest == rest && rest[0] == run[0];
      assert Collapse(s) == [] by { CollapseNothing(); }
    } else {
      CollapseFirst(s);
      assert (s + rest)[0] == s[0];
      if IsIdChar(s[0]) {
        assert (s + rest)[1..] == s[1..] + rest;
        CollapseJoins(s[1..], run, t);
        Reassociate([s[0]], Collapse(s[1..]), "-" + Collapse(t));
      } else {
        SkipSame(s, rest);
        var k := SkipOther(s, 1);
        CollapseJoins(s[k..], run, t);
        Reassociate("-", Collapse(s[k..]), "-" + Collapse(t));
      }
    }
  }

  lemma CollapseNothing()
    ensures Collapse([]) == []
  {
  }

  predicate Twisted(s: string) { s != "" && s[0] == '_' && s[|s| - 1] == '-' }

  /**
   * Normalizing twice is normalizing once, unless the normal form starts with an underscore and ends in a dash (which
   * it can because it is cut to 64 characters last).
   */
  lemma NormalizeTwiceIff(id: string, fallback: string, lower: char -> char)
    requires Lowering(lower) && IsNormal(fallback)
    ensures var n := Normalize(id, fallback, lower);
            Normalize(n, fallback, lower) == n <==> !Twisted(n)
  {
    hide TrimSpace, TrimEnd, ToLower;
    var n := Normalize(id, fallback, lower);
    NormalizeIsNormal(id, fallback, lower);
    NormalAgain(n, fallback, lower);
  }

  const LONG_ID := "_" + seq(62, _ => 'a') + "-b"

  /** Such identifiers exist: this one has 65 characters, and cutting it leaves the dash at the end. */
  lemma SomeIdsAreTwisted(lower: char -> char)
    requires Lowering(lower)
    ensures var n := Normalize(LONG_ID, DEFAULT_AGENT, lower);
            Twisted(n) && Normalize(n, DEFAULT_AGENT, lower) != n
  {
    hide TrimSpace, ToLower, Lowering;
    var id := LONG_ID;
    assert |id| == 65 && id[0] == '_' && id[63] == '-' && id[64] == 'b';
    assert forall i :: 1 <= i < 63 ==> id[i] == 'a';
    assert IdChars(id);
    IdCharsStay(id, lower);
    assert Collapse(id) == id && TrimStart(id, IsDash) == id;
    TrimEndUnique(id, IsDash, |id|);
    assert id[..|id|] == id;
    var n := Normalize(id, DEFAULT_AGENT, lower);
    assert n == id[..64];
    NormalizeIsNormal(id, DEFAULT_AGENT, lower);
    NormalAgain(n, DEFAULT_AGENT, lower);
  }

  lemma NormalAgain(n: string, fallback: string, lower: char -> char)
    requires Lowering(lower) && IsNormal(fallback) && IsNormal(n)
    ensures Normalize(n, fallback, lower) == n <==> !Twisted(n)
  {
    hide TrimSpace, TrimEnd, ToLower, Lowering;
    IdCharsStay(n, lower);
    assert n[0] == '_' || IsLowerAlnum(n[0]) by { assert IsIdChar(n[0]); }
    assert TrimStart(n, IsDash) == n;
    if n[|n| - 1] != '-' {
      TrimEndUnique(n, IsDash, |n|);
      assert n[..|n|] == n;
    }
  }

  // ----- keys ----------------------------------------------------------------------------------------------------

  datatype DmScope = Main | PerPeer | PerChannelPeer | PerAccountChannelPeer

  datatype Peer = Peer(kind: string, id: string)

  datatype Params = Params(agentId: string, channel: string, accountId: string, peer: Option<Peer>, scope: DmScope)

  function Agent(id: string, lower: char -> char): string {
    Normalize(id, DEFAULT_AGENT, lower)
  }

  function NormalizeChannel(channel: string, lower: char -> char): string {
    var c := TrimSpace(ToLower(channel, lower));
    if c == "" then "unknown" else c
  }

  function PeerKind(p: Params): string {
    var kind := TrimSpace(if p.peer.None? then "direct" else p.peer.value.kind);
    if kind == "" then "direct" else kind
  }

  function PeerId(p: Params): string {
    TrimSpace(if p.peer.None? then "" else p.peer.value.id)
  }

  /**
   * The part of a key after the agent, or None for the main session. `linked` is what the identity links resolve the
   * peer to, or "".
   */
  function Rest(p: Params, linked: string, lower: char -> char): Option<string> {
    var kind, id := PeerKind(p), PeerId(p);
    if kind == "direct" then
      var peerId := ToLower(if p.scope != Main && id != "" && linked != "" then linked else id, lower);
      if peerId == "" then None
      else
        match p.scope
        case Main => None
        case PerPeer => Some("direct:" + peerId)
        case PerChannelPeer => Some(NormalizeChannel(p.channel, lower) + ":direct:" + peerId)
        case PerAccountChannelPeer =>
          Some(NormalizeChannel(p.channel, lower) + ":" + Normalize(p.accountId, DEFAULT_ACCOUNT, lower)
               + ":direct:" + peerId)
    else
      var peerId := ToLower(id, lower);
      Some(NormalizeChannel(p.channel, lower) + ":" + kind + ":" + (if peerId == "" then "unknown" else peerId))
  }

  function BuildAgentMainSessionKey(agentId: string, lower: char -> char): string {
    "agent:" + Agent(agentId, lower) + ":main"
  }

  function BuildAgentPeerSessionKey(p: Params, linked: string, lower: char -> char): string {
    match Rest(p, linked, lower)
    case None => BuildAgentMainSessionKey(Agent(p.agentId, lower), lower)
    case Some(rest) => "agent:" + Agent(p.agentId, lower) + ":" + rest
  }

  datatype ParsedKey = ParsedKey(agentId: string, rest: string)

  /** The first colon at or after i, or the length. */
  function Colon(s: string, i: nat): (r: nat)
    requires i <= |s|
    ensures i <= r <= |s| && (r < |s| ==> s[r] == ':')
    ensures forall k :: i <= k < r ==> s[k] != ':'
    decreases |s| - i
  {
    if i < |s| && s[i] != ':' then Colon(s, i + 1) else i
  }

  function ParseAgentSessionKey(key: string): Option<ParsedKey> {
    var raw := TrimSpace(key);
    if raw == "" then None
    else
      var a := Colon(raw, 0);
      if a == |raw| then None
      else
        var b := Colon(raw, a + 1);
        if b == |raw| then None
        else if raw[..a] != "agent" then None
        else
          var agentId, rest := TrimSpace(raw[a + 1..b]), raw[b + 1..];
          if agentId == "" || rest == "" then None else Some(ParsedKey(agentId, rest))
  }

  predicate ColonFree(s: string) { forall i :: 0 <= i < |s| ==> s[i] != ':' }

  lemma ColonAfter(prefix: string, s: string, rest: string)
    requires ColonFree(s)
    ensures Colon(prefix + s + ":" + rest, |prefix|) == |prefix| + |s|
  {
    var all := prefix + s + ":" + rest;
    assert all[|prefix| + |s|] == ':';
    assert forall k :: |prefix| <= k < |prefix| + |s| ==> all[k] == s[k - |prefix|];
  }

  /** The key is trimmed as it is, and its first two colons stand around the agent. */
  lemma PrintedParts(agent: string, rest: string)
    requires IsNormal(agent) && rest != "" && !IsSpace(rest[|rest| - 1])
    ensures var key := "agent:" + agent + ":" + rest;
            TrimSpace(key) == key && Colon(key, 0) == 5 && Colon(key, 6) == 6 + |agent|
  {
    hide TrimSpace, TrimEnd, TrimStart, Colon;
    var key := "agent:" + agent + ":" + rest;
    assert key[0] == 'a' && key[|key| - 1] == rest[|rest| - 1];
    TrimSpaceFromInk(key);
    TrimEndUnique(key, IsSpace, |key|);
    assert key[..|key|] == key;
    ColonAfter("", "agent", agent + ":" + rest);
    assert "" + "agent" + ":" + (agent + ":" + rest) == key;
    NormalIsColonFree(agent);
    ColonAfter("agent:", agent, rest);
  }

  /** Parsing undoes printing, for a normal agent and any rest that does not end in a space. */
  lemma ParsePrinted(agent: string, rest: string)
    requires IsNormal(agent) && rest != "" && !IsSpace(rest[|rest| - 1])
    ensures ParseAgentSessionKey("agent:" + agent + ":" + rest) == Some(ParsedKey(agent, rest))
  {
    PrintedParts(agent, rest);
    PrintedSlices(agent, rest);
    AgentIsTrimmed(agent);
    hide TrimSpace, Colon, IsSpace, IsNormal;
  }

  lemma PrintedSlices(agent: string, rest: string)
    ensures var key := "agent:" + agent + ":" + rest;
            key[..5] == "agent" && key[6..6 + |agent|] == agent && key[7 + |agent|..] == rest
  {
  }

  lemma AgentIsTrimmed(agent: string)
    requires IsNormal(agent)
    ensures TrimSpace(agent) == agent
  {
    assert IsIdChar(agent[0]) && IsIdChar(agent[|agent| - 1]);
    TrimSpaceFromInk(agent);
    TrimEndUnique(agent, IsSpace, |agent|);
    assert agent[..|agent|] == agent;
  }

  lemma LowerEndsInInk(s: string, lower: char -> char)
    requires Lowering(lower) && s != "" && !IsSpace(s[|s| - 1])
    ensures var r := ToLower(s, lower); r != "" && !IsSpace(r[|r| - 1])
  {
  }

  /** Whatever follows the agent in a key is not empty and does not end in a space. */
  lemma RestEndsInInk(p: Params, linked: string, lower: char -> char)
    requires Lowering(lower) && (linked != "" ==> !IsSpace(linked[|linked| - 1]))
    ensures var r := Rest(p, linked, lower); r.Some? ==> r.value != "" && !IsSpace(r.value[|r.value| - 1])
  {
    hide TrimSpace, ToLower, Normalize, NormalizeChannel, Lowering;
    var id := PeerId(p);
    if id != "" {
      LowerEndsInInk(id, lower);
    }
    if linked != "" {
      LowerEndsInInk(linked, lower);
    }
    EmptyLower(lower);
  }

  lemma EmptyLower(lower: char -> char)
    ensures ToLower("", lower) == ""
  {
  }

  /**
   * Every built key parses back to its agent and its rest. The agent is the normalized one; in the main session's key
   * it has been normalized twice, which is the same if it starts with a letter or digit.
   */
  lemma ParseBuilt(p: Params, linked: string, lower: char -> char)
    requires Lowering(lower) && (linked != "" ==> !IsSpace(linked[|linked| - 1]))
    ensures var agent, rest := Agent(p.agentId, lower), Rest(p, linked, lower);
            && ParseAgentSessionKey(BuildAgentPeerSessionKey(p, linked, lower))
               == Some(if rest.Some? then ParsedKey(agent, rest.value) else ParsedKey(Agent(agent, lower), "main"))
            && (Agent(agent, lower) == agent <==> !Twisted(agent))
  {
    hide Normalize, ParseAgentSessionKey, Rest, Lowering;
    var agent := Agent(p.agentId, lower);
    NormalizeIsNormal(p.agentId, DEFAULT_AGENT, lower);
    NormalizeIsNormal(agent, DEFAULT_AGENT, lower);
    NormalizeTwiceIff(p.agentId, DEFAULT_AGENT, lower);
    var rest := Rest(p, linked, lower);
    if rest.Some? {
      RestEndsInInk(p, linked, lower);
      ParsePrinted(agent, rest.value);
    } else {
      ParsePrinted(Agent(agent, lower), "main");
      assert "agent:" + Agent(agent, lower) + ":main" == "agent:" + Agent(agent, lower) + ":" + "main";
    }
  }

  /** The main session's key parses back to the normalized agent. */
  lemma ParseBuiltMain(agentId: string, lower: char -> char)
    ensures ParseAgentSessionKey(BuildAgentMainSessionKey(agentId, lower))
            == Some(ParsedKey(Agent(agentId, lower), "main"))
  {
    hide Normalize, ParseAgentSessionKey;
    NormalizeIsNormal(agentId, DEFAULT_AGENT, lower);
    ParsePrinted(Agent(agentId, lower), "main");
    assert "agent:" + Agent(agentId, lower) + ":main" == "agent:" + Agent(agentId, lower) + ":" + "main";
  }

  // ----- when two keys are the same --------------------------------------------------------------------------------

  lemma HeadsAgree(a: string, x: string, b: string, y: string)
    requires ColonFree(a) && ColonFree(b) && a + ":" + x == b + ":" + y
    ensures a == b && x == y
  {
    hide Colon;
    ColonAfter("", a, x);
    ColonAfter("", b, y);
    assert "" + a + ":" + x == a + ":" + x && "" + b + ":" + y == b + ":" + y;
    assert (a + ":" + x)[..|a|] == a && (b + ":" + y)[..|b|] == b;
    assert (a + ":" + x)[|a| + 1..] == x && (b + ":" + y)[|b| + 1..] == y;
  }

  lemma TrimmedIsColonFree(s: string)
    requires ColonFree(s)
    ensures ColonFree(TrimSpace(s))
  {
    hide TrimEnd;
    var k := FirstKept(s, 0, IsSpace);
    var r := TrimEnd(s[k..], IsSpace);
    assert forall i :: 0 <= i < |r| ==> r[i] == s[k..][i] == s[k + i];
  }

  lemma LowerIsColonFree(s: string, lower: char -> char)
    requires Lowering(lower) && ColonFree(s)
    ensures ColonFree(ToLower(s, lower))
  {
    forall i | 0 <= i < |s|
      ensures lower(s[i]) != ':'
    {
      assert s[i] != ':';
    }
  }

  lemma ChannelIsColonFree(channel: string, lower: char -> char)
    requires Lowering(lower) && ColonFree(channel)
    ensures ColonFree(NormalizeChannel(channel, lower))
  {
    hide TrimSpace, ToLower, Lowering;
    LowerIsColonFree(channel, lower);
    TrimmedIsColonFree(ToLower(channel, lower));
  }

  predicate KnownKind(kind: string) { kind == "direct" || kind == "group" || kind == "channel" }

  /** A colon-free channel, a known kind and a peer that is not blank. */
  predicate IsTidy(p: Params) { ColonFree(p.channel) && KnownKind(PeerKind(p)) && PeerId(p) != "" }

  /** A conversation of its own per channel and peer. */
  predicate PerChannel(p: Params) { p.scope == PerChannelPeer && IsTidy(p) }

  lemma PerChannelRest(p: Params, lower: char -> char)
    requires PerChannel(p)
    ensures Rest(p, "", lower) ==
            Some(NormalizeChannel(p.channel, lower) + ":" + PeerKind(p) + ":" + ToLower(PeerId(p), lower))
  {
    hide TrimSpace, NormalizeChannel;
    var c, id := NormalizeChannel(p.channel, lower), ToLower(PeerId(p), lower);
    assert c + ":direct:" + id == c + ":" + "direct" + ":" + id;
  }

  /**
   * Under per-channel-peer scope, without identity links, with colon-free channels, known kinds and non-blank peers:
   * two keys are equal if and only if agent, channel, kind and lower-cased peer agree.
   */
  lemma SameKeyIff(p: Params, q: Params, lower: char -> char)
    requires Lowering(lower) && PerChannel(p) && PerChannel(q)
    ensures BuildAgentPeerSessionKey(p, "", lower) == BuildAgentPeerSessionKey(q, "", lower) <==>
            && Agent(p.agentId, lower) == Agent(q.agentId, lower)
            && NormalizeChannel(p.channel, lower) == NormalizeChannel(q.channel, lower)
            && PeerKind(p) == PeerKind(q)
            && ToLower(PeerId(p), lower) == ToLower(PeerId(q), lower)
  {
    hide Normalize, NormalizeChannel, PeerKind, PeerId, ToLower, Rest, Lowering;
    PerChannelRest(p, lower);
    PerChannelRest(q, lower);
    NormalizeIsNormal(p.agentId, DEFAULT_AGENT, lower);
    NormalizeIsNormal(q.agentId, DEFAULT_AGENT, lower);
    ChannelIsColonFree(p.channel, lower);
    ChannelIsColonFree(q.channel, lower);
    PartsAgree(Agent(p.agentId, lower), NormalizeChannel(p.channel, lower), PeerKind(p), ToLower(PeerId(p), lower),
               Agent(q.agentId, lower), NormalizeChannel(q.channel, lower), PeerKind(q), ToLower(PeerId(q), lower));
  }

  lemma PlainStays(s: string, lower: char -> char)
    requires Lowering(lower) && s != "" && forall i :: 0 <= i < |s| ==> 'a' <= s[i] <= 'z' || s[i] == ':'
    ensures ToLower(s, lower) == s && TrimSpace(s) == s
  {
    assert ToLower(s, lower) == s;
    TrimSpaceFromInk(s);
    TrimEndUnique(s, IsSpace, |s|);
    assert s[..|s|] == s;
  }

  function ColonInChannel(): Params {
    Params("main", "irc:direct:a", "", Some(Peer("direct", "b")), PerChannelPeer)
  }

  function ColonInPeer(): Params {
    Params("main", "irc", "", Some(Peer("direct", "a:direct:b")), PerChannelPeer)
  }

  /** With a colon in a channel, distinct channels and peers can share a key. */
  lemma ColonsShareAKey(lower: char -> char)
    requires Lowering(lower)
    ensures var p, q := ColonInChannel(), ColonInPeer();
            && BuildAgentPeerSessionKey(p, "", lower) == BuildAgentPeerSessionKey(q, "", lower)
            && NormalizeChannel(p.channel, lower) != NormalizeChannel(q.channel, lower)
            && ToLower(PeerId(p), lower) != ToLower(PeerId(q), lower)
  {
    hide TrimSpace, ToLower, Lowering, Normalize;
    PlainStays("irc:direct:a", lower);
    PlainStays("irc", lower);
    PlainStays("direct", lower);
    PlainStays("b", lower);
    PlainStays("a:direct:b", lower);
    assert "irc:direct:a" + ":direct:" + "b" == "irc" + ":direct:" + "a:direct:b";
  }

  function Print(agent: string, channel: string, kind: string, id: string): string {
    "agent:" + agent + ":" + (channel + ":" + kind + ":" + id)
  }

  lemma PartsAgree(a: string, c: string, k: string, i: string, a': string, c': string, k': string, i': string)
    requires IsNormal(a) && ColonFree(c) && KnownKind(k) && IsNormal(a') && ColonFree(c') && KnownKind(k')
    ensures Print(a, c, k, i) == Print(a', c', k', i') <==> a == a' && c == c' && k == k' && i == i'
  {
    if Print(a, c, k, i) == Print(a', c', k', i') {
      NormalIsColonFree(a);
      NormalIsColonFree(a');
      hide IsNormal, ColonFree;
      var x, x' := c + ":" + k + ":" + i, c' + ":" + k' + ":" + i';
      AfterPrefix(a, x);
      AfterPrefix(a', x');
      HeadsAgree(a, x, a', x');
      ChannelAgrees(c, k, i, c', k', i');
    }
  }

  lemma AfterPrefix(a: string, x: string)
    ensures ("agent:" + a + ":" + x)[6..] == a + ":" + x
  {
  }

  lemma ChannelAgrees(c: string, k: string, i: string, c': string, k': string, i': string)
    requires ColonFree(c) && KnownKind(k) && ColonFree(c') && KnownKind(k')
    requires c + ":" + k + ":" + i == c' + ":" + k' + ":" + i'
    ensures c == c' && k == k' && i == i'
  {
    assert ColonFree(k) && ColonFree(k');
    hide ColonFree, KnownKind;
    assert c + ":" + k + ":" + i == c + ":" + (k + ":" + i) && c' + ":" + k' + ":" + i' == c' + ":" + (k' + ":" + i');
    HeadsAgree(c, k + ":" + i, c', k' + ":" + i');
    HeadsAgree(k, i, k', i');
  }

  lemma NormalIsColonFree(s: string)
    requires IsNormal(s)
    ensures ColonFree(s)
  {
    forall i | 0 <= i < |s|
      ensures s[i] != ':'
    {
      assert IsIdChar(s[i]);
    }
  }

  // ----- the other scopes ------------------------------------------------------------------------------------------

  predicate IsDirect(p: Params) { PeerKind(p) == "direct" }

  lemma KeysAgree(a: string, x: string, b: string, y: string)
    requires IsNormal(a) && IsNormal(b)
    ensures "agent:" + a + ":" + x == "agent:" + b + ":" + y <==> a == b && x == y
  {
    if "agent:" + a + ":" + x == "agent:" + b + ":" + y {
      NormalIsColonFree(a);
      NormalIsColonFree(b);
      AfterPrefix(a, x);
      AfterPrefix(b, y);
      hide IsNormal, ColonFree;
      HeadsAgree(a, x, b, y);
    }
  }

  lemma HeadsIff(a: string, x: string, b: string, y: string)
    requires ColonFree(a) && ColonFree(b)
    ensures a + ":" + x == b + ":" + y <==> a == b && x == y
  {
    if a + ":" + x == b + ":" + y {
      HeadsAgree(a, x, b, y);
    }
  }

  lemma KeyIs(p: Params, lower: char -> char)
    requires Rest(p, "", lower).Some?
    ensures BuildAgentPeerSessionKey(p, "", lower)
            == "agent:" + Agent(p.agentId, lower) + ":" + Rest(p, "", lower).value
    ensures IsNormal(Agent(p.agentId, lower))
  {
    hide Normalize, Rest;
    NormalizeIsNormal(p.agentId, DEFAULT_AGENT, lower);
  }

  /** What follows the agent, as a head without a colon and the parts behind it. */
  lemma PeerRest(p: Params, lower: char -> char)
    requires IsTidy(p) && p.scope == PerPeer
    ensures Rest(p, "", lower) ==
            Some(if IsDirect(p) then "direct" + ":" + ToLower(PeerId(p), lower)
                 else NormalizeChannel(p.channel, lower) + ":" + (PeerKind(p) + ":" + ToLower(PeerId(p), lower)))
  {
    hide TrimSpace, NormalizeChannel;
    var c, k, id := NormalizeChannel(p.channel, lower), PeerKind(p), ToLower(PeerId(p), lower);
    assert c + ":" + k + ":" + id == c + ":" + (k + ":" + id);
    assert "direct:" + id == "direct" + ":" + id;
  }

  /**
   * One session per peer: direct conversations share a key if and only if agent and lower-cased peer agree, across all
   * channels; others if channel and kind agree as well; and a direct one shares none with another, unless a channel is
   * named "direct".
   */
  lemma SamePeerKeyIff(p: Params, q: Params, lower: char -> char)
    requires Lowering(lower) && IsTidy(p) && IsTidy(q) && p.scope == q.scope == PerPeer
    requires NormalizeChannel(p.channel, lower) != "direct" && NormalizeChannel(q.channel, lower) != "direct"
    ensures BuildAgentPeerSessionKey(p, "", lower) == BuildAgentPeerSessionKey(q, "", lower) <==>
            && Agent(p.agentId, lower) == Agent(q.agentId, lower)
            && ToLower(PeerId(p), lower) == ToLower(PeerId(q), lower)
            && PeerKind(p) == PeerKind(q)
            && (!IsDirect(p) ==> NormalizeChannel(p.channel, lower) == NormalizeChannel(q.channel, lower))
  {
    hide Normalize, NormalizeChannel, PeerKind, PeerId, ToLower, Rest, Lowering;
    PeerRest(p, lower);
    PeerRest(q, lower);
    KeyIs(p, lower);
    KeyIs(q, lower);
    KeysAgree(Agent(p.agentId, lower), Rest(p, "", lower).value, Agent(q.agentId, lower), Rest(q, "", lower).value);
    ChannelIsColonFree(p.channel, lower);
    ChannelIsColonFree(q.channel, lower);
    var id, id' := ToLower(PeerId(p), lower), ToLower(PeerId(q), lower);
    var k, k' := PeerKind(p), PeerKind(q);
    HeadsIff(if IsDirect(p) then "direct" else NormalizeChannel(p.channel, lower),
             if IsDirect(p) then id else k + ":" + id,
             if IsDirect(q) then "direct" else NormalizeChannel(q.channel, lower),
             if IsDirect(q) then id' else k' + ":" + id');
    HeadsIff(k, id, k', id');
  }

  function Account(p: Params, lower: char -> char): string {
    Normalize(p.accountId, DEFAULT_ACCOUNT, lower)
  }

  lemma AccountRest(p: Params, lower: char -> char)
    requires IsTidy(p) && p.scope == PerAccountChannelPeer
    ensures Rest(p, "", lower) ==
            Some(NormalizeChannel(p.channel, lower) + ":"
                 + (if IsDirect(p) then Account(p, lower) + ":" + ("direct" + ":" + ToLower(PeerId(p), lower))
                    else PeerKind(p) + ":" + ToLower(PeerId(p), lower)))
  {
    hide TrimSpace, NormalizeChannel, Normalize;
    var c, k, id := NormalizeChannel(p.channel, lower), PeerKind(p), ToLower(PeerId(p), lower);
    var a := Account(p, lower);
    assert c + ":" + k + ":" + id == c + ":" + (k + ":" + id);
    assert c + ":" + a + ":direct:" + id == c + ":" + (a + ":" + ("direct" + ":" + id));
  }

  lemma AccountIsColonFree(p: Params, lower: char -> char)
    ensures ColonFree(Account(p, lower))
  {
    hide Normalize;
    NormalizeIsNormal(p.accountId, DEFAULT_ACCOUNT, lower);
    NormalIsColonFree(Account(p, lower));
  }

  /**
   * One session per account, channel and peer: two keys are equal if and only if agent, channel, kind and lower-cased
   * peer agree, and for direct conversations the account; unless an account is named as a kind of conversation is.
   */
  lemma SameAccountKeyIff(p: Params, q: Params, lower: char -> char)
    requires Lowering(lower) && IsTidy(p) && IsTidy(q) && p.scope == q.scope == PerAccountChannelPeer
    requires !KnownKind(Account(p, lower)) && !KnownKind(Account(q, lower))
    ensures BuildAgentPeerSessionKey(p, "", lower) == BuildAgentPeerSessionKey(q, "", lower) <==>
            && Agent(p.agentId, lower) == Agent(q.agentId, lower)
            && NormalizeChannel(p.channel, lower) == NormalizeChannel(q.channel, lower)
            && PeerKind(p) == PeerKind(q)
            && ToLower(PeerId(p), lower) == ToLower(PeerId(q), lower)
            && (IsDirect(p) ==> Account(p, lower) == Account(q, lower))
  {
    hide Normalize, NormalizeChannel, PeerKind, PeerId, ToLower, Rest, Lowering, Account;
    AccountRest(p, lower);
    AccountRest(q, lower);
    KeyIs(p, lower);
    KeyIs(q, lower);
    KeysAgree(Agent(p.agentId, lower), Rest(p, "", lower).value, Agent(q.agentId, lower), Rest(q, "", lower).value);
    ChannelIsColonFree(p.channel, lower);
    ChannelIsColonFree(q.channel, lower);
    AccountIsColonFree(p, lower);
    AccountIsColonFree(q, lower);
    var id, id' := ToLower(PeerId(p), lower), ToLower(PeerId(q), lower);
    var h, h' := if IsDirect(p) then Account(p, lower) else PeerKind(p),
                 if IsDirect(q) then Account(q, lower) else PeerKind(q);
    var x, x' := if IsDirect(p) then "direct" + ":" + id else id, if IsDirect(q) then "direct" + ":" + id' else id';
    HeadsIff(NormalizeChannel(p.channel, lower), h + ":" + x, NormalizeChannel(q.channel, lower), h' + ":" + x');
    HeadsIff(h, x, h', x');
    HeadsIff("direct", id, "direct", id');
  }

  /** Under the main scope every direct conversation of an agent shares its one session, and no other one does. */
  lemma MainScopeIsOneSession(p: Params, q: Params, lower: char -> char)
    requires Lowering(lower) && p.scope == q.scope == Main && Agent(p.agentId, lower) == Agent(q.agentId, lower)
    ensures IsDirect(p) && IsDirect(q) ==>
              BuildAgentPeerSessionKey(p, "", lower) == BuildAgentPeerSessionKey(q, "", lower)
    ensures IsDirect(p) <==> Rest(p, "", lower).None?
  {
    hide Normalize, NormalizeChannel, TrimSpace, Lowering;
  }

  /** The exception is real: with a channel that is named "direct", two conversations share a key. */
  lemma ChannelNameSharesAKey(lower: char -> char)
    requires Lowering(lower)
    ensures var p := Params("main", "irc", "", Some(Peer("direct", "group:x")), PerPeer);
            var q := Params("main", "direct", "", Some(Peer("group", "x")), PerPeer);
            BuildAgentPeerSessionKey(p, "", lower) == BuildAgentPeerSessionKey(q, "", lower)
  {
    hide TrimSpace, ToLower, Lowering, Normalize;
    PlainStays("direct", lower);
    PlainStays("group", lower);
    PlainStays("x", lower);
    PlainStays("group:x", lower);
    assert "direct:" + "group:x" == "direct" + ":" + "group" + ":" + "x";
  }

  /** So is this one: with an account that is named "group", two conversations share a key. */
  lemma AccountNameSharesAKey(lower: char -> char)
    requires Lowering(lower)
    ensures var p := Params("main", "irc", "group", Some(Peer("direct", "x")), PerAccountChannelPeer);
            var q := Params("main", "irc", "", Some(Peer("group", "direct:x")), PerAccountChannelPeer);
            BuildAgentPeerSessionKey(p, "", lower) == BuildAgentPeerSessionKey(q, "", lower)
  {
    hide TrimSpace, ToLower, Lowering, Normalize;
    PlainStays("irc", lower);
    PlainStays("direct", lower);
    PlainStays("group", lower);
    PlainStays("x", lower);
    PlainStays("direct:x", lower);
    GroupIsNormal(lower);
    assert "irc" + ":" + "group" + ":direct:" + "x" == "irc" + ":" + "group" + ":" + "direct:x";
  }

  lemma GroupIsNormal(lower: char -> char)
    requires Lowering(lower)
    ensures Normalize("group", DEFAULT_ACCOUNT, lower) == "group"
  {
    PlainStays("group", lower);
    hide TrimSpace, ToLower, Lowering;
    assert ValidId("group");
  }

  // ----- identity links ----------------------------------------------------------------------------------------------

  /** The names under which a peer may be listed: as given, with its channel, and without its platform. */
  function Candidates(channel: string, peerId: string, lower: char -> char): set<string> {
    var raw, c := ToLower(TrimSpace(peerId), lower), ToLower(TrimSpace(channel), lower);
    var colon := Colon(raw, 0);
    {raw} + (if c != "" then {c + ":" + raw} else {}) + (if 0 < colon < |raw| - 1 then {raw[colon + 1..]} else {})
  }

  /** The entry lists one of the candidates under a name that is not blank. */
  predicate Lists(links: map<string, seq<string>>, canonical: string, candidates: set<string>, lower: char -> char) {
    && canonical in links && TrimSpace(canonical) != ""
    && exists id :: id in links[canonical] && Matches(id, candidates, lower)
  }

  predicate Matches(id: string, candidates: set<string>, lower: char -> char) {
    ToLower(TrimSpace(id), lower) != "" && ToLower(TrimSpace(id), lower) in candidates
  }

  /** The trimmed name of some entry that lists the peer, whichever is met first; "" if and only if there is none. */
  method ResolveLinkedPeerId(links: map<string, seq<string>>, channel: string, peerId: string, lower: char -> char)
    returns (name: string)
    ensures name != "" ==> !IsSpace(name[|name| - 1])
    ensures name != "" ==> exists canonical ::
              canonical in links && name == TrimSpace(canonical)
              && Lists(links, canonical, Candidates(channel, peerId, lower), lower)
    ensures name == "" <==> TrimSpace(peerId) == "" || forall canonical ::
              canonical in links ==> !Lists(links, canonical, Candidates(channel, peerId, lower), lower)
  {
    hide TrimSpace, ToLower, Candidates;
    if |links| == 0 || TrimSpace(peerId) == "" {
      return "";
    }
    var candidates := Candidates(channel, peerId, lower);
    var todo := links.Keys;
    while todo != {}
      invariant todo <= links.Keys
      invariant forall canonical :: canonical in links && canonical !in todo ==>
                  !Lists(links, canonical, candidates, lower)
      decreases todo
    {
      var canonical :| canonical in todo;
      todo := todo - {canonical};
      var canonicalName := TrimSpace(canonical);
      if canonicalName == "" {
        continue;
      }
      var ids := links[canonical];
      for i := 0 to |ids|
        invariant forall k :: 0 <= k < i ==> !Matches(ids[k], candidates, lower)
      {
        var normalized := ToLower(TrimSpace(ids[i]), lower);
        if normalized != "" && normalized in candidates {
          assert ids[i] in links[canonical] && Matches(ids[i], candidates, lower);
          return canonicalName;
        }
      }
    }
    return "";
  }
}
