/**
  Cross-instance channels: the publisher prints a channel name, every instance subscribes five
  glob patterns, and the bridge parses the name back
  (app/services/ws/protocol.py, app/services/ws/publisher.py, app/services/ws/bridge.py).
*/
module Channels {
  import opened Wrappers

  /** A JSON object, as far as the bridge looks into it. */
  datatype Json = Number(n: int) | Text(s: string)
  type Payload = map<string, Json>

  /** What a caller asks the publisher for, and what the bridge asks the connection manager for. */
  datatype Delivery =
    | ToPrincipal(id: int, message: Payload)
    | ToTopic(topic: string, message: Payload)
    | ToAll(message: Payload)
    | KickPrincipal(id: int, code: Json)
    | KickSession(sid: string, code: Json)

  const PRINCIPAL: string := "ws:principal:"
  const TOPIC: string := "ws:topic:"
  const BROADCAST: string := "ws:broadcast"
  const DISCONNECT_PRINCIPAL: string := "ws:disconnect:principal:"
  const DISCONNECT_SID: string := "ws:disconnect:sid:"

  const PATTERNS: seq<string> :=
    ["ws:principal:*", "ws:topic:*", "ws:broadcast", "ws:disconnect:principal:*", "ws:disconnect:sid:*"]

  const UNAUTHENTICATED: int := 4401

  // ------------------------------------------------------------------ decimal integers

  function Digit(d: nat): char
    requires d < 10
  {
    '0' + d as char
  }

  function PrintNat(n: nat): (s: string)
    ensures s != ""
  {
    (if n < 10 then "" else PrintNat(n / 10)) + [Digit(n % 10)]
  }

  function PrintInt(n: int): string {
    if n < 0 then "-" + PrintNat(-n) else PrintNat(n)
  }

  predicate IsDigit(c: char) {
    '0' <= c <= '9'
  }

  function ParseNat(s: string): Option<nat> {
    if s == "" || !IsDigit(s[|s| - 1]) then None
    else
      var d := (s[|s| - 1] - '0') as nat;
      if |s| == 1 then Some(d)
      else
        var front := ParseNat(s[..|s| - 1]);
        if front.None? then None else Some(10 * front.value + d)
  }

  /** `int` on optionally signed decimal digits. */
  function ParseInt(s: string): Option<int> {
    if s != "" && (s[0] == '-' || s[0] == '+') then
      var n := ParseNat(s[1..]);
      if n.None? then None
      else
        var v: int := n.value;
        if s[0] == '-' then Some(-v) else Some(v)
    else
      var n := ParseNat(s);
      if n.None? then None else Some(n.value)
  }

  lemma {:induction false} ParseNatPrintNat(n: nat)
    ensures ParseNat(PrintNat(n)) == Some(n)
    ensures IsDigit(PrintNat(n)[0])
  {
    var front := if n < 10 then "" else PrintNat(n / 10);
    if n >= 10 {
      ParseNatPrintNat(n / 10);
    }
    assert PrintNat(n)[..|PrintNat(n)| - 1] == front;
  }

  lemma ParseIntPrintInt(n: int)
    ensures ParseInt(PrintInt(n)) == Some(n)
  {
    ParseNatPrintNat(if n < 0 then -n else n);
    if n < 0 {
      assert PrintInt(n)[1..] == PrintNat(-n);
    }
  }

  // ------------------------------------------------------------------ glob

  /** Redis pattern matching, without character classes. */
  predicate Glob(pattern: string, s: string)
    decreases |pattern|, |s|
  {
    if pattern == "" then s == ""
    else if pattern[0] == '*' then exists k | 0 <= k <= |s| :: Glob(pattern[1..], s[k..])
    else if pattern[0] == '?' then s != "" && Glob(pattern[1..], s[1..])
    else if pattern[0] == '\\' && |pattern| > 1 then s != "" && s[0] == pattern[1] && Glob(pattern[2..], s[1..])
    else s != "" && s[0] == pattern[0] && Glob(pattern[1..], s[1..])
  }

  predicate Plain(text: string) {
    forall i | 0 <= i < |text| :: text[i] != '*' && text[i] != '?' && text[i] != '\\' && text[i] != '['
  }

  lemma {:induction false} PlainThen(text: string, rest: string, s: string)
    requires Plain(text)
    ensures Glob(text + rest, s) <==> text <= s && Glob(rest, s[|text|..])
  {
    if text == "" {
      assert text + rest == rest && s[0..] == s;
    } else {
      assert (text + rest)[1..] == text[1..] + rest;
      if s != "" {
        PlainThen(text[1..], rest, s[1..]);
        PrefixPeels(text, s);
      }
    }
  }

  lemma PrefixPeels(a: string, s: string)
    requires a != "" && s != ""
    ensures a <= s <==> a[0] == s[0] && a[1..] <= s[1..]
    ensures a <= s ==> s[1..][|a| - 1..] == s[|a|..]
  {
  }

  lemma PlainIsEquality(text: string, s: string)
    requires Plain(text)
    ensures Glob(text, s) <==> s == text
  {
  }

  lemma PlainStarIsPrefix(text: string, s: string)
    requires Plain(text)
    ensures Glob(text + "*", s) <==> text <= s
  {
    PlainThen(text, "*", s);
    if text <= s {
      var rest := s[|text|..];
      assert rest[|rest|..] == "" && Glob("*"[1..], rest[|rest|..]);
    }
  }

  /** What each subscribed pattern accepts. */
  predicate Belongs(i: nat, channel: string)
    requires i < 5
  {
    if i == 0 then PRINCIPAL <= channel
    else if i == 1 then TOPIC <= channel
    else if i == 2 then channel == BROADCAST
    else if i == 3 then DISCONNECT_PRINCIPAL <= channel
    else DISCONNECT_SID <= channel
  }

  lemma PatternsMatchPrefixes(i: nat, channel: string)
    requires i < 5
    ensures Glob(PATTERNS[i], channel) <==> Belongs(i, channel)
  {
    match i
    case 0 =>
      PlainStarIsPrefix(PRINCIPAL, channel);
      assert PATTERNS[0] == PRINCIPAL + "*";
    case 1 =>
      PlainStarIsPrefix(TOPIC, channel);
      assert PATTERNS[1] == TOPIC + "*";
    case 2 =>
      PlainIsEquality(BROADCAST, channel);
    case 3 =>
      PlainStarIsPrefix(DISCONNECT_PRINCIPAL, channel);
      assert PATTERNS[3] == DISCONNECT_PRINCIPAL + "*";
    case _ =>
      PlainStarIsPrefix(DISCONNECT_SID, channel);
      assert PATTERNS[4] == DISCONNECT_SID + "*";
  }

  /** Where the five families of channels part: the fourth character, and the fifteenth of the
      two kinds of kick. */
  lemma FamiliesPart(i: nat, channel: string)
    requires i < 5 && Belongs(i, channel)
    ensures |channel| > 3
    ensures channel[3] == if i == 0 then 'p' else if i == 1 then 't' else if i == 2 then 'b' else 'd'
    ensures i >= 3 ==> |channel| > 14 && channel[14] == if i == 3 then 'p' else 's'
  {
  }

  lemma FamiliesAreDisjoint(channel: string, i: nat, j: nat)
    requires i < 5 && j < 5 && Belongs(i, channel) && Belongs(j, channel)
    ensures i == j
  {
    FamiliesPart(i, channel);
    FamiliesPart(j, channel);
  }

  /** No channel whatever is matched by two of the subscribed patterns. */
  lemma PatternsAreDisjoint(channel: string, i: nat, j: nat)
    requires i < 5 && j < 5 && Glob(PATTERNS[i], channel) && Glob(PATTERNS[j], channel)
    ensures i == j
  {
    PatternsMatchPrefixes(i, channel);
    PatternsMatchPrefixes(j, channel);
    FamiliesAreDisjoint(channel, i, j);
  }

  // ------------------------------------------------------------------ publisher and bridge

  /** Each publish call: the channel and the payload. */
  function Publish(d: Delivery): (string, Payload) {
    match d
    case ToPrincipal(id, message) => (PRINCIPAL + PrintInt(id), message)
    case ToTopic(topic, message) => (TOPIC + topic, message)
    case ToAll(message) => (BROADCAST, message)
    case KickPrincipal(id, code) => (DISCONNECT_PRINCIPAL + PrintInt(id), map["code" := code])
    case KickSession(sid, code) => (DISCONNECT_SID + sid, map["code" := code])
  }

  datatype Outcome = Routed(delivery: Delivery) | Ignored | BadNumber

  function CodeOf(payload: Payload): Json {
    if "code" in payload then payload["code"] else Number(UNAUTHENTICATED)
  }

  /** The id that ends a channel; `int` raises when there is none. */
  function NumberThen(text: string, delivery: int -> Delivery): Outcome {
    var id := ParseInt(text);
    if id.None? then BadNumber else Routed(delivery(id.value))
  }

  /** `_dispatch`: the branches in the bridge's order. */
  function Dispatch(channel: string, payload: Payload): Outcome {
    if DISCONNECT_PRINCIPAL <= channel then
      NumberThen(channel[|DISCONNECT_PRINCIPAL|..], id => KickPrincipal(id, CodeOf(payload)))
    else if DISCONNECT_SID <= channel then
      Routed(KickSession(channel[|DISCONNECT_SID|..], CodeOf(payload)))
    else if PRINCIPAL <= channel then
      NumberThen(channel[|PRINCIPAL|..], id => ToPrincipal(id, payload))
    else if TOPIC <= channel then Routed(ToTopic(channel[|TOPIC|..], payload))
    else if channel == BROADCAST then Routed(ToAll(payload))
    else Ignored
  }

  /** Redis sends an instance one message per pattern that matches. */
  function Received(channel: string, payload: Payload, patterns: nat): seq<Outcome>
    requires patterns <= 5
  {
    if patterns == 0 then []
    else Received(channel, payload, patterns - 1)
         + if Glob(PATTERNS[patterns - 1], channel) then [Dispatch(channel, payload)] else []
  }

  lemma {:induction false} ReceivedOnce(channel: string, payload: Payload, patterns: nat, i: nat)
    requires patterns <= 5 && i < 5 && Glob(PATTERNS[i], channel)
    ensures Received(channel, payload, patterns) == if i < patterns then [Dispatch(channel, payload)] else []
  {
    if patterns > 0 {
      ReceivedOnce(channel, payload, patterns - 1, i);
      if Glob(PATTERNS[patterns - 1], channel) {
        PatternsAreDisjoint(channel, i, patterns - 1);
      }
    }
  }

  function PatternOf(d: Delivery): (i: nat)
    ensures i < 5
  {
    match d
    case ToPrincipal(_, _) => 0
    case ToTopic(_, _) => 1
    case ToAll(_) => 2
    case KickPrincipal(_, _) => 3
    case KickSession(_, _) => 4
  }

  lemma PublishedBelongs(d: Delivery)
    ensures Belongs(PatternOf(d), Publish(d).0)
  {
  }

  /** The branch taken is the channel's own family, whatever the order of the branches. */
  lemma BranchOfFamily(channel: string, payload: Payload, i: nat)
    requires i < 5 && Belongs(i, channel)
    ensures Dispatch(channel, payload) ==
      if i == 0 then NumberThen(channel[|PRINCIPAL|..], id => ToPrincipal(id, payload))
      else if i == 1 then Routed(ToTopic(channel[|TOPIC|..], payload))
      else if i == 2 then Routed(ToAll(payload))
      else if i == 3 then NumberThen(channel[|DISCONNECT_PRINCIPAL|..], id => KickPrincipal(id, CodeOf(payload)))
      else Routed(KickSession(channel[|DISCONNECT_SID|..], CodeOf(payload)))
  {
    if Belongs(3, channel) {
      FamiliesAreDisjoint(channel, i, 3);
    } else if Belongs(4, channel) {
      FamiliesAreDisjoint(channel, i, 4);
    } else if Belongs(0, channel) {
      FamiliesAreDisjoint(channel, i, 0);
    } else if Belongs(1, channel) {
      FamiliesAreDisjoint(channel, i, 1);
    }
  }

  lemma AfterPrefix(prefix: string, rest: string)
    ensures prefix <= prefix + rest && (prefix + rest)[|prefix|..] == rest
  {
  }

  /** The bridge undoes the publisher, whatever the id, topic or session. */
  lemma DispatchUndoesPublish(d: Delivery)
    ensures Dispatch(Publish(d).0, Publish(d).1) == Routed(d)
  {
    PublishedBelongs(d);
    BranchOfFamily(Publish(d).0, Publish(d).1, PatternOf(d));
    match d
    case ToPrincipal(id, _) =>
      ParseIntPrintInt(id);
      AfterPrefix(PRINCIPAL, PrintInt(id));
    case ToTopic(topic, _) =>
      AfterPrefix(TOPIC, topic);
    case ToAll(_) =>
    case KickPrincipal(id, _) =>
      ParseIntPrintInt(id);
      AfterPrefix(DISCONNECT_PRINCIPAL, PrintInt(id));
    case KickSession(sid, _) =>
      AfterPrefix(DISCONNECT_SID, sid);
  }

  /** A kick takes its close code from the payload, and 4401 when it carries none. */
  lemma KickCode(id: int, sid: string, payload: Payload)
    ensures var code := if "code" in payload then payload["code"] else Number(4401);
            && Dispatch("ws:disconnect:principal:" + PrintInt(id), payload) == Routed(KickPrincipal(id, code))
            && Dispatch("ws:disconnect:sid:" + sid, payload) == Routed(KickSession(sid, code))
  {
    BranchOfFamily(DISCONNECT_PRINCIPAL + PrintInt(id), payload, 3);
    BranchOfFamily(DISCONNECT_SID + sid, payload, 4);
    ParseIntPrintInt(id);
    AfterPrefix(DISCONNECT_PRINCIPAL, PrintInt(id));
    AfterPrefix(DISCONNECT_SID, sid);
  }

  /** Every publish call reaches the manager of each instance exactly once, as it was made. */
  lemma ExactlyOnce(d: Delivery)
    ensures Received(Publish(d).0, Publish(d).1, |PATTERNS|) == [Routed(d)]
  {
    PublishedBelongs(d);
    PatternsMatchPrefixes(PatternOf(d), Publish(d).0);
    ReceivedOnce(Publish(d).0, Publish(d).1, 5, PatternOf(d));
    DispatchUndoesPublish(d);
  }

  lemma NoFamilyNoBranch(channel: string, payload: Payload)
    requires forall i: nat | i < 5 :: !Belongs(i, channel)
    ensures Dispatch(channel, payload) == Ignored
  {
    assert !Belongs(0, channel) && !Belongs(1, channel) && !Belongs(2, channel);
    assert !Belongs(3, channel) && !Belongs(4, channel);
  }

  /** The bridge has a branch for exactly the channels it subscribes to. */
  lemma IgnoredIffNotSubscribed(channel: string, payload: Payload)
    ensures Dispatch(channel, payload).Ignored? <==> forall i: nat | i < 5 :: !Glob(PATTERNS[i], channel)
  {
    forall i: nat | i < 5
      ensures Glob(PATTERNS[i], channel) <==> Belongs(i, channel)
    {
      PatternsMatchPrefixes(i, channel);
    }
    if i: nat :| i < 5 && Belongs(i, channel) {
      BranchOfFamily(channel, payload, i);
    } else {
      NoFamilyNoBranch(channel, payload);
    }
  }
}
