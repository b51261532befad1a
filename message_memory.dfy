/** The session store: conversation history per session id, kept in memory,
    capped in length and swept when idle for too long. */
module MessageMemory {
  import opened ChatTypes

  datatype Session = Session(messages: seq<Message>, createdAt: int, lastUpdated: int)

  /** Defaults used when the configured value is 0. */
  const DefaultMaxSessionAgeMinutes: int := 30
  const DefaultMaxMessagesPerSession: int := 20

  /** `array.slice(start)` with a single argument: a negative start counts
      from the end and is clamped at 0; a start beyond the end gives []. */
  function SliceFrom<T>(s: seq<T>, start: int): (r: seq<T>)
    ensures start < 0 && -start <= |s| ==> r == s[|s| + start..]
    ensures start < 0 && -start > |s| ==> r == s
    ensures 0 <= start <= |s| ==> r == s[start..]
    ensures start > |s| ==> r == []
  {
    var from := if start < 0 then (if |s| + start < 0 then 0 else |s| + start)
                else (if start > |s| then |s| else start);
    s[from..]
  }

  /** The messages of a session after `addMessage` pushes `m`: on overflow
      the first message is kept and followed by the last `max - 1` ones. */
  function Appended(messages: seq<Message>, m: Message, max: int): seq<Message> {
    var pushed := messages + [m];
    if |pushed| > max then [pushed[0]] + SliceFrom(pushed, -(max - 1)) else pushed
  }

  /** Below the cap, appending is plain concatenation. */
  lemma AppendBelowCap(messages: seq<Message>, m: Message, max: int)
    requires |messages| < max
    ensures Appended(messages, m, max) == messages + [m]
  {
  }

  /** The first stored message is never dropped. */
  lemma AppendKeepsFirst(messages: seq<Message>, m: Message, max: int)
    requires |messages| > 0
    ensures |Appended(messages, m, max)| > 0
    ensures Appended(messages, m, max)[0] == messages[0]
  {
  }

  /** The message just added is the last one stored, for any cap of at least 1. */
  lemma AppendKeepsNewest(messages: seq<Message>, m: Message, max: int)
    requires max >= 1
    ensures |Appended(messages, m, max)| > 0
    ensures Appended(messages, m, max)[|Appended(messages, m, max)| - 1] == m
  {
  }

  /** With a cap of at least 2, a session within the cap stays within it:
      its length becomes the smaller of its old length + 1 and the cap. */
  lemma AppendBounded(messages: seq<Message>, m: Message, max: int)
    requires max >= 2 && |messages| <= max
    ensures |Appended(messages, m, max)| == if |messages| < max then |messages| + 1 else max
  {
  }

  /** On overflow of a full session, the message at index 1 is the one
      dropped: index 0 stays, the rest shift left, the new one goes last. */
  lemma AppendOverflowDropsSecond(messages: seq<Message>, m: Message, max: int)
    requires max >= 2 && |messages| == max
    ensures Appended(messages, m, max) == [messages[0]] + messages[2..] + [m]
  {
    var pushed := messages + [m];
    assert pushed[|pushed| - (max - 1)..] == messages[2..] + [m];
  }

  /** With a cap of 1, `slice(-0)` returns the whole array, so overflow
      grows the session by two (message 0 is duplicated) instead of
      shrinking it. */
  lemma AppendCapOneGrows(messages: seq<Message>, m: Message)
    requires |messages| >= 1
    ensures Appended(messages, m, 1) == [messages[0]] + messages + [m]
    ensures |Appended(messages, m, 1)| == |messages| + 2
  {
  }

  /** The messages of a session that started empty after the messages of
      `history` were added to it one by one. */
  function Replay(history: seq<Message>, max: int): seq<Message>
    decreases |history|
  {
    if history == [] then []
    else Appended(Replay(history[..|history| - 1], max), history[|history| - 1], max)
  }

  /** After any number of appends with a cap of at least 2: the session
      holds min(n, cap) messages, the first one ever added is still first,
      and the others are the most recent ones, in order. */
  lemma {:induction false} ReplayKeepsFirstAndRecent(history: seq<Message>, max: int)
    requires max >= 2
    ensures var r := Replay(history, max);
      && |r| == (if |history| < max then |history| else max)
      && (history != [] ==> r[0] == history[0] && r[1..] == history[|history| - (|r| - 1)..])
    decreases |history|
  {
    if history != [] {
      var prefix := history[..|history| - 1];
      var m := history[|history| - 1];
      assert history == prefix + [m];
      ReplayKeepsFirstAndRecent(prefix, max);
      if prefix == [] {
        assert Replay(prefix, max) == [];
      } else {
        AppendKeepsFirstAndRecent(prefix, Replay(prefix, max), m, max);
      }
    }
  }

  /** The induction step of `ReplayKeepsFirstAndRecent`: one more append. */
  lemma AppendKeepsFirstAndRecent(prefix: seq<Message>, before: seq<Message>, m: Message, max: int)
    requires max >= 2 && prefix != []
    requires |before| == (if |prefix| < max then |prefix| else max)
    requires before[0] == prefix[0] && before[1..] == prefix[|prefix| - (|before| - 1)..]
    ensures var history := prefix + [m];
      var r := Appended(before, m, max);
      && |r| == (if |history| < max then |history| else max)
      && r[0] == history[0] && r[1..] == history[|history| - (|r| - 1)..]
  {
    var history := prefix + [m];
    var pushed := before + [m];
    var k := |prefix| - (|before| - 1);
    assert pushed[1..] == before[1..] + [m];
    assert history[k..] == prefix[k..] + [m];
    if |pushed| > max {
      var tail := pushed[|pushed| - (max - 1)..];
      assert Appended(before, m, max) == [pushed[0]] + tail;
      assert tail == pushed[1..][1..];
      assert history[k..][1..] == history[k + 1..];
    }
  }

  /** `sessionAge > MAX_SESSION_AGE_MS`: the sweep removes this session. */
  predicate Expired(s: Session, now: int, maxAgeMs: int) {
    now - s.lastUpdated > maxAgeMs
  }

  /** The store after `getSession(id)`: an unknown id gets an empty session
      stamped `now`; nothing else changes. */
  function WithSession(sessions: map<string, Session>, id: string, now: int): (r: map<string, Session>)
    ensures id in r
    ensures id in sessions ==> r == sessions
    ensures id !in sessions ==> r[id] == Session([], now, now)
    ensures r.Keys == sessions.Keys + {id}
    ensures forall k :: k in sessions ==> r[k] == sessions[k]
  {
    if id in sessions then sessions else sessions[id := Session([], now, now)]
  }

  /** The store after `addMessage(id, m)`: the session (created if absent)
      gets `m` appended under the cap and `lastUpdated == now`; every other
      session is untouched. */
  function AfterAdd(sessions: map<string, Session>, id: string, m: Message, max: int, now: int)
    : (r: map<string, Session>)
    ensures r.Keys == sessions.Keys + {id}
    ensures forall k :: k in sessions && k != id ==> r[k] == sessions[k]
    ensures r[id].lastUpdated == now
    ensures r[id].createdAt == (if id in sessions then sessions[id].createdAt else now)
    ensures id in sessions ==> r[id].messages == Appended(sessions[id].messages, m, max)
    ensures id !in sessions ==> r[id].messages == [m]
  {
    var s := WithSession(sessions, id, now)[id];
    sessions[id := Session(Appended(s.messages, m, max), s.createdAt, now)]
  }

  /** The store after a sweep at time `now`. */
  function Swept(sessions: map<string, Session>, now: int, maxAgeMs: int): (r: map<string, Session>)
    ensures forall k :: k in r <==> k in sessions && !Expired(sessions[k], now, maxAgeMs)
    ensures forall k :: k in r ==> r[k] == sessions[k]
  {
    map k | k in sessions && !Expired(sessions[k], now, maxAgeMs) :: sessions[k]
  }

  /** `messages.map(msg => ({ role, content }))`: the history handed to a
      provider, same length and order, timestamps dropped. */
  function Format(messages: seq<Message>): (r: seq<ChatTurn>)
    ensures |r| == |messages|
    ensures forall i :: 0 <= i < |messages| ==>
      r[i].role == messages[i].role && r[i].content == messages[i].content
  {
    if messages == [] then []
    else [ChatTurn(messages[0].role, messages[0].content)] + Format(messages[1..])
  }

  class MessageMemoryService {
    var sessions: map<string, Session>
    const maxSessionAgeMs: int
    const maxMessagesPerSession: int

    /** Every session respects the cap (the store invariant). */
    ghost predicate Bounded()
      reads this
    {
      forall k :: k in sessions ==> |sessions[k].messages| <= maxMessagesPerSession
    }

    /** Reads the two settings, falling back to 30 minutes and 20 messages
        when they are 0; the 15-minute sweep timer is not modelled. */
    constructor (maxSessionAgeMinutes: int, maxMessages: int)
      ensures sessions == map[]
      ensures maxSessionAgeMs == (if maxSessionAgeMinutes == 0 then DefaultMaxSessionAgeMinutes
                                  else maxSessionAgeMinutes) * 60 * 1000
      ensures maxMessagesPerSession == if maxMessages == 0 then DefaultMaxMessagesPerSession else maxMessages
      ensures Bounded()
    {
      sessions := map[];
      maxSessionAgeMs := (if maxSessionAgeMinutes == 0 then DefaultMaxSessionAgeMinutes
                          else maxSessionAgeMinutes) * 60 * 1000;
      maxMessagesPerSession := if maxMessages == 0 then DefaultMaxMessagesPerSession else maxMessages;
    }

    /** Deletes, one by one, every session idle for longer than the maximum age. */
    method CleanupSessions(now: int)
      modifies this
      ensures sessions == Swept(old(sessions), now, maxSessionAgeMs)
      ensures old(Bounded()) ==> Bounded()
    {
      var pending := sessions.Keys;
      while pending != {}
        invariant pending <= old(sessions).Keys
        invariant forall k :: k in sessions <==>
          k in old(sessions) && (k in pending || !Expired(old(sessions)[k], now, maxSessionAgeMs))
        invariant forall k :: k in sessions ==> sessions[k] == old(sessions)[k]
        decreases pending
      {
        var id :| id in pending;
        var session := sessions[id];
        var sessionAge := now - session.lastUpdated;
        if sessionAge > maxSessionAgeMs {
          sessions := sessions - {id};
        }
        pending := pending - {id};
      }
      assert sessions.Keys == Swept(old(sessions), now, maxSessionAgeMs).Keys;
    }

    method GetSession(id: string, now: int) returns (session: Session)
      modifies this
      ensures sessions == WithSession(old(sessions), id, now)
      ensures session == sessions[id]
      ensures old(Bounded()) && maxMessagesPerSession >= 0 ==> Bounded()
    {
      if id !in sessions {
        sessions := sessions[id := Session([], now, now)];
      }
      session := sessions[id];
    }

    method AddMessage(id: string, message: Message, now: int)
      modifies this
      ensures sessions == AfterAdd(old(sessions), id, message, maxMessagesPerSession, now)
      ensures old(Bounded()) && maxMessagesPerSession >= 2 ==> Bounded()
    {
      var session := GetSession(id, now);
      var messages := session.messages + [message];
      if |messages| > maxMessagesPerSession {
        var systemMessage := messages[0];
        messages := [systemMessage] + SliceFrom(messages, -(maxMessagesPerSession - 1));
      }
      session := session.(messages := messages, lastUpdated := now);
      sessions := sessions[id := session];
      if old(Bounded()) && maxMessagesPerSession >= 2 {
        AppendBounded(WithSession(old(sessions), id, now)[id].messages, message, maxMessagesPerSession);
      }
    }

    method GetMessages(id: string, now: int) returns (messages: seq<Message>)
      modifies this
      ensures sessions == WithSession(old(sessions), id, now)
      ensures messages == sessions[id].messages
    {
      var session := GetSession(id, now);
      messages := session.messages;
    }

    method GetFormattedChatHistory(id: string, now: int) returns (history: seq<ChatTurn>)
      modifies this
      ensures sessions == WithSession(old(sessions), id, now)
      ensures history == Format(sessions[id].messages)
    {
      var messages := GetMessages(id, now);
      history := Format(messages);
    }
  }
}
