/** Runs of the chat store: every operation and socket event as one event
    type, and the properties that hold over any sequence of them — the history
    never holds two messages with the same id, and a sent message and its live
    echo end up as one copy whichever arrives first. */
module ChatEvents {
  import opened Wrappers
  import opened Io
  import opened ChatModel
  import opened ChatStore

  /** One thing that happens to the store, with its server outcome. */
  datatype ChatEvent =
    | SelectUser(user: Option<User>)
    | UsersFetched(roster: Response<seq<User>>, activities: Response<seq<Activity>>)
    | MessagesFetched(userId: string, history: Response<seq<Message>>)
    | SendCompleted(sent: Response<Option<Message>>)
    | DeleteCompleted(messageId: string, deleted: Response<()>)
    | NewMessageArrived(incoming: Message)
    | MessageSentEcho(echo: Message)
    | MessageDeletedPush(deletedId: string)

  /** The state after one event. */
  function Apply(s: ChatState, e: ChatEvent): ChatState {
    match e
    case SelectUser(u) => SetSelectedUser(s, u).state
    case UsersFetched(roster, acts) => GetUsers(s, roster, acts).state
    case MessagesFetched(id, history) => GetMessages(s, id, history).state
    case SendCompleted(res) => SendMessage(s, res).state
    case DeleteCompleted(id, res) => DeleteMessage(s, id, res).state
    case NewMessageArrived(m) => OnNewMessage(s, m).state
    case MessageSentEcho(m) => OnMessageSent(s, m)
    case MessageDeletedPush(id) => OnMessageDeleted(s, id)
  }

  /** The state after a sequence of events, applied in order. */
  function Run(s: ChatState, evs: seq<ChatEvent>): ChatState
    decreases |evs|
  {
    if |evs| == 0 then s else Run(Apply(s, evs[0]), evs[1..])
  }

  /** An event the server could send: a fetched history repeats no id. */
  predicate ServerConsistent(e: ChatEvent) {
    e.MessagesFetched? && e.history.Ok? ==> UniqueIds(e.history.data)
  }

  /** Events that can only add to the history: the live new-message and
      send-confirmation events. */
  predicate Arrival(e: ChatEvent) {
    e.NewMessageArrived? || e.MessageSentEcho?
  }

  /** Every event keeps the ids of the history unique, given that a fetched
      history has unique ids. */
  lemma ApplyKeepsIdsUnique(s: ChatState, e: ChatEvent)
    requires UniqueIds(s.messages)
    requires ServerConsistent(e)
    ensures UniqueIds(Apply(s, e).messages)
  {
    match e
    case DeleteCompleted(id, res) =>
      if res.Ok? {
        RemoveByIdUnique(s.messages, id);
      }
    case MessageDeletedPush(id) =>
      RemoveByIdUnique(s.messages, id);
    case _ =>
  }

  /** The history never holds two messages with the same id, over any run of
      server-consistent events from a history without duplicates. */
  lemma {:induction false} RunKeepsIdsUnique(s: ChatState, evs: seq<ChatEvent>)
    requires UniqueIds(s.messages)
    requires forall i :: 0 <= i < |evs| ==> ServerConsistent(evs[i])
    ensures UniqueIds(Run(s, evs).messages)
    decreases |evs|
  {
    if |evs| > 0 {
      ApplyKeepsIdsUnique(s, evs[0]);
      RunKeepsIdsUnique(Apply(s, evs[0]), evs[1..]);
    }
  }

  /** From the store's starting state, with its empty history, every run of
      server-consistent events keeps the ids of the history unique. */
  lemma {:induction false} RunFromStartKeepsIdsUnique(evs: seq<ChatEvent>)
    requires forall i :: 0 <= i < |evs| ==> ServerConsistent(evs[i])
    ensures UniqueIds(Run(ChatStore.Initial, evs).messages)
  {
    RunKeepsIdsUnique(ChatStore.Initial, evs);
  }

  /** An arrival never removes a message and never adds a second copy of an id. */
  lemma ArrivalCount(s: ChatState, e: ChatEvent, id: string)
    requires Arrival(e)
    ensures CountId(s.messages, id) <= CountId(Apply(s, e).messages, id)
    ensures CountId(s.messages, id) <= 1 ==> CountId(Apply(s, e).messages, id) <= 1
  {
  }

  /** Over any run of arrivals, an id present at most once stays present at
      most once, and an id present once stays present exactly once: however
      often the same message is pushed or echoed, one copy remains. */
  lemma {:induction false} ArrivalsKeepOneCopy(s: ChatState, evs: seq<ChatEvent>, id: string)
    requires forall i :: 0 <= i < |evs| ==> Arrival(evs[i])
    requires CountId(s.messages, id) <= 1
    ensures CountId(Run(s, evs).messages, id) <= 1
    ensures CountId(s.messages, id) == 1 ==> CountId(Run(s, evs).messages, id) == 1
    decreases |evs|
  {
    if |evs| > 0 {
      ArrivalCount(s, evs[0], id);
      ArrivalsKeepOneCopy(Apply(s, evs[0]), evs[1..], id);
    }
  }

  /** The send response and the live echo of the same message, in either
      order, leave the history with that message appended exactly once. */
  lemma SendAndEchoCommute(s: ChatState, m: Message)
    requires IsSelected(s, m.receiverId)
    requires m.id != ""
    requires !HasId(s.messages, m.id)
    ensures OnMessageSent(SendMessage(s, Ok(Some(m))).state, m).messages == s.messages + [m]
    ensures SendMessage(OnMessageSent(s, m), Ok(Some(m))).state.messages == s.messages + [m]
    ensures CountId(s.messages + [m], m.id) == 1
  {
    CountIdPositive(s.messages, m.id);
    assert HasId(s.messages + [m], m.id) by {
      assert (s.messages + [m])[|s.messages|].id == m.id;
    }
  }

  /** A message from a correspondent who is not selected and has no count yet
      flags them unread with count 1; selecting their (now flagged) roster
      entry clears both again. */
  lemma UnreadThenSelect(s: ChatState, m: Message, i: nat)
    requires i < |s.users| && s.users[i].id == m.senderId
    requires m.senderId != "" && !IsSelected(s, m.senderId)
    requires m.senderId !in s.unreadCounts
    ensures var t := OnNewMessage(s, m).state;
      && t.users[i].hasUnread
      && t.unreadCounts[m.senderId] == 1
      && var u := SetSelectedUser(t, Some(t.users[i])).state;
         && !u.users[i].hasUnread
         && u.unreadCounts[m.senderId] == 0
         && u.selectedUser == Some(t.users[i])
  {
  }
}
