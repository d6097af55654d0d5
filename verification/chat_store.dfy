/** The conversation state of the chat store and its transitions. Every
    awaited request becomes a parameter carrying its outcome, so each
    operation is one atomic step from a state to a state plus the side effects
    it asks for. */
module ChatStore {
  import opened Wrappers
  import opened Io
  import opened ChatModel

  /** The store's state: loaded history, roster, selection, loading flags and
      per-correspondent unread counts. */
  datatype ChatState = ChatState(
    messages: seq<Message>,
    users: seq<User>,
    selectedUser: Option<User>,
    isUsersLoading: bool,
    isMessagesLoading: bool,
    unreadCounts: map<string, nat>)

  /** The state the store starts in. */
  const Initial: ChatState := ChatState([], [], None, false, false, map[])

  /** The state after an operation and the effects it requested, in order. */
  datatype Step = Step(state: ChatState, effects: seq<Effect>)

  const UsersErrorFallback: string := "Error loading users"
  const MessagesErrorFallback: string := "Error loading messages"
  const SendErrorText: string := "Nie udało się wysłać wiadomości"
  const DeleteSuccessText: string := "Wiadomość została usunięta"
  const DeleteErrorFallback: string := "Błąd podczas usuwania wiadomości"
  const NoticePrefix: string := "Nowa wiadomość od "

  /** `unreadCounts[id] || 0`: a missing count reads as 0. */
  function UnreadCount(counts: map<string, nat>, id: string): nat {
    if id in counts then counts[id] else 0
  }

  /** The id of the selected correspondent equals `id`. */
  predicate IsSelected(s: ChatState, id: string) {
    s.selectedUser.Some? && s.selectedUser.value.id == id
  }

  /** `markUserWithUnreadMessage`: the correspondent's count goes up by one
      (from 0 when it had none), its roster entries get the unread flag, and
      nothing else changes. The count is kept even for ids absent from the
      roster. */
  function MarkUserWithUnreadMessage(s: ChatState, userId: string): (r: ChatState)
    ensures r.unreadCounts.Keys == s.unreadCounts.Keys + {userId}
    ensures r.unreadCounts[userId] == UnreadCount(s.unreadCounts, userId) + 1
    ensures forall k :: k in s.unreadCounts && k != userId ==> r.unreadCounts[k] == s.unreadCounts[k]
    ensures |r.users| == |s.users|
    ensures forall i :: 0 <= i < |s.users| ==>
      r.users[i].hasUnread == (s.users[i].hasUnread || s.users[i].id == userId)
    ensures forall i :: 0 <= i < |s.users| ==> r.users[i].(hasUnread := s.users[i].hasUnread) == s.users[i]
    ensures r.(users := s.users, unreadCounts := s.unreadCounts) == s
  {
    s.(unreadCounts := s.unreadCounts[userId := UnreadCount(s.unreadCounts, userId) + 1],
       users := SetUnread(s.users, userId, true))
  }

  /** The local half of marking a conversation read, shared by `getMessages`
      and `setSelectedUser`: the correspondent's roster entries lose the unread
      flag and its count becomes 0, whatever it was. */
  function ClearUnread(s: ChatState, userId: string): (r: ChatState)
    ensures r.unreadCounts.Keys == s.unreadCounts.Keys + {userId}
    ensures r.unreadCounts[userId] == 0
    ensures forall k :: k in s.unreadCounts && k != userId ==> r.unreadCounts[k] == s.unreadCounts[k]
    ensures |r.users| == |s.users|
    ensures forall i :: 0 <= i < |s.users| ==>
      r.users[i].hasUnread == (s.users[i].hasUnread && s.users[i].id != userId)
    ensures forall i :: 0 <= i < |s.users| ==> r.users[i].(hasUnread := s.users[i].hasUnread) == s.users[i]
    ensures r.(users := s.users, unreadCounts := s.unreadCounts) == s
  {
    s.(unreadCounts := s.unreadCounts[userId := 0],
       users := SetUnread(s.users, userId, false))
  }

  /** Reading a conversation undoes any number of unread markings of it:
      marking and then clearing is clearing alone. */
  lemma MarkThenClear(s: ChatState, userId: string)
    ensures ClearUnread(MarkUserWithUnreadMessage(s, userId), userId) == ClearUnread(s, userId)
  {
  }

  /** `setSelectedUser`: selecting nobody empties the history; selecting a
      correspondent flagged unread clears its flag and count and asks the
      server to mark the conversation read; otherwise only the selection
      changes. */
  function SetSelectedUser(s: ChatState, user: Option<User>): (r: Step)
    ensures r.state.selectedUser == user
    ensures user.None? ==> r.state.messages == [] && r.state == s.(selectedUser := None, messages := [])
    ensures user.None? ==> r.effects == []
    ensures user.Some? && user.value.hasUnread ==>
      && r.state == ClearUnread(s, user.value.id).(selectedUser := user)
      && r.state.unreadCounts[user.value.id] == 0
      && (forall i :: 0 <= i < |s.users| && s.users[i].id == user.value.id ==> !r.state.users[i].hasUnread)
      && r.effects == [MarkReadRequest(user.value.id)]
    ensures user.Some? && !user.value.hasUnread ==> r == Step(s.(selectedUser := user), [])
  {
    match user
    case None => Step(s.(selectedUser := None, messages := []), [])
    case Some(u) =>
      if u.hasUnread then
        Step(ClearUnread(s, u.id).(selectedUser := user), [MarkReadRequest(u.id)])
      else
        Step(s.(selectedUser := user), [])
  }

  /** Selecting the same correspondent again leaves the state as the first
      selection left it. */
  lemma SelectTwice(s: ChatState, user: Option<User>)
    ensures SetSelectedUser(SetSelectedUser(s, user).state, user).state == SetSelectedUser(s, user).state
  {
  }

  /** `updateLastActivityTimestamps`: merges the fetched activities into the
      roster; a failed fetch is only logged and changes nothing. */
  function UpdateLastActivityTimestamps(s: ChatState, activities: Response<seq<Activity>>): (r: ChatState)
    ensures Ids(r.users) == Ids(s.users)
    ensures activities.Failed? ==> r == s
    ensures activities.Ok? ==> r.users == MergeActivities(s.users, activities.data)
    ensures r.(users := s.users) == s
  {
    match activities
    case Ok(acts) => s.(users := MergeActivities(s.users, acts))
    case Failed(_) => s
  }

  /** `getUsers`: on success the roster becomes the fetched one merged with
      the local metadata, and then the activity timestamps are merged in; on
      failure the roster stays and an error toast is shown (the activities are
      then never requested). The loading flag ends false either way. */
  function GetUsers(s: ChatState, roster: Response<seq<User>>, activities: Response<seq<Activity>>): (r: Step)
    ensures !r.state.isUsersLoading
    ensures r.state == s.(users := r.state.users, isUsersLoading := false)
    ensures roster.Failed? ==> r.state.users == s.users
    ensures roster.Failed? ==> r.effects == [ErrorToast(ErrorText(roster.error, UsersErrorFallback))]
    ensures roster.Ok? ==> Ids(r.state.users) == Ids(roster.data) && r.effects == []
    ensures roster.Ok? && activities.Failed? ==> r.state.users == MergeRoster(s.users, roster.data)
    ensures roster.Ok? && activities.Ok? ==>
      r.state.users == MergeActivities(MergeRoster(s.users, roster.data), activities.data)
  {
    match roster
    case Failed(e) =>
      Step(s.(isUsersLoading := false), [ErrorToast(ErrorText(e, UsersErrorFallback))])
    case Ok(fetched) =>
      var merged := s.(users := MergeRoster(s.users, fetched));
      Step(UpdateLastActivityTimestamps(merged, activities).(isUsersLoading := false), [])
  }

  /** `getMessages`: on success the history becomes the fetched list, and only
      when the fetched conversation is the selected one is it also marked read
      (flag cleared, count 0, read request sent); on failure the history stays
      and an error toast is shown. The loading flag ends false either way. */
  function GetMessages(s: ChatState, userId: string, res: Response<seq<Message>>): (r: Step)
    ensures !r.state.isMessagesLoading
    ensures r.state.selectedUser == s.selectedUser
    ensures res.Failed? ==> r.state == s.(isMessagesLoading := false)
    ensures res.Failed? ==> r.effects == [ErrorToast(ErrorText(res.error, MessagesErrorFallback))]
    ensures res.Ok? ==> r.state.messages == res.data
    ensures res.Ok? && IsSelected(s, userId) ==>
      && r.state == ClearUnread(s, userId).(messages := res.data, isMessagesLoading := false)
      && r.state.unreadCounts[userId] == 0
      && r.effects == [MarkReadRequest(userId)]
    ensures res.Ok? && !IsSelected(s, userId) ==>
      r == Step(s.(messages := res.data, isMessagesLoading := false), [])
  {
    match res
    case Failed(e) =>
      Step(s.(isMessagesLoading := false), [ErrorToast(ErrorText(e, MessagesErrorFallback))])
    case Ok(fetched) =>
      var loaded := s.(messages := fetched);
      if IsSelected(s, userId) then
        Step(ClearUnread(loaded, userId).(isMessagesLoading := false), [MarkReadRequest(userId)])
      else
        Step(loaded.(isMessagesLoading := false), [])
  }

  /** The server's answer to a send carries a message worth adding:
      `res.data && res.data._id`. */
  predicate Accepted(data: Option<Message>) {
    data.Some? && data.value.id != ""
  }

  /** `sendMessage`: without a selection nothing happens; otherwise the
      message the server returns is appended unless its id is already present
      (the live echo may have come first); a failed send shows a fixed error
      toast. Only the history can change. */
  function SendMessage(s: ChatState, res: Response<Option<Message>>): (r: Step)
    ensures s.selectedUser.None? ==> r == Step(s, [])
    ensures r.state == s.(messages := r.state.messages)
    ensures |s.messages| <= |r.state.messages| <= |s.messages| + 1
    ensures r.state.messages[..|s.messages|] == s.messages
    ensures s.selectedUser.Some? && res.Ok? && Accepted(res.data) ==>
      r.state.messages == AppendUnique(s.messages, res.data.value) && r.effects == []
    ensures !(s.selectedUser.Some? && res.Ok? && Accepted(res.data)) ==> r.state == s
    ensures s.selectedUser.Some? && res.Ok? && !Accepted(res.data) ==> r == Step(s, [])
    ensures s.selectedUser.Some? && res.Failed? ==> r.effects == [ErrorToast(SendErrorText)]
  {
    if s.selectedUser.None? then Step(s, [])
    else match res
      case Failed(_) => Step(s, [ErrorToast(SendErrorText)])
      case Ok(data) =>
        if Accepted(data) then Step(s.(messages := AppendUnique(s.messages, data.value)), [])
        else Step(s, [])
  }

  /** `deleteMessage`: after the server confirms, every message with the id is
      removed and a success toast shown; on failure nothing is removed and an
      error toast is shown. Only the history can change. */
  function DeleteMessage(s: ChatState, id: string, res: Response<()>): (r: Step)
    ensures r.state == s.(messages := r.state.messages)
    ensures res.Ok? ==> !HasId(r.state.messages, id)
    ensures res.Ok? ==> r.state.messages == RemoveById(s.messages, id)
    ensures res.Ok? ==> r.effects == [SuccessToast(DeleteSuccessText)]
    ensures res.Failed? ==> r == Step(s, [ErrorToast(ErrorText(res.error, DeleteErrorFallback))])
  {
    match res
    case Ok(_) => Step(s.(messages := RemoveById(s.messages, id)), [SuccessToast(DeleteSuccessText)])
    case Failed(e) => Step(s, [ErrorToast(ErrorText(e, DeleteErrorFallback))])
  }

  /** The `newMessage` handler. A message from the selected correspondent is
      appended unless its id is present, with a read request when it is new;
      counts and flags stay. A message from anyone else with a non-empty
      sender marks that sender unread, with a notice naming the sender when
      the roster knows them. */
  function OnNewMessage(s: ChatState, m: Message): (r: Step)
    ensures IsSelected(s, m.senderId) ==>
      && r.state == s.(messages := AppendUnique(s.messages, m))
      && r.effects == (if HasId(s.messages, m.id) then [] else [MarkReadRequest(m.senderId)])
    ensures !IsSelected(s, m.senderId) && m.senderId != "" ==>
      && r.state == MarkUserWithUnreadMessage(s, m.senderId)
      && r.state.unreadCounts[m.senderId] == UnreadCount(s.unreadCounts, m.senderId) + 1
      && r.state.messages == s.messages
      && (FindUser(s.users, m.senderId).None? ==> r.effects == [])
      && (FindUser(s.users, m.senderId).Some? ==>
            var u := FindUser(s.users, m.senderId).value;
            r.effects == [NoticeToast(NoticePrefix + u.name + " " + u.lastName)])
    ensures !IsSelected(s, m.senderId) && m.senderId == "" ==> r == Step(s, [])
  {
    if IsSelected(s, m.senderId) then
      if HasId(s.messages, m.id) then Step(s, [])
      else Step(s.(messages := s.messages + [m]), [MarkReadRequest(m.senderId)])
    else if m.senderId != "" then
      var marked := MarkUserWithUnreadMessage(s, m.senderId);
      match FindUser(marked.users, m.senderId)
      case Some(sender) => Step(marked, [NoticeToast(NoticePrefix + sender.name + " " + sender.lastName)])
      case None => Step(marked, [])
    else Step(s, [])
  }

  /** The `messageSent` handler: the sender's own echo is appended, unless its
      id is present, only when it is addressed to the selected correspondent. */
  function OnMessageSent(s: ChatState, m: Message): (r: ChatState)
    ensures IsSelected(s, m.receiverId) ==> r == s.(messages := AppendUnique(s.messages, m))
    ensures IsSelected(s, m.receiverId) ==> HasId(r.messages, m.id)
    ensures !IsSelected(s, m.receiverId) ==> r == s
  {
    if IsSelected(s, m.receiverId) then s.(messages := AppendUnique(s.messages, m)) else s
  }

  /** The `messageDeleted` handler: removes the id unconditionally. */
  function OnMessageDeleted(s: ChatState, id: string): (r: ChatState)
    ensures r == s.(messages := RemoveById(s.messages, id))
    ensures !HasId(r.messages, id)
  {
    s.(messages := RemoveById(s.messages, id))
  }
}
