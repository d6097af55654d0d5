# TripChat client stores, modelled in Dafny

This project models the client-side state logic of the TripChat browser chat
client:

- **the conversation reconciler** of the chat store (`src/stores/chatStore.ts`).
  It keeps the loaded message history, the roster of correspondents, per-user
  unread counts and the selected correspondent. REST results and live socket
  events are merged into it: deduplicated appends, deletes by id, unread
  marking and clearing, roster refresh, activity merge and the roster ordering;
- **the session store** (`src/stores/authStore.ts`). It holds the signed-in
  user, the in-flight flags of check, sign-up, log-in and profile update, and
  the real-time channel with its connect and disconnect guards. It also builds
  the profile update request and `fullName`;
- **the navigation guard** (`src/router/index.ts`). This is the four-route
  table and the `beforeEach` decision.

Every awaited request is a parameter carrying its outcome,
`Io.Response<T> = Ok(data) | Failed(error)`. A failed request either got a
server error (with an optional message) or no response at all. Each operation
is therefore one deterministic step on immutable data. Chat operations return
`ChatStore.Step(state, effects)` and session operations return
`AuthStore.AuthStep(session, effects)`. Effects are the toasts and the
fire-and-forget "mark read" request that the source triggers. Time strings
(`lastActivity`, `createdAt`) are epoch values, `Option<int>`. The optional
`hasUnread` is a `bool`, and `undefined` reads as `false`, as it does in the
source's truthiness tests.

Modules, one per file:

| file | module | models |
|---|---|---|
| wrappers.dfy | `Wrappers` | `Option`, and `Array.prototype.find` as `FindFirst`/`Find` |
| io.dfy | `Io` | request outcomes, effects, the error-toast text rule |
| chat_model.dfy | `ChatModel` | `User`, `Message`, `Activity`; dedup append, delete, roster updates and merges |
| roster_order.dfy | `RosterOrder` | the `sortedUsers` comparator and a stable insertion sort |
| chat_store.dfy | `ChatStore` | the chat store state and every operation and socket handler |
| chat_events.dfy | `ChatEvents` | runs of events: unique ids, one copy per message, scenarios |
| auth_store.dfy | `AuthStore` | the session store |
| router.dfy | `Router` | the route table and the navigation guard |

## Model

| member | source | states |
|---|---|---|
| ChatModel.AppendUnique | src/stores/chatStore.ts:136-141 | afterwards the id is present; the earlier messages are an unchanged prefix; the list grows exactly when the id was absent, and then by the message itself; other ids' counts are unchanged; that id occurs once if it was absent, and as often as before otherwise; unique ids stay unique |
| ChatModel.RemoveById | src/stores/chatStore.ts:158 | no message with the id remains; a message is kept iff it was there and carries another id; the length drops by the number of messages with that id; every other id keeps its count |
| ChatModel.RemoveByIdConcat | src/stores/chatStore.ts:158 | deleting distributes over concatenation, so the kept messages keep their relative order |
| ChatModel.RemoveByIdAbsent | src/stores/chatStore.ts:158 | deleting an id no message carries leaves the list as it is |
| ChatModel.RemoveByIdUnique | src/stores/chatStore.ts:158 | deleting keeps unique ids unique |
| ChatModel.RemoveAfterAppend | src/stores/chatStore.ts:226-229 | deleting a message's id after the deduplicating append gives the same list as deleting it before |
| ChatModel.UniqueIdsCount | src/stores/chatStore.ts:138 | pairwise-distinct ids is the same as every id occurring at most once |
| ChatModel.FindUser | src/stores/chatStore.ts:54 | the result is none iff no entry has the id; otherwise it is the first entry with the id |
| ChatModel.MergeRoster | src/stores/chatStore.ts:53-62 | the refreshed roster has exactly the fetched ids in fetched order, and the fetched records' other fields; `hasUnread` is the first existing entry's flag, else false; `lastActivity` is the existing one, else the fetched one, else none |
| ChatModel.MergeRosterIdempotent | src/stores/chatStore.ts:53-62 | refreshing twice with the same fetched roster (no repeated ids) equals refreshing once |
| ChatModel.MergeRosterKeepsLocalMetadata | src/stores/chatStore.ts:57-58 | a refresh never drops a known unread flag or activity of a correspondent the server still lists |
| ChatModel.ActivityTimestamp | src/stores/chatStore.ts:81-84 | the result is the timestamp (possibly none) of the first activity entry for the user id, and none when no entry has that id |
| ChatModel.MergeActivities | src/stores/chatStore.ts:80-86 | roster length, ids and order are preserved and only `lastActivity` can change; it takes the fetched timestamp where the first matching entry has one, and the entry is unchanged otherwise |
| ChatModel.MergeActivitiesIdempotent | src/stores/chatStore.ts:80-86 | merging the same activities twice equals merging them once |
| ChatModel.UpdateUserActivity | src/stores/chatStore.ts:233-243 | ids and order are preserved; only the matching entries' `lastActivity` changes, to the timestamp |
| ChatModel.UpdateUserActivityIsMerge | src/stores/chatStore.ts:233-243 | `updateUserActivity` equals the activity merge of one timestamped entry |
| ChatModel.SetUnread | src/stores/chatStore.ts:103-108 | only `hasUnread` changes, and only on entries with the id |
| RosterOrder.InOrderMeaning | src/stores/chatStore.ts:36-43 | an entry may precede another iff it is unread and the other is not, or both have the same unread status and it has the later (or equal) activity, with no activity counting as 0 |
| RosterOrder.CompareConsistent | src/stores/chatStore.ts:35-44 | the comparator is consistent: swapping arguments flips the sign, and "may precede" is reflexive, total and transitive |
| RosterOrder.Insert | src/stores/chatStore.ts:35 | inserting into a sorted roster gives a sorted roster with one more occurrence of the entry |
| RosterOrder.SortRoster | src/stores/chatStore.ts:35 | the result is sorted and a permutation of the input |
| RosterOrder.SortedUsers | src/stores/chatStore.ts:34-45 | the result is a permutation of `users`; no unread entry follows a read one; entries of equal unread status are in non-increasing activity order, with no activity counting as 0 |
| ChatStore.MarkUserWithUnreadMessage | src/stores/chatStore.ts:246-257 | the count for the id becomes the old count + 1 (a missing count counts as 0); `hasUnread` becomes true exactly on the entries with that id; other counts, other entries and the rest of the state are unchanged |
| ChatStore.ClearUnread | src/stores/chatStore.ts:281-288 | the count for the id becomes 0 whatever it was; the entries with the id lose the flag; nothing else changes |
| ChatStore.MarkThenClear | src/stores/chatStore.ts:246-257 | marking a correspondent unread and then clearing it gives the same state as clearing alone |
| ChatStore.SetSelectedUser | src/stores/chatStore.ts:270-291 | the selection becomes the argument; `null` empties the messages; an unread user ends with flag false on its entries, count 0 and a read request; a user without the flag changes only the selection |
| ChatStore.SelectTwice | src/stores/chatStore.ts:270-291 | selecting the same correspondent (or nobody) twice leaves the state the first selection left |
| ChatStore.UpdateLastActivityTimestamps | src/stores/chatStore.ts:74-90 | on success the activities are merged into the roster; a failed fetch changes nothing; ids are preserved |
| ChatStore.GetUsers | src/stores/chatStore.ts:47-71 | on success the roster has exactly the fetched ids, merged and then activity-merged; on failure the roster stays and an error toast is shown; the loading flag ends false; nothing else changes |
| ChatStore.GetMessages | src/stores/chatStore.ts:92-117 | on success the messages become the fetched list; only when the id is the selected user's is its flag cleared, its count zeroed and a read request sent; on failure the messages stay and an error toast is shown; the loading flag ends false |
| ChatStore.SendMessage | src/stores/chatStore.ts:128-146 | with no selection nothing happens; a returned message with a non-empty id is appended unless present; a successful answer without a message id changes nothing and shows nothing; otherwise the state is unchanged; only the messages can change, and the old messages stay an unchanged prefix; a failure shows the fixed error toast |
| ChatStore.DeleteMessage | src/stores/chatStore.ts:153-165 | only on server success is every message with the id removed (with a success toast); on failure the state is unchanged and an error toast is shown |
| ChatStore.OnNewMessage | src/stores/chatStore.ts:185-210 | from the selected user: a deduplicated append plus a read request if the message is new, with counts and flags untouched; from anyone else with a non-empty sender: the unread marking, plus a notice naming the sender when the roster knows them; an empty sender changes nothing |
| ChatStore.OnMessageSent | src/stores/chatStore.ts:213-223 | a deduplicated append only when the receiver is the selected user; otherwise nothing changes |
| ChatStore.OnMessageDeleted | src/stores/chatStore.ts:226-229 | every message with the id is removed, whatever the selection |
| ChatEvents.ApplyKeepsIdsUnique | src/stores/chatStore.ts:92-229 | every operation and event keeps the message ids unique, given that a fetched history has unique ids |
| ChatEvents.RunKeepsIdsUnique | src/stores/chatStore.ts:92-229 | over any sequence of such events the history never holds two messages with one id |
| ChatEvents.RunFromStartKeepsIdsUnique | src/stores/chatStore.ts:26-31 | from the store's starting state, with its empty history, any run of such events keeps the history free of repeated ids |
| ChatEvents.ArrivalsKeepOneCopy | src/stores/chatStore.ts:185-223 | over any sequence of new-message and send-confirmation events, an id present at most once stays at most once, and an id present once stays exactly once |
| ChatEvents.SendAndEchoCommute | src/stores/chatStore.ts:213-222 | the send response and the echo of the same message, in either order, append it exactly once |
| ChatEvents.UnreadThenSelect | src/stores/chatStore.ts:246-291 | a message from an unselected correspondent with no count sets the flag and count 1; selecting that entry clears both |
| Io.ErrorText | src/stores/chatStore.ts:113 | the error toast shows the server's message when it is non-empty, the fallback otherwise, and so is never empty |
| Io.UnguardedErrorText | src/stores/authStore.ts:52 | without optional chaining the handler throws exactly when the error has no response, and otherwise gives the guarded text |
| Io.UnguardedHandlerLosesNetworkFailures | src/stores/authStore.ts:52 | on a failure with no response the unguarded handler shows no toast where the guarded one shows the fallback |
| AuthStore.ConnectSocket | src/stores/authStore.ts:161-187 | with no user, or with an open channel, nothing changes; otherwise a pending channel for the user's id replaces the old one; only the channel changes |
| AuthStore.ChannelOpened | src/stores/authStore.ts:174-176 | only a pending channel opens, for the same user id; a closed channel, an open one or no channel stays as it is |
| AuthStore.DisconnectSocket | src/stores/authStore.ts:189-191 | afterwards no channel is open; an open channel becomes closed; a pending or closed channel, or none, is left as it is; only the channel changes |
| AuthStore.DisconnectedChannelStaysClosed | src/stores/authStore.ts:189-191 | a channel closed by a disconnect is not reopened by a late handshake report |
| AuthStore.DisconnectIdempotent | src/stores/authStore.ts:189-191 | disconnecting twice equals disconnecting once |
| AuthStore.ConnectIdempotentOnceOpen | src/stores/authStore.ts:162 | once the handshake has completed, connecting again is a no-op |
| AuthStore.CheckAuth | src/stores/authStore.ts:30-42 | the check flag ends false; on success the user is the response and a channel exists; on failure the user is null and nothing else changes |
| AuthStore.SignIn | src/stores/authStore.ts:44-70 | on success the user is the response, a channel exists and a success toast is shown; on failure the session is unchanged and an error toast is shown |
| AuthStore.Signup | src/stores/authStore.ts:44-56 | the sign-up flag ends false; on success the session is the old one with the user set to the response, the channel connected for that user as `connectSocket` does, and the sign-up flag false, and a success toast is shown; on failure only the flag changes and the one toast is the error toast carrying the server's message or `Error signing up` |
| AuthStore.Login | src/stores/authStore.ts:58-70 | the log-in flag ends false; on success the session is the old one with the user set to the response, the channel connected for that user as `connectSocket` does, and the log-in flag false, and a success toast is shown; on failure only the flag changes and the one toast is the error toast carrying the server's message or `Error logging in` |
| AuthStore.Logout | src/stores/authStore.ts:72-81 | only on server success is the user null and an open channel closed (a pending one is left alone); on failure the session is unchanged and an error toast is shown |
| AuthStore.LoginThenLogout | src/stores/authStore.ts:58-81 | a login then a logout, both successful, leave no user and the log-in flag false; a channel open before the login ends closed, otherwise the login's channel is left pending for the user |
| AuthStore.PendingChannelSurvivesLogout | src/stores/authStore.ts:72-81 | a channel still pending at logout is kept, and when its handshake completes it is open for the departed user while nobody is signed in |
| AuthStore.ProfileRequest | src/stores/authStore.ts:88-105 | the request body carries exactly the name, last name, username, birth date, a bio that defaults to `''`, and the picture; the picture is replaced by its compressed form exactly when it is longer than 500000 characters |
| AuthStore.UpdateProfile | src/stores/authStore.ts:83-127 | the update flag stays true exactly when a picture over the threshold never finishes compressing, and then nothing is sent and no final toast is shown; otherwise the request is built from the form, success replaces the user, failure keeps it with an error toast, and the flag ends false |
| AuthStore.UpdateProfileSettled | src/stores/authStore.ts:118-126 | with a compression that rejects on an undecodable picture, every update ends with the flag false and exactly one non-empty final toast; a failed compression sends nothing and shows the fallback error |
| AuthStore.UndecodablePictureStallsUpdate | src/stores/authStore.ts:130-158 | for a picture over the threshold that never finishes compressing, the update keeps the flag true with no toast, while the rejecting version ends it with the fallback error toast |
| AuthStore.FullName | src/stores/authStore.ts:194-197 | empty with no user; otherwise the name, one space, then the last name |
| Router.RouteTable | src/router/index.ts:8-35 | matching ignores ASCII letter case and one trailing slash: `/` (or empty) and `/profile` require auth, `/login` and `/register` are guest-only, any other path has no flags |
| Router.Decide | src/router/index.ts:57-69 | redirect to `/` iff guest-only and signed in (which takes precedence); redirect to `/login` iff auth is required and the user is not signed in; proceed otherwise |
| Router.BeforeEach | src/router/index.ts:42-69 | a decision is made iff the session check is not pending, and it is the decision for the target's meta and whether a user is signed in |
| Router.NoRedirectLoop | src/router/index.ts:57-66 | with the route table, a redirect target proceeds for the same session, so the guard never redirects twice in a row |
| Router.InitialNavigationWaits | src/router/index.ts:42-52 | before the first session check completes, every navigation waits |
| Router.GuardDecidesAfterCheck | src/router/index.ts:42-66 | after a session check of either outcome the guard decides; after a failed check, a protected page redirects to `/login` |
| Router.GuestSentToLoginFromAnySpelling | src/router/index.ts:8-36 | a guest navigating to `/Profile/` is redirected to `/login` like one navigating to `/profile` |

## Left out

- HTTP transport (axios instance, base URLs, the 60-second upload timeout), socket.io connection options, toast library mechanics and console logging are not modelled. Requests are outcome parameters, and toasts and the read request are recorded effects.
- The loading toast of `updateProfile` (shown, updated to a compression message, dismissed) is not modelled; only the final success or error toast is recorded.
- The `markMessagesAsRead` request is recorded as a `MarkReadRequest` effect. Its own failure is only logged by the source, so it has no state effect.
- `compressImage` (the canvas resize, which shrinks the longer side to 800 px only when it is strictly longer than the other side and over 800 px, so a large square picture keeps its size, and the JPEG re-encoding) is browser canvas and floating-point work. How it ends is the `compressed` parameter of `UpdateProfile`: its result, or none when the picture cannot be decoded and the promise never settles. Only the threshold test is modelled.
- Date parsing is not modelled: `lastActivity` and `createdAt` are epoch values. An empty or unparseable date string is not modelled, nor is the NaN such a string would give the comparator.
- `subscribeToMessages`/`unsubscribeFromMessages` handler registration is not modelled: the selection and socket guards, and `socket.on`/`off`. The three handlers are modelled as transitions that read the selection when the event arrives.
- The `getOnlineUsers` presence event, the `onlineUsers` list it fills and the `connect`/`connect_error` logging are not modelled. The handshake is modelled only as `ChannelOpened`. A channel that drops and is retried by the library is not modelled.
- A channel replaced while its handshake is still pending is neither disconnected nor tracked: `connectSocket` overwrites the `socket` ref with a new channel without disconnecting the old one, which goes on connecting for the old user id outside the store's state. The model keeps only the current channel, so the replaced one disappears from it (for example the channel `AuthStore.PendingChannelSurvivesLogout` keeps, once the next user logs in).
- Percent-encoded spellings of the route paths are not modelled: a path is compared as given, after lower-casing its ASCII letters.
- The intermediate `true` values of the loading and in-flight flags while a request is pending are not modelled. Each operation is atomic, so only the final flag values are stated.
- Async interleaving is not modelled. This includes the stale `getMessages` response that can overwrite a newer selection's history.
- The unused `lastSentMessageIds` and `processedMessageIds` sets are not modelled.
- `themeStore.ts`, `main.ts`, `lib/axios.ts`, `lib/utils.ts` and the stub `store/useAuthStore.js` are not part of this model.
- Picture values of a non-string type are not modelled; `profilePicture` is an optional string. String length counts characters, while JavaScript counts UTF-16 code units. The two agree for the ASCII data URIs the threshold is meant for.
- A sign-up or log-in success body without a `user` field is not modelled: the response is a user.
- RosterOrder.SortedUsers: states permutation and order but not stability. Under stability, entries that compare equal keep their roster order, as the engine's stable sort does. The insertion sort used is stable, but this is not proved.
- `unreadCounts` is modelled as a map from ids to counts, not as a plain JavaScript object with a prototype. Ids that name `Object.prototype` members (`constructor`, `toString`, `valueOf`, `__proto__`) are not modelled: in the source their count would start from the inherited member, and writes to `__proto__` are dropped. Server ids are hexadecimal object ids, which never collide with those names.
- No invariant ties `hasUnread` to `unreadCounts`, because the source does not maintain one. For example, the count grows for senders absent from the roster.
- The roster is sorted only in the derived `sortedUsers` view, not in `users`. A refresh prefers the locally known activity even over a non-empty fetched one (`src/stores/chatStore.ts:58`).

## Findings

| source | as written | input that shows it | evidently intended | confidence | as-written member | corrected member |
|---|---|---|---|---|---|---|
| src/stores/authStore.ts:52 | the sign-up error handler reads `error.response.data.message` without optional chaining | a failure with no response, e.g. a network error (`Io.UnguardedHandlerLosesNetworkFailures`): the handler throws a TypeError, no toast is shown and the call rejects | `error.response?.data?.message \|\| 'Error signing up'`, as the other stores do | not executed; high | Io.UnguardedErrorText | AuthStore.Signup |
| src/stores/authStore.ts:66 | the log-in error handler reads `error.response.data.message` without optional chaining | a failure with no response, as above | `error.response?.data?.message \|\| 'Error logging in'` | not executed; high | Io.UnguardedErrorText | AuthStore.Login |
| src/stores/authStore.ts:79 | the log-out error handler reads `error.response.data.message` without optional chaining | a failure with no response, as above | `error.response?.data?.message \|\| 'Error logging out'` | not executed; high | Io.UnguardedErrorText | AuthStore.Logout |
| src/stores/authStore.ts:130-158 | `compressImage` resolves only in the image's `onload` handler and has no `onerror`, so it never rejects | a profile picture over 500000 characters that is not a decodable image, e.g. the data URI of a PDF (`AuthStore.UndecodablePictureStallsUpdate`): the await never returns, the update flag stays true, nothing is sent and the loading toast never goes away | an `onerror` handler that rejects, so the `catch` shows the error toast and the `finally` resets the flag | not executed; medium | AuthStore.UpdateProfile | AuthStore.UpdateProfileSettled |

The sign-up, log-in and log-out transitions use the guarded text `Io.ErrorText`,
so a failure always surfaces a non-empty error toast. The state changes are
the same either way: the `finally` blocks still reset the in-flight flags.

The profile update is different: `AuthStore.UpdateProfile` keeps the stall
as written, since the flag and the request it leaves are the store's
observable state, and `AuthStore.UpdateProfileSettled` is the intended form.

Not a finding but worth knowing: `disconnectSocket` closes only an open
channel, so a channel whose handshake is still pending at logout survives it
and later opens for the user who left (`AuthStore.PendingChannelSurvivesLogout`).
