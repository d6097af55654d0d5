/** The records of the chat store and the pure list updates its operations are
    built from: the deduplicating append and the filter-delete on the message
    list, and the flag, activity and refresh updates on the roster. */
module ChatModel {
  import opened Wrappers

  /** A roster entry: a correspondent plus the locally tracked metadata.
      `lastActivity` is an epoch time (the source keeps a date string);
      `hasUnread` is false where the source leaves it undefined. */
  datatype User = User(
    id: string,
    name: string,
    lastName: string,
    profilePicture: Option<string>,
    lastActivity: Option<int>,
    hasUnread: bool)

  /** A chat message; `createdAt` is an epoch time. */
  datatype Message = Message(
    id: string,
    senderId: string,
    receiverId: string,
    text: Option<string>,
    image: Option<string>,
    createdAt: int)

  /** One element of the last-activities response. */
  datatype Activity = Activity(userId: string, timestamp: Option<int>)

  // ---------------------------------------------------------------------------
  // The message list
  // ---------------------------------------------------------------------------

  /** `ms.some(m => m._id === id)` */
  predicate HasId(ms: seq<Message>, id: string) {
    exists i :: 0 <= i < |ms| && ms[i].id == id
  }

  /** No two messages of the list share an id. */
  predicate UniqueIds(ms: seq<Message>) {
    forall i, j :: 0 <= i < j < |ms| ==> ms[i].id != ms[j].id
  }

  /** How many messages of the list carry the id. */
  function CountId(ms: seq<Message>, id: string): nat {
    if |ms| == 0 then 0
    else CountId(ms[..|ms| - 1], id) + (if ms[|ms| - 1].id == id then 1 else 0)
  }

  lemma {:induction false} CountIdPositive(ms: seq<Message>, id: string)
    ensures HasId(ms, id) <==> CountId(ms, id) > 0
    decreases |ms|
  {
    if |ms| > 0 {
      var init := ms[..|ms| - 1];
      CountIdPositive(init, id);
      if HasId(ms, id) && ms[|ms| - 1].id != id {
        var i :| 0 <= i < |ms| && ms[i].id == id;
        assert init[i].id == id;
      }
      if HasId(init, id) {
        var i :| 0 <= i < |init| && init[i].id == id;
        assert ms[i].id == id;
      }
    }
  }

  /** Every id occurs at most once in the list. */
  ghost predicate AtMostOnce(ms: seq<Message>) {
    forall id :: CountId(ms, id) <= 1
  }

  /** A list has unique ids exactly when every id occurs at most once. */
  lemma {:induction false} UniqueIdsCount(ms: seq<Message>)
    ensures UniqueIds(ms) <==> AtMostOnce(ms)
    decreases |ms|
  {
    if |ms| > 0 {
      var init, last := ms[..|ms| - 1], ms[|ms| - 1];
      UniqueIdsCount(init);
      CountIdPositive(init, last.id);
      if UniqueIds(ms) {
        UniqueImpliesCountAtMostOne(ms);
      } else if AtMostOnce(ms) {
        assert CountId(init, last.id) == 0 by {
          assert CountId(ms, last.id) == CountId(init, last.id) + 1;
        }
        forall id ensures CountId(init, id) <= 1 {
          assert CountId(ms, id) >= CountId(init, id);
        }
        assert UniqueIds(init);
        assert !HasId(init, last.id);
        forall i, j | 0 <= i < j < |ms| ensures ms[i].id != ms[j].id {
          if j < |ms| - 1 {
            assert ms[i] == init[i] && ms[j] == init[j];
          } else {
            assert ms[i] == init[i];
          }
        }
        assert false;
      }
    }
  }

  lemma {:induction false} UniqueImpliesCountAtMostOne(ms: seq<Message>)
    requires UniqueIds(ms)
    ensures forall id :: CountId(ms, id) <= 1
    decreases |ms|
  {
    if |ms| > 0 {
      var init, last := ms[..|ms| - 1], ms[|ms| - 1];
      assert UniqueIds(init) by {
        forall i, j | 0 <= i < j < |init| ensures init[i].id != init[j].id {
          assert init[i] == ms[i] && init[j] == ms[j];
        }
      }
      UniqueImpliesCountAtMostOne(init);
      assert !HasId(init, last.id) by {
        forall i | 0 <= i < |init| ensures init[i].id != last.id {
          assert init[i] == ms[i];
        }
      }
      CountIdPositive(init, last.id);
      forall id ensures CountId(ms, id) <= 1 {
        assert CountId(ms, id) == CountId(init, id) + (if last.id == id then 1 else 0);
      }
    }
  }

  /** Appending `m` unless a message with its id is already present, as
      `sendMessage` and the `newMessage` and `messageSent` handlers do. */
  function AppendUnique(ms: seq<Message>, m: Message): (r: seq<Message>)
    ensures HasId(r, m.id)
    ensures |ms| <= |r| <= |ms| + 1 && r[..|ms|] == ms
    ensures |r| == |ms| + 1 <==> !HasId(ms, m.id)
    ensures |r| == |ms| + 1 ==> r[|ms|] == m
    ensures CountId(r, m.id) == if HasId(ms, m.id) then CountId(ms, m.id) else 1
    ensures forall id :: id != m.id ==> CountId(r, id) == CountId(ms, id)
    ensures UniqueIds(ms) ==> UniqueIds(r)
  {
    CountIdPositive(ms, m.id);
    assert HasId(ms + [m], m.id) by { assert (ms + [m])[|ms|].id == m.id; }
    assert (ms + [m])[..|ms|] == ms;
    if HasId(ms, m.id) then ms else ms + [m]
  }

  /** `ms.filter(msg => msg._id !== id)`, as `deleteMessage` and the
      `messageDeleted` handler do. */
  function RemoveById(ms: seq<Message>, id: string): (r: seq<Message>)
    ensures !HasId(r, id)
    ensures forall m :: m in r <==> m in ms && m.id != id
    ensures |r| == |ms| - CountId(ms, id)
    ensures forall other :: other != id ==> CountId(r, other) == CountId(ms, other)
    decreases |ms|
  {
    if |ms| == 0 then []
    else
      var init, last := ms[..|ms| - 1], ms[|ms| - 1];
      var rest := RemoveById(init, id);
      assert ms == init + [last];
      if last.id == id then rest
      else
        assert (rest + [last])[..|rest|] == rest;
        assert !HasId(rest + [last], id) by {
          forall i | 0 <= i < |rest| + 1 ensures (rest + [last])[i].id != id {
            if i < |rest| {
              assert (rest + [last])[i] == rest[i];
            }
          }
        }
        rest + [last]
  }

  /** Deleting keeps the ids of a list unique. */
  lemma RemoveByIdUnique(ms: seq<Message>, id: string)
    requires UniqueIds(ms)
    ensures UniqueIds(RemoveById(ms, id))
  {
  }

  /** Deleting distributes over concatenation: the filter keeps the relative
      order of everything it keeps. */
  lemma {:induction false} RemoveByIdConcat(a: seq<Message>, b: seq<Message>, id: string)
    ensures RemoveById(a + b, id) == RemoveById(a, id) + RemoveById(b, id)
    decreases |b|
  {
    if |b| == 0 {
      assert a + b == a;
    } else {
      var init, last := b[..|b| - 1], b[|b| - 1];
      assert (a + b)[..|a + b| - 1] == a + init;
      assert (a + b)[|a + b| - 1] == last;
      RemoveByIdConcat(a, init, id);
    }
  }

  /** Deleting an id that no message carries changes nothing. */
  lemma {:induction false} RemoveByIdAbsent(ms: seq<Message>, id: string)
    requires !HasId(ms, id)
    ensures RemoveById(ms, id) == ms
    decreases |ms|
  {
    if |ms| > 0 {
      var init := ms[..|ms| - 1];
      assert !HasId(init, id) by {
        forall i | 0 <= i < |init| ensures init[i].id != id {
          assert init[i] == ms[i];
        }
      }
      RemoveByIdAbsent(init, id);
      assert ms[|ms| - 1].id != id;
      assert init + [ms[|ms| - 1]] == ms;
    }
  }

  /** Deleting a message's id after appending it leaves what deleting from the
      original list leaves: the append is undone. */
  lemma RemoveAfterAppend(ms: seq<Message>, m: Message)
    ensures RemoveById(AppendUnique(ms, m), m.id) == RemoveById(ms, m.id)
  {
  }

  // ---------------------------------------------------------------------------
  // The roster
  // ---------------------------------------------------------------------------

  /** `users.find(u => u._id === id)`: the first roster entry with the id. */
  function FindUser(users: seq<User>, id: string): (r: Option<User>)
    ensures r.None? <==> forall j :: 0 <= j < |users| ==> users[j].id != id
    ensures r.Some? ==> exists i :: 0 <= i < |users| && users[i] == r.value && r.value.id == id
                                   && forall j :: 0 <= j < i ==> users[j].id != id
  {
    Find(users, (u: User) => u.id == id)
  }

  /** The roster ids in roster order. */
  function Ids(users: seq<User>): (r: seq<string>)
    ensures |r| == |users|
    ensures forall i :: 0 <= i < |users| ==> r[i] == users[i].id
  {
    seq(|users|, i requires 0 <= i < |users| => users[i].id)
  }

  /** Sets `hasUnread` to `flag` on the entries with the id. */
  function SetUnread(users: seq<User>, id: string, flag: bool): (r: seq<User>)
    ensures |r| == |users|
    ensures forall i :: 0 <= i < |users| ==>
      r[i].hasUnread == (if users[i].id == id then flag else users[i].hasUnread)
    ensures forall i :: 0 <= i < |users| ==> r[i].(hasUnread := users[i].hasUnread) == users[i]
  {
    seq(|users|, i requires 0 <= i < |users| =>
      if users[i].id == id then users[i].(hasUnread := flag) else users[i])
  }

  /** `updateUserActivity`: the entries with the id get the timestamp as their
      `lastActivity`. */
  function UpdateUserActivity(users: seq<User>, id: string, timestamp: int): (r: seq<User>)
    ensures Ids(r) == Ids(users)
    ensures forall i :: 0 <= i < |users| ==>
      r[i].lastActivity == (if users[i].id == id then Some(timestamp) else users[i].lastActivity)
    ensures forall i :: 0 <= i < |users| ==> r[i].(lastActivity := users[i].lastActivity) == users[i]
  {
    seq(|users|, i requires 0 <= i < |users| =>
      if users[i].id == id then users[i].(lastActivity := Some(timestamp)) else users[i])
  }

  /** One fetched roster entry merged with the local roster, as `getUsers`
      does: the fetched record, with the flag of the first local entry of the
      same id (false if none) and that entry's activity when it has one, else
      the fetched activity. */
  function MergeEntry(local: seq<User>, fetched: User): User {
    var existing := FindUser(local, fetched.id);
    fetched.(
      hasUnread := existing.Some? && existing.value.hasUnread,
      lastActivity :=
        if existing.Some? && existing.value.lastActivity.Some? then existing.value.lastActivity
        else fetched.lastActivity)
  }

  /** The roster after a refresh: exactly the fetched entries, in fetched
      order, each keeping the locally known unread flag and activity. */
  function MergeRoster(local: seq<User>, fetched: seq<User>): (r: seq<User>)
    ensures Ids(r) == Ids(fetched)
    ensures forall i :: 0 <= i < |fetched| ==>
      r[i].(hasUnread := fetched[i].hasUnread, lastActivity := fetched[i].lastActivity) == fetched[i]
    ensures forall i :: 0 <= i < |fetched| ==>
      var existing := FindUser(local, fetched[i].id);
      && (r[i].hasUnread <==> existing.Some? && existing.value.hasUnread)
      && r[i].lastActivity ==
           if existing.Some? && existing.value.lastActivity.Some? then existing.value.lastActivity
           else fetched[i].lastActivity
  {
    seq(|fetched|, i requires 0 <= i < |fetched| => MergeEntry(local, fetched[i]))
  }

  /** Refreshing twice with the same fetched roster is refreshing once, as long
      as the fetched roster repeats no id. */
  lemma MergeRosterIdempotent(local: seq<User>, fetched: seq<User>)
    requires forall j, k :: 0 <= j < k < |fetched| ==> fetched[j].id != fetched[k].id
    ensures MergeRoster(MergeRoster(local, fetched), fetched) == MergeRoster(local, fetched)
  {
  }

  /** A refresh never loses a known unread flag or activity of a correspondent
      the server still lists. */
  lemma MergeRosterKeepsLocalMetadata(local: seq<User>, fetched: seq<User>, i: nat, u: User)
    requires i < |fetched|
    requires FindUser(local, fetched[i].id) == Some(u)
    ensures u.hasUnread ==> MergeRoster(local, fetched)[i].hasUnread
    ensures u.lastActivity.Some? ==> MergeRoster(local, fetched)[i].lastActivity == u.lastActivity
  {
  }

  /** `activities.find(a => a.userId === id)?.timestamp`: the timestamp of the
      first activity entry for the id, if that entry has one. */
  function ActivityTimestamp(acts: seq<Activity>, id: string): (t: Option<int>)
    ensures (forall i :: 0 <= i < |acts| ==> acts[i].userId != id) ==> t.None?
    ensures forall i ::
              0 <= i < |acts| && acts[i].userId == id && (forall j :: 0 <= j < i ==> acts[j].userId != id)
              ==> t == acts[i].timestamp
    ensures t.Some? ==> exists i :: 0 <= i < |acts| && acts[i].userId == id && acts[i].timestamp == t
  {
    match Find(acts, (a: Activity) => a.userId == id)
    case Some(a) => a.timestamp
    case None => None
  }

  /** The roster after merging fetched activity timestamps: same entries in the
      same order, `lastActivity` replaced exactly where a timestamp was
      fetched for that id. */
  function MergeActivities(users: seq<User>, acts: seq<Activity>): (r: seq<User>)
    ensures Ids(r) == Ids(users)
    ensures forall i :: 0 <= i < |users| ==> r[i].(lastActivity := users[i].lastActivity) == users[i]
    ensures forall i :: 0 <= i < |users| && ActivityTimestamp(acts, users[i].id).Some? ==>
      r[i].lastActivity == ActivityTimestamp(acts, users[i].id)
    ensures forall i :: 0 <= i < |users| && ActivityTimestamp(acts, users[i].id).None? ==>
      r[i] == users[i]
  {
    seq(|users|, i requires 0 <= i < |users| =>
      var t := ActivityTimestamp(acts, users[i].id);
      users[i].(lastActivity := if t.Some? then t else users[i].lastActivity))
  }

  /** Merging the same activities twice is merging them once. */
  lemma MergeActivitiesIdempotent(users: seq<User>, acts: seq<Activity>)
    ensures MergeActivities(MergeActivities(users, acts), acts) == MergeActivities(users, acts)
  {
  }

  /** `updateUserActivity` is the activity merge of a single timestamped entry. */
  lemma UpdateUserActivityIsMerge(users: seq<User>, id: string, timestamp: int)
    ensures UpdateUserActivity(users, id, timestamp) == MergeActivities(users, [Activity(id, Some(timestamp))])
  {
  }
}
