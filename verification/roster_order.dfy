/** The ordering behind `sortedUsers`: the comparator handed to
    `Array.prototype.sort`, the proof that it is a consistent comparator (a
    total preorder), and a stable insertion sort standing for the library
    sort. */
module RosterOrder {
  import opened ChatModel

  /** The instant an entry sorts by: its last activity, 0 when it has none. */
  function SortTime(u: User): int {
    u.lastActivity.GetOr(0)
  }

  /** The comparator of `sortedUsers`: negative when `a` goes first, positive
      when `b` does, zero when either order is fine. */
  function Compare(a: User, b: User): int {
    if a.hasUnread && !b.hasUnread then -1
    else if !a.hasUnread && b.hasUnread then 1
    else SortTime(b) - SortTime(a)
  }

  /** `a` may stand before `b` in the sorted roster. */
  predicate InOrder(a: User, b: User) {
    Compare(a, b) <= 0
  }

  /** What the comparator means: unread before read, and within the same unread
      status newer activity before older. */
  lemma InOrderMeaning(a: User, b: User)
    ensures InOrder(a, b) <==>
      (a.hasUnread && !b.hasUnread) || (a.hasUnread == b.hasUnread && SortTime(a) >= SortTime(b))
  {
  }

  /** The comparator is consistent, as `sort` needs: swapping the arguments
      flips the sign, and `InOrder` is a total preorder. */
  lemma CompareConsistent(a: User, b: User, c: User)
    ensures Compare(a, b) < 0 <==> Compare(b, a) > 0
    ensures Compare(a, b) == 0 <==> Compare(b, a) == 0
    ensures InOrder(a, a)
    ensures InOrder(a, b) || InOrder(b, a)
    ensures InOrder(a, b) && InOrder(b, c) ==> InOrder(a, c)
  {
  }

  /** Every entry may stand before every later one. */
  predicate Sorted(us: seq<User>) {
    forall i, j :: 0 <= i < j < |us| ==> InOrder(us[i], us[j])
  }

  /** Inserts `x` into a sorted roster before the first entry it may precede,
      so that it stays ahead of entries that compare equal to it. */
  function Insert(x: User, us: seq<User>): (r: seq<User>)
    requires Sorted(us)
    ensures Sorted(r)
    ensures multiset(r) == multiset(us) + multiset{x}
    decreases |us|
  {
    if |us| == 0 then [x]
    else if InOrder(x, us[0]) then
      assert Sorted([x] + us) by {
        forall j | 0 <= j < |us| ensures InOrder(x, us[j]) {
          CompareConsistent(x, us[0], us[j]);
        }
      }
      [x] + us
    else
      var rest := Insert(x, us[1..]);
      assert Sorted([us[0]] + rest) by {
        assert InOrder(us[0], x) by { CompareConsistent(x, us[0], x); }
        forall k | 0 <= k < |rest| ensures InOrder(us[0], rest[k]) {
          assert rest[k] in multiset(rest);
          assert rest[k] == x || rest[k] in us[1..];
        }
      }
      assert us == [us[0]] + us[1..];
      [us[0]] + rest
  }

  /** Insertion sort of the roster by `InOrder`. */
  function SortRoster(us: seq<User>): (r: seq<User>)
    ensures Sorted(r)
    ensures multiset(r) == multiset(us)
    decreases |us|
  {
    if |us| == 0 then []
    else
      assert us == [us[0]] + us[1..];
      Insert(us[0], SortRoster(us[1..]))
  }

  /** `sortedUsers`: a reordering of the roster in which no entry with unread
      messages follows one without, and entries of equal unread status come in
      non-increasing order of activity, a missing activity counting as 0. */
  function SortedUsers(users: seq<User>): (r: seq<User>)
    ensures multiset(r) == multiset(users)
    ensures |r| == |users|
    ensures forall i, j :: 0 <= i < j < |r| && r[j].hasUnread ==> r[i].hasUnread
    ensures forall i, j :: 0 <= i < j < |r| && r[i].hasUnread == r[j].hasUnread ==>
      SortTime(r[i]) >= SortTime(r[j])
  {
    var r := SortRoster(users);
    assert |r| == |multiset(r)| == |multiset(users)| == |users|;
    forall i, j | 0 <= i < j < |r|
      ensures r[j].hasUnread ==> r[i].hasUnread
      ensures r[i].hasUnread == r[j].hasUnread ==> SortTime(r[i]) >= SortTime(r[j])
    {
      InOrderMeaning(r[i], r[j]);
    }
    r
  }
}
