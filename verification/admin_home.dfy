/**
 * The admin overview: the pending-approval queue, approve/reject, and the truncated lists shown
 * on the page (five recent bookings, three pending users). The approval handler's result list is
 * what the component stores in state and writes to `tms_users`.
 */
module AdminHome {
  import opened Optional
  import opened Collections
  import opened Entities

  /** `u.verified === false`; a record without the flag is not pending. */
  predicate IsPending(u: User) {
    u.verified == Some(false)
  }

  /** `pendingApprovals`: exactly the users whose flag is false; order and copies: `PendingInOrder`. */
  function PendingApprovals(users: seq<User>): (r: seq<User>)
    ensures forall i | 0 <= i < |r| :: r[i] in users && r[i].verified == Some(false)
    ensures forall i | 0 <= i < |users| :: users[i].verified == Some(false) ==> users[i] in r
  {
    Filter(users, IsPending)
  }

  /** The queue lists the pending users in table order, each as often as it is stored. */
  lemma PendingInOrder(users: seq<User>)
    ensures IsSubseq(PendingApprovals(users), users)
    ensures forall u: User | u.verified == Some(false) ::
              multiset(PendingApprovals(users))[u] == multiset(users)[u]
  {
    FilterKeepsOrder(users, IsPending);
  }

  function SetVerified(approve: bool): User -> User {
    (u: User) => u.(verified := Some(approve))
  }

  /**
   * `handleApproval`: the records with the id get `verified := approve`; every other record,
   * every other field and the length are unchanged.
   */
  function HandleApproval(users: seq<User>, userId: string, approve: bool): (r: seq<User>)
    ensures |r| == |users|
    ensures forall i | 0 <= i < |users| && users[i].id == userId :: r[i] == users[i].(verified := Some(approve))
    ensures forall i | 0 <= i < |users| && users[i].id != userId :: r[i] == users[i]
  {
    MapWhere(users, UserHasId(userId), SetVerified(approve))
  }

  lemma {:induction false} ApprovalPendingCount(users: seq<User>, userId: string)
    requires UniqueIds(users)
    requires exists i | 0 <= i < |users| :: users[i].id == userId && IsPending(users[i])
    ensures |PendingApprovals(HandleApproval(users, userId, true))| + 1 == |PendingApprovals(users)|
    decreases |users|
  {
    var i :| 0 <= i < |users| && users[i].id == userId && IsPending(users[i]);
    if i == 0 {
      ApproveFirst(users, userId);
    } else {
      var r := HandleApproval(users, userId, true);
      var t := users[1..];
      assert r[1..] == HandleApproval(t, userId, true);
      UniqueTail(users);
      assert t[i - 1] == users[i];
      ApprovalPendingCount(t, userId);
      assert users[0].id != userId by {
        assert users[0].id != users[i].id;
      }
      assert r[0] == users[0];
      PendingStep(r);
      PendingStep(users);
    }
  }

  /** Approving the pending first record takes it, and nothing else, out of the queue. */
  lemma ApproveFirst(users: seq<User>, userId: string)
    requires UniqueIds(users) && |users| > 0 && users[0].id == userId && IsPending(users[0])
    ensures |PendingApprovals(HandleApproval(users, userId, true))| + 1 == |PendingApprovals(users)|
  {
    var r := HandleApproval(users, userId, true);
    var t := users[1..];
    UniqueRest(users, userId);
    assert r[1..] == t;
    PendingStep(r);
    PendingStep(users);
  }

  /** The queue's length, one record at a time. */
  lemma PendingStep(users: seq<User>)
    requires |users| > 0
    ensures |PendingApprovals(users)| == (if IsPending(users[0]) then 1 else 0) + |PendingApprovals(users[1..])|
  {
    FilterLengthStep(users, IsPending);
  }

  /** With unique ids, no record after the first shares the first record's id. */
  lemma UniqueRest(users: seq<User>, userId: string)
    requires UniqueIds(users) && |users| > 0 && users[0].id == userId
    ensures forall j | 0 <= j < |users[1..]| :: users[1..][j].id != userId
  {
    forall j | 0 <= j < |users[1..]| ensures users[1..][j].id != userId {
      assert users[1..][j] == users[j + 1];
    }
  }

  lemma UniqueTail(users: seq<User>)
    requires UniqueIds(users) && |users| > 0
    ensures UniqueIds(users[1..])
  {
    forall j, k | 0 <= j < k < |users[1..]| ensures users[1..][j].id != users[1..][k].id {
      assert users[1..][j] == users[j + 1] && users[1..][k] == users[k + 1];
    }
  }

  /** A rejected user keeps `verified == false` and so stays in the pending queue. */
  lemma RejectKeepsPending(users: seq<User>, userId: string)
    ensures var r := HandleApproval(users, userId, false);
            forall i | 0 <= i < |r| && r[i].id == userId :: r[i] in PendingApprovals(r)
  {
  }

  /** `bookings.slice(0, 5)`: the first five bookings, or all of them when there are fewer. */
  function RecentBookings(bookings: seq<Booking>): (r: seq<Booking>)
    ensures |r| == if |bookings| < 5 then |bookings| else 5
    ensures r == bookings[..|r|]
  {
    Take(bookings, 5)
  }

  /** `pendingApprovals.slice(0, 3)`: the first three pending users. */
  function PendingShown(users: seq<User>): (r: seq<User>)
    ensures |r| <= 3 && |r| <= |PendingApprovals(users)|
    ensures |r| == |PendingApprovals(users)| || |r| == 3
    ensures r == PendingApprovals(users)[..|r|]
    ensures forall i | 0 <= i < |r| :: r[i].verified == Some(false)
  {
    Take(PendingApprovals(users), 3)
  }
}
