/**
 * The dashboard of a student: the two headline figures and the
 * notification panel with its unread counter.
 */
module StudentDashboard {
  import opened Wrappers
  import opened Lists

  // ------------------------------------------------------ headline figures

  /** `applications?.length || 0`: a missing list counts as no application. */
  function ApplicationCount<T>(applications: Option<seq<T>>): (n: nat)
    ensures applications.Some? ==> n == |applications.value|
    ensures applications.None? ==> n == 0
  {
    if applications.Some? then |applications.value| else 0
  }

  /** `student?.gpa || '0.00'`: the GPA as stored, `0.00` when there is none. */
  function ShownGpa(gpa: Option<string>): (s: string)
    ensures s != ""
    ensures gpa.Some? && gpa.value != "" ==> s == gpa.value
  {
    if gpa.Some? && gpa.value != "" then gpa.value else "0.00"
  }

  // ------------------------------------------------------ notifications

  datatype Notification = Notification(id: string, read: bool)

  /** The result of one of the two notification requests; `Fetched(None)`
      is a reply without a list. */
  datatype Fetch = Failed | Fetched(list: Option<seq<Notification>>)

  const PanelSize: nat := 5

  /** The first five notifications, or all of them when there are fewer. */
  function FirstFive(ns: seq<Notification>): (r: seq<Notification>)
    ensures |r| <= PanelSize && |r| <= |ns|
    ensures forall i :: 0 <= i < |r| ==> r[i] == ns[i]
    ensures |ns| >= PanelSize ==> |r| == PanelSize
  {
    if |ns| <= PanelSize then ns else ns[..PanelSize]
  }

  /** The counter and the list after loading: the number of unread
      notifications and the first five of all notifications; either request
      failing leaves a zero counter and an empty list. */
  function Loaded(unread: Fetch, all: Fetch): (r: (int, seq<Notification>))
    ensures unread.Failed? || all.Failed? ==> r == (0, [])
    ensures r.0 >= 0 && |r.1| <= PanelSize
    ensures unread.Fetched? && all.Fetched? ==>
      r.0 == (if unread.list.Some? then |unread.list.value| else 0) &&
      r.1 == (if all.list.Some? then FirstFive(all.list.value) else [])
  {
    if unread.Failed? || all.Failed? then (0, [])
    else
      var count := if unread.list.Some? then |unread.list.value| else 0;
      (count, if all.list.Some? then FirstFive(all.list.value) else [])
  }

  /** The list after a notification was marked read: that notification is
      read, every other one as it was. */
  function MarkedRead(ns: seq<Notification>, id: string): (r: seq<Notification>)
    ensures |r| == |ns|
    ensures forall i :: 0 <= i < |ns| ==>
      if ns[i].id == id then r[i] == ns[i].(read := true) else r[i] == ns[i]
  {
    Map((n: Notification) => if n.id == id then n.(read := true) else n, ns)
  }

  /** Marking the same notification twice is marking it once. */
  lemma MarkedReadIdempotent(ns: seq<Notification>, id: string)
    ensures MarkedRead(MarkedRead(ns, id), id) == MarkedRead(ns, id)
  {
  }

  /** The counter after a click, as the page computes it: one less, but
      never below 0, whether or not the clicked notification was unread. */
  function CounterAfterClick(count: int): (c: int)
    ensures c >= 0
    ensures count > 0 ==> c == count - 1
    ensures count <= 0 ==> c == 0
  {
    if count - 1 > 0 then count - 1 else 0
  }

  predicate IsUnread(n: Notification) { !n.read }

  function UnreadShown(ns: seq<Notification>): nat {
    |Filter(IsUnread, ns)|
  }

  /** The notifications the panel lists, each with its own click handler:
      the unread ones, at most five of them. */
  function ShownUnread(ns: seq<Notification>): (r: seq<Notification>)
    ensures |r| <= PanelSize
    ensures forall n :: n in r ==> n in ns && IsUnread(n)
    ensures |Filter(IsUnread, ns)| > 0 ==> |r| > 0
  {
    var unread := Filter(IsUnread, ns);
    var r := FirstFive(unread);
    assert forall k :: 0 <= k < |r| ==> r[k] in unread;
    r
  }

  /** A notification the student can click: one of those listed. */
  predicate Offered(ns: seq<Notification>, id: string) {
    exists n :: n in ShownUnread(ns) && n.id == id
  }

  /** Only an unread notification can be clicked. */
  lemma OfferedIsUnread(ns: seq<Notification>, id: string)
    requires Offered(ns, id)
    ensures exists i :: 0 <= i < |ns| && ns[i].id == id && IsUnread(ns[i])
  {
    var n :| n in ShownUnread(ns) && n.id == id;
    var i :| 0 <= i < |ns| && ns[i] == n;
  }

  predicate UniqueIds(ns: seq<Notification>) {
    forall i, j :: 0 <= i < j < |ns| ==> ns[i].id != ns[j].id
  }

  /** The notification panel: the shown notifications and the unread
      counter. */
  class NotificationPanel {
    var notifications: seq<Notification>
    var unreadCount: int

    ghost predicate Valid()
      reads this
    {
      unreadCount >= 0 && |notifications| <= PanelSize
    }

    constructor (unread: Fetch, all: Fetch)
      ensures Valid()
      ensures (unreadCount, notifications) == Loaded(unread, all)
    {
      var loaded := Loaded(unread, all);
      unreadCount := loaded.0;
      notifications := loaded.1;
    }

    /** `handleMarkAsRead`, reached only by clicking a listed notification
        while the panel is up (the counter is positive); `ok` says whether
        the server accepted the request, and when it did not, nothing
        changes. With distinct ids, an accepted click takes one from the
        counter and one unread notification from the list, so the number
        of unread notifications not on the list is kept. */
    method MarkAsRead(id: string, ok: bool)
      requires Valid() && unreadCount > 0 && Offered(notifications, id)
      modifies this
      ensures Valid()
      ensures ok ==> notifications == MarkedRead(old(notifications), id)
      ensures ok ==> unreadCount == CounterAfterClick(old(unreadCount))
      ensures ok && UniqueIds(old(notifications)) ==>
        unreadCount - UnreadShown(notifications) == old(unreadCount) - UnreadShown(old(notifications))
      ensures !ok ==> notifications == old(notifications) && unreadCount == old(unreadCount)
    {
      if ok {
        OfferedIsUnread(notifications, id);
        var i :| 0 <= i < |notifications| && notifications[i].id == id && IsUnread(notifications[i]);
        if UniqueIds(notifications) {
          UnreadAfterMark(notifications, id, i);
        }
        notifications := MarkedRead(notifications, id);
        unreadCount := CounterAfterClick(unreadCount);
      }
    }
  }

  /** With distinct ids, a click on a listed notification keeps the counter
      in step with the list: a counter that exceeds the unread notifications
      listed by `hidden` still exceeds them by `hidden` afterwards. */
  lemma CounterTracksList(ns: seq<Notification>, id: string, hidden: nat)
    requires UniqueIds(ns) && Offered(ns, id)
    ensures CounterAfterClick(UnreadShown(ns) + hidden) == UnreadShown(MarkedRead(ns, id)) + hidden
  {
    OfferedIsUnread(ns, id);
    var i :| 0 <= i < |ns| && ns[i].id == id && IsUnread(ns[i]);
    UnreadAfterMark(ns, id, i);
  }

  /** Marking the one unread notification with id `id` lowers the unread
      count by one. */
  lemma {:induction false} UnreadAfterMark(ns: seq<Notification>, id: string, i: nat)
    requires UniqueIds(ns) && i < |ns| && ns[i].id == id && IsUnread(ns[i])
    ensures UnreadShown(MarkedRead(ns, id)) == UnreadShown(ns) - 1
    decreases |ns|
  {
    var m := MarkedRead(ns, id);
    assert m[1..] == MarkedRead(ns[1..], id);
    if i == 0 {
      assert MarkedRead(ns[1..], id) == ns[1..] by {
        forall k | 0 <= k < |ns[1..]|
          ensures MarkedRead(ns[1..], id)[k] == ns[1..][k]
        {
          assert ns[1..][k] == ns[k + 1];
        }
      }
      assert Filter(IsUnread, m) == Filter(IsUnread, m[1..]);
    } else {
      assert UniqueIds(ns[1..]);
      UnreadAfterMark(ns[1..], id, i - 1);
      assert Filter(IsUnread, m) == (if IsUnread(m[0]) then [m[0]] else []) + Filter(IsUnread, m[1..]);
    }
  }
}
