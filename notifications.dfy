/** The notification centre: the list of toasts shown on screen, grown by
    `Add` and shrunk by `Remove` (which the five-second auto-dismissal also
    calls with the id it was given). */
module Notifications {
  import opened Wrappers
  import opened Types

  /** The list without the entries whose id is `id`, in order. */
  function WithoutId(ns: seq<Notification>, id: int): (r: seq<Notification>)
    ensures |r| <= |ns|
  {
    if ns == [] then []
    else (if ns[0].id == id then [] else [ns[0]]) + WithoutId(ns[1..], id)
  }

  class NotificationCenter {
    var notifications: seq<Notification>

    constructor ()
      ensures notifications == []
    {
      notifications := [];
    }

    /** Adds a notification at the end of the list. Its id is the clock
        reading `now` (milliseconds), so two notifications added in the
        same millisecond share an id. */
    method Add(message: string, kind: NotificationKind, now: int)
      modifies this
      ensures notifications == old(notifications) + [Notification(now, message, kind)]
    {
      notifications := notifications + [Notification(now, message, kind)];
    }

    /** Removes every notification with the id. */
    method Remove(id: int)
      modifies this
      ensures notifications == WithoutId(old(notifications), id)
    {
      var ns := notifications;
      var kept: seq<Notification> := [];
      var i := 0;
      while i < |ns|
        invariant 0 <= i <= |ns|
        invariant WithoutId(ns, id) == kept + WithoutId(ns[i..], id)
      {
        var head := if ns[i].id == id then [] else [ns[i]];
        WithoutIdStep(ns, i, id);
        kept := kept + head;
        i := i + 1;
      }
      notifications := kept;
    }
  }

  /** Removal from position `i` on is the verdict on entry `i` followed by
      removal from the next position on. */
  lemma WithoutIdStep(ns: seq<Notification>, i: int, id: int)
    requires 0 <= i < |ns|
    ensures WithoutId(ns[i..], id) == (if ns[i].id == id then [] else [ns[i]]) + WithoutId(ns[i + 1..], id)
  {
    assert ns[i..][1..] == ns[i + 1..];
  }

  /** Removal keeps exactly the entries with another id, in their order. */
  lemma {:induction false} WithoutIdMembers(ns: seq<Notification>, id: int)
    ensures forall n :: n in WithoutId(ns, id) <==> n in ns && n.id != id
    decreases |ns|
  {
    if ns != [] {
      WithoutIdMembers(ns[1..], id);
      assert ns == [ns[0]] + ns[1..];
    }
  }

  /** Removing an id that no entry has changes nothing. */
  lemma {:induction false} WithoutAbsentId(ns: seq<Notification>, id: int)
    requires forall k :: 0 <= k < |ns| ==> ns[k].id != id
    ensures WithoutId(ns, id) == ns
    decreases |ns|
  {
    if ns != [] {
      WithoutAbsentId(ns[1..], id);
      assert ns == [ns[0]] + ns[1..];
    }
  }

  /** Removing twice is removing once. */
  lemma WithoutIdIdempotent(ns: seq<Notification>, id: int)
    ensures WithoutId(WithoutId(ns, id), id) == WithoutId(ns, id)
  {
    WithoutIdMembers(ns, id);
    var r := WithoutId(ns, id);
    forall k | 0 <= k < |r| ensures r[k].id != id {
      assert r[k] in r;
    }
    WithoutAbsentId(r, id);
  }

  /** Removal distributes over concatenation. */
  lemma {:induction false} WithoutIdAppend(xs: seq<Notification>, ys: seq<Notification>, id: int)
    ensures WithoutId(xs + ys, id) == WithoutId(xs, id) + WithoutId(ys, id)
    decreases |xs|
  {
    if xs == [] {
      assert xs + ys == ys;
    } else {
      assert (xs + ys)[0] == xs[0];
      assert (xs + ys)[1..] == xs[1..] + ys;
      WithoutIdAppend(xs[1..], ys, id);
    }
  }

  /** The auto-dismissal of a notification also removes any other
      notification added in the same millisecond: adding two with the same
      clock reading and removing that id leaves the list as it was before
      either, when no earlier entry had that id. */
  lemma SameMillisecondDismissedTogether(ns: seq<Notification>, now: int, a: Notification, b: Notification)
    requires forall k :: 0 <= k < |ns| ==> ns[k].id != now
    requires a.id == now && b.id == now
    ensures WithoutId(ns + [a] + [b], now) == ns
  {
    WithoutIdAppend(ns + [a], [b], now);
    WithoutIdAppend(ns, [a], now);
    WithoutAbsentId(ns, now);
  }

  /** Reading the centre from a component: present inside the provider,
      otherwise the hook throws. */
  function UseNotifications<T>(provided: Option<T>): (r: Result<T, Thrown>)
    ensures provided.Some? ==> r == Ok(provided.value)
    ensures provided.None? ==> r.Err? && r.error.ErrorValue?
  {
    match provided
    case Some(c) => Ok(c)
    case None => Err(ErrorValue("useNotifications must be used within a NotificationProvider"))
  }
}
