/** The notification queue shared by every caller: `show` appends a
    notification under a fresh id and, for a positive duration, schedules its
    dismissal; `dismiss` removes the first notification with an id; `clear`
    empties the queue. Ids come from a counter that is never reset, so no id
    is issued twice. A scheduled `setTimeout` is kept as a pending timer. */
module Notifications {
  import opened Wrappers
  import opened Text
  import opened Lists

  datatype Kind = Success | Error | Warning | Info

  datatype Notification = Notification(id: string, kind: Kind, message: string, duration: int, dismissible: bool)

  /** A pending `setTimeout(() => dismiss(id), delay)`. */
  datatype Timer = Timer(id: string, delay: int)

  const DefaultDuration := 5000
  const IdPrefix := "notification-"

  /** The id issued as the n-th: `notification-${n}`. */
  function IdOf(n: nat): string {
    IdPrefix + NatToDecimal(n)
  }

  /** Different counter values give different ids. */
  lemma IdInjective(m: nat, n: nat)
    requires IdOf(m) == IdOf(n)
    ensures m == n
  {
    assert NatToDecimal(m) == IdOf(m)[|IdPrefix|..];
    assert NatToDecimal(n) == IdOf(n)[|IdPrefix|..];
    DecimalInjective(m, n);
  }

  /** One of the ids issued by a counter that has reached `counter`. */
  ghost predicate Issued(id: string, counter: nat) {
    exists k :: 1 <= k <= counter && id == IdOf(k)
  }

  /** The position `dismiss(id)` finds. */
  function IndexOfId(ns: seq<Notification>, id: string): int {
    FirstIndex(ns, (n: Notification) => n.id == id)
  }

  /** The queue after `dismiss(id)`: the first notification with that id
      removed and the others kept in order; unchanged when none has it. */
  function Without(ns: seq<Notification>, id: string): (r: seq<Notification>)
    ensures (forall k :: 0 <= k < |ns| ==> ns[k].id != id) ==> r == ns
    ensures (exists k :: 0 <= k < |ns| && ns[k].id == id) ==>
      exists i :: 0 <= i < |ns| && ns[i].id == id && (forall k :: 0 <= k < i ==> ns[k].id != id) && r == RemoveAt(ns, i)
  {
    var i := IndexOfId(ns, id);
    if i == -1 then ns else RemoveAt(ns, i)
  }

  /** The queue itself, the id counter and the pending timers. */
  class Center {
    var notifications: seq<Notification>
    var counter: nat
    var timers: seq<Timer>

    /** Every queued id and every timer's id was issued, and queued ids are distinct. */
    ghost predicate Valid()
      reads this
    {
      && (forall i :: 0 <= i < |notifications| ==> Issued(notifications[i].id, counter))
      && (forall i, j :: 0 <= i < j < |notifications| ==> notifications[i].id != notifications[j].id)
      && (forall i :: 0 <= i < |timers| ==> Issued(timers[i].id, counter))
    }

    constructor()
      ensures Valid()
      ensures notifications == [] && counter == 0 && timers == []
    {
      notifications := [];
      counter := 0;
      timers := [];
    }

    /** An id of the next `show` differs from every id issued so far. */
    lemma NextIdFresh()
      requires Valid()
      ensures forall i :: 0 <= i < |notifications| ==> notifications[i].id != IdOf(counter + 1)
      ensures forall i :: 0 <= i < |timers| ==> timers[i].id != IdOf(counter + 1)
    {
      forall i | 0 <= i < |notifications| ensures notifications[i].id != IdOf(counter + 1) {
        assert Issued(notifications[i].id, counter);
        var k :| 1 <= k <= counter && notifications[i].id == IdOf(k);
        if IdOf(k) == IdOf(counter + 1) {
          IdInjective(k, counter + 1);
        }
      }
      forall i | 0 <= i < |timers| ensures timers[i].id != IdOf(counter + 1) {
        assert Issued(timers[i].id, counter);
        var k :| 1 <= k <= counter && timers[i].id == IdOf(k);
        if IdOf(k) == IdOf(counter + 1) {
          IdInjective(k, counter + 1);
        }
      }
    }

    /** `show(message, type, duration, dismissible)`: one notification appended
        under the next id, and one timer when the duration is positive. */
    method Show(message: string, kind: Kind, duration: int, dismissible: bool) returns (id: string)
      requires Valid()
      modifies this
      ensures Valid()
      ensures counter == old(counter) + 1 && id == IdOf(counter)
      ensures notifications == old(notifications) + [Notification(id, kind, message, duration, dismissible)]
      ensures timers == old(timers) + (if duration > 0 then [Timer(id, duration)] else [])
      ensures forall i :: 0 <= i < |old(notifications)| ==> old(notifications)[i].id != id
    {
      NextIdFresh();
      counter := counter + 1;
      id := IdOf(counter);
      notifications := notifications + [Notification(id, kind, message, duration, dismissible)];
      if duration > 0 {
        timers := timers + [Timer(id, duration)];
      }
      forall i | 0 <= i < |notifications| ensures Issued(notifications[i].id, counter) {
        if i == |notifications| - 1 {
          assert notifications[i].id == IdOf(counter);
        } else {
          assert notifications[i] == old(notifications)[i];
          assert Issued(old(notifications)[i].id, old(counter));
          var k :| 1 <= k <= counter - 1 && notifications[i].id == IdOf(k);
        }
      }
      forall i | 0 <= i < |timers| ensures Issued(timers[i].id, counter) {
        if i == |old(timers)| {
          assert timers[i].id == IdOf(counter);
        } else {
          assert timers[i] == old(timers)[i];
          assert Issued(old(timers)[i].id, old(counter));
          var k :| 1 <= k <= counter - 1 && timers[i].id == IdOf(k);
        }
      }
    }

    /** `show(message)` with the defaults: 'info', 5000 ms, dismissible. */
    method ShowDefault(message: string) returns (id: string)
      requires Valid()
      modifies this
      ensures Valid()
      ensures counter == old(counter) + 1 && id == IdOf(counter)
      ensures notifications == old(notifications) + [Notification(id, Info, message, DefaultDuration, true)]
      ensures timers == old(timers) + [Timer(id, DefaultDuration)]
    {
      id := Show(message, Info, DefaultDuration, true);
    }

    /** `success`, `error`, `warning` and `info`: `show` with that type, the
        given duration (5000 when omitted) and dismissible. */
    method ShowKind(message: string, kind: Kind, duration: Option<int>) returns (id: string)
      requires Valid()
      modifies this
      ensures Valid()
      ensures counter == old(counter) + 1 && id == IdOf(counter)
      ensures notifications == old(notifications) + [Notification(id, kind, message, duration.GetOr(DefaultDuration), true)]
      ensures timers == old(timers) + (if duration.GetOr(DefaultDuration) > 0 then [Timer(id, duration.GetOr(DefaultDuration))] else [])
    {
      id := Show(message, kind, duration.GetOr(DefaultDuration), true);
    }

    /** `dismiss(id)`. */
    method Dismiss(id: string)
      requires Valid()
      modifies this
      ensures Valid()
      ensures notifications == Without(old(notifications), id)
      ensures counter == old(counter) && timers == old(timers)
    {
      var index := FindIndex(notifications, (n: Notification) => n.id == id);
      if index != -1 {
        notifications := RemoveAt(notifications, index);
      }
    }

    /** The timer at `t` fires: it is gone and its id is dismissed. */
    method Fire(t: nat)
      requires Valid() && t < |timers|
      modifies this
      ensures Valid()
      ensures notifications == Without(old(notifications), old(timers)[t].id)
      ensures timers == RemoveAt(old(timers), t) && counter == old(counter)
    {
      var id := timers[t].id;
      timers := RemoveAt(timers, t);
      Dismiss(id);
    }

    /** `clear()`: the queue is emptied; the counter and the timers stay. */
    method Clear()
      requires Valid()
      modifies this
      ensures Valid()
      ensures notifications == [] && counter == old(counter) && timers == old(timers)
    {
      notifications := [];
    }
  }

  /** Ids issued before `clear` are never issued again after it: the n-th
      id differs from every earlier one. */
  lemma IdsNeverRepeat(m: nat, n: nat)
    requires m < n
    ensures IdOf(m) != IdOf(n)
  {
    if IdOf(m) == IdOf(n) {
      IdInjective(m, n);
    }
  }

  /** Dismissing an id no notification has changes nothing, and dismissing a
      queued id removes exactly that notification. */
  lemma DismissRemovesOne(ns: seq<Notification>, i: nat)
    requires i < |ns| && forall j, k :: 0 <= j < k < |ns| ==> ns[j].id != ns[k].id
    ensures Without(ns, ns[i].id) == RemoveAt(ns, i)
    ensures forall k :: 0 <= k < |Without(ns, ns[i].id)| ==> Without(ns, ns[i].id)[k].id != ns[i].id
  {
    var r := Without(ns, ns[i].id);
    var i' :| 0 <= i' < |ns| && ns[i'].id == ns[i].id && (forall k :: 0 <= k < i' ==> ns[k].id != ns[i].id) && r == RemoveAt(ns, i');
    assert i' == i;
  }
}
