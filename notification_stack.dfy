/** The notification stack: the configured notifications are shown one
    after another (each added to the active list, removed after its
    duration, the next shown half a second later); after the last the
    stack is cleared and the sequence starts again. The visible list is
    the configured notifications that are active, in configuration
    order, cut to the maximum. */
module NotificationStack {
  import opened Wrappers
  import opened ConfigTypes
  import opened Defaults

  /** The icon of each notification type. */
  function Icon(kind: NotificationKind): string {
    match kind
    case Success => "\U{2705}"
    case Error => "\U{274C}"
    case Warning => "\U{26A0}\U{FE0F}"
    case Info => "\U{2139}\U{FE0F}"
  }

  /** The background and border classes of each notification type. */
  function ColorClasses(kind: NotificationKind): string {
    match kind
    case Success => "bg-green-500/20 border-green-500/50"
    case Error => "bg-red-500/20 border-red-500/50"
    case Warning => "bg-yellow-500/20 border-yellow-500/50"
    case Info => "bg-blue-500/20 border-blue-500/50"
  }

  /** Every type has its own icon and its own colours. */
  lemma IconsAndColorsDistinct(a: NotificationKind, b: NotificationKind)
    ensures Icon(a) == Icon(b) <==> a == b
    ensures ColorClasses(a) == ColorClasses(b) <==> a == b
  {
    if a != b {
      assert Icon(a)[0] != Icon(b)[0];
      assert ColorClasses(a)[3] != ColorClasses(b)[3];
    }
  }

  /** The configured notifications, with the built-in list as fallback. */
  function NotificationsOf(c: Config): (ns: seq<Notification>)
    ensures c.notificationStack.Some? && c.notificationStack.value.notifications.Some? ==>
              ns == c.notificationStack.value.notifications.value
    ensures c.notificationStack.None? || c.notificationStack.value.notifications.None? ==> ns == DefaultNotifications
  {
    if c.notificationStack.Some? && c.notificationStack.value.notifications.Some? then
      c.notificationStack.value.notifications.value
    else DefaultNotifications
  }

  /** `maxNotifications || 3`: a missing maximum and a maximum of 0 both
      fall back to 3. */
  function MaxShown(c: Config): (m: int)
    ensures m != 0
    ensures c.notificationStack.Some? && c.notificationStack.value.maxNotifications.Some?
            && c.notificationStack.value.maxNotifications.value != 0 ==>
              m == c.notificationStack.value.maxNotifications.value
    ensures c.notificationStack.None? || c.notificationStack.value.maxNotifications.None?
            || c.notificationStack.value.maxNotifications.value == 0 ==>
              m == DefaultMaxNotifications
  {
    if c.notificationStack.Some? && c.notificationStack.value.maxNotifications.Some?
       && c.notificationStack.value.maxNotifications.value != 0 then
      c.notificationStack.value.maxNotifications.value
    else DefaultMaxNotifications
  }

  /** `duration || 3000`: a missing duration and a duration of 0 both
      mean 3000 milliseconds. */
  function DurationOf(n: Notification): (d: int)
    ensures d != 0
    ensures n.duration.Some? && n.duration.value != 0 ==> d == n.duration.value
    ensures n.duration.None? || n.duration.value == 0 ==> d == 3000
  {
    if n.duration.Some? && n.duration.value != 0 then n.duration.value else 3000
  }

  /** `ids.filter(x => x !== id)`: every occurrence of `id` removed. */
  function RemoveAll(ids: seq<string>, id: string): (r: seq<string>)
    ensures |r| <= |ids|
    ensures id !in r
    ensures forall x :: x != id ==> (x in r <==> x in ids)
    ensures forall x :: x != id ==> multiset(r)[x] == multiset(ids)[x]
  {
    if ids == [] then []
    else
      assert ids == [ids[0]] + ids[1..];
      if ids[0] == id then RemoveAll(ids[1..], id)
      else [ids[0]] + RemoveAll(ids[1..], id)
  }

  /** The notifications whose ids are active, in configuration order. */
  function ActiveOnes(ns: seq<Notification>, active: seq<string>): (r: seq<Notification>)
    ensures |r| <= |ns|
    ensures forall n :: n in r <==> n in ns && n.id in active
  {
    if ns == [] then []
    else if ns[0].id in active then [ns[0]] + ActiveOnes(ns[1..], active)
    else ActiveOnes(ns[1..], active)
  }

  /** The filter keeps configuration order and multiplicity: filtering a
      concatenation is concatenating the filtered parts. */
  lemma {:induction false} ActiveOnesAppend(a: seq<Notification>, b: seq<Notification>, active: seq<string>)
    ensures ActiveOnes(a + b, active) == ActiveOnes(a, active) + ActiveOnes(b, active)
    decreases |a|
  {
    if a != [] {
      assert (a + b)[1..] == a[1..] + b;
      ActiveOnesAppend(a[1..], b, active);
    } else {
      assert a + b == b;
    }
  }

  /** One notification is kept exactly when its id is active. With
      `ActiveOnesAppend` this fixes the result for every list. */
  lemma ActiveOnesSingle(n: Notification, active: seq<string>)
    ensures ActiveOnes([n], active) == if n.id in active then [n] else []
  {
    assert [n][1..] == [];
  }

  /** `xs.slice(0, end)`: the first `end` elements; a negative `end`
      counts from the back. */
  function SliceTo<T>(xs: seq<T>, end: int): (r: seq<T>)
    ensures 0 <= end ==> r == xs[..if end <= |xs| then end else |xs|]
    ensures end < 0 ==> r == xs[..if |xs| + end >= 0 then |xs| + end else 0]
  {
    var k := if end >= 0 then end else |xs| + end;
    xs[..if k < 0 then 0 else if k > |xs| then |xs| else k]
  }

  /** The rendered list. */
  function Visible(ns: seq<Notification>, active: seq<string>, max: int): (r: seq<Notification>)
    ensures 0 <= max ==> |r| <= max
    ensures forall n :: n in r ==> n in ns && n.id in active
  {
    SliceTo(ActiveOnes(ns, active), max)
  }

  /** With a non-negative maximum the visible list is the active ones
      when they fit, and otherwise their first `max`. */
  lemma VisibleIsPrefix(ns: seq<Notification>, active: seq<string>, max: int)
    requires 0 <= max
    ensures |ActiveOnes(ns, active)| <= max ==> Visible(ns, active, max) == ActiveOnes(ns, active)
    ensures |ActiveOnes(ns, active)| > max ==>
              |Visible(ns, active, max)| == max && Visible(ns, active, max) == ActiveOnes(ns, active)[..max]
  {
  }

  /** The timer the sequence is waiting for: hide notification `index`
      after `duration`; show notification `index` after half a second;
      clear the stack after a second. */
  datatype Timer = NoTimer | HideTimer(index: nat, duration: int) | ShowTimer(index: nat) | ResetTimer

  /** The component's state, with the timer the sequence is waiting for. */
  datatype State = State(active: seq<string>, isResetting: bool, timer: Timer)

  /** `showNextNotification(index)`: past the end, start resetting;
      otherwise append the id and wait for its duration. */
  function ShowNext(ns: seq<Notification>, index: nat, s: State): (r: State)
    ensures index >= |ns| ==> r == s.(isResetting := true, timer := ResetTimer)
    ensures index < |ns| ==>
              r == s.(active := s.active + [ns[index].id], timer := HideTimer(index, DurationOf(ns[index])))
  {
    if index >= |ns| then s.(isResetting := true, timer := ResetTimer)
    else s.(active := s.active + [ns[index].id], timer := HideTimer(index, DurationOf(ns[index])))
  }

  /** The state after mounting: the effect shows notification 0. */
  function Initial(ns: seq<Notification>): State {
    ShowNext(ns, 0, State([], false, NoTimer))
  }

  /** The pending timer fires. A hide removes every occurrence of the id
      and waits half a second for the next; a show shows; a reset clears
      the list and leaves resetting, upon which the effect runs again and
      shows notification 0. */
  function Fire(ns: seq<Notification>, s: State): (r: State)
    ensures s.timer.NoTimer? ==> r == s
    ensures s.timer.HideTimer? && s.timer.index < |ns| ==>
              r.active == RemoveAll(s.active, ns[s.timer.index].id) && r.timer == ShowTimer(s.timer.index + 1)
              && r.isResetting == s.isResetting
    ensures s.timer.ShowTimer? ==> r == ShowNext(ns, s.timer.index, s)
    ensures s.timer.ResetTimer? ==> r == Initial(ns)
  {
    match s.timer
    case NoTimer => s
    case HideTimer(i, _) =>
      if i < |ns| then s.(active := RemoveAll(s.active, ns[i].id), timer := ShowTimer(i + 1)) else s
    case ShowTimer(i) => ShowNext(ns, i, s)
    case ResetTimer => ShowNext(ns, 0, s.(active := [], isResetting := false))
  }

  /** The reachable states: while notification `i` is up it is the only
      active id; between notifications and while resetting nothing is
      active; a pending show names a notification or the end. */
  predicate Valid(ns: seq<Notification>, s: State) {
    match s.timer
    case NoTimer => false
    case HideTimer(i, d) => i < |ns| && s.active == [ns[i].id] && !s.isResetting && d == DurationOf(ns[i])
    case ShowTimer(i) => i <= |ns| && s.active == [] && !s.isResetting
    case ResetTimer => s.active == [] && s.isResetting
  }

  lemma InitialValid(ns: seq<Notification>)
    ensures Valid(ns, Initial(ns))
  {
  }

  /** Every firing keeps the state reachable. */
  lemma FireValid(ns: seq<Notification>, s: State)
    requires Valid(ns, s)
    ensures Valid(ns, Fire(ns, s))
  {
    if s.timer.HideTimer? {
      assert RemoveAll([ns[s.timer.index].id], ns[s.timer.index].id) == [];
    }
  }

  /** At most one notification is ever on screen (given a positive
      maximum, and unless two notifications share an id). */
  lemma AtMostOneVisible(ns: seq<Notification>, s: State, max: int)
    requires Valid(ns, s) && max >= 1
    requires forall i, j :: 0 <= i < j < |ns| ==> ns[i].id != ns[j].id
    ensures |Visible(ns, s.active, max)| <= 1
    ensures |Visible(ns, s.active, max)| == |ActiveOnes(ns, s.active)|
  {
    if s.timer.HideTimer? {
      UniqueActive(ns, s.timer.index, s.active);
    } else {
      NoneActive(ns, s.active);
    }
  }

  /** Only the notification carrying the one active id is active. */
  lemma {:induction false} UniqueActive(ns: seq<Notification>, i: nat, active: seq<string>)
    requires i < |ns| && active == [ns[i].id]
    requires forall a, b :: 0 <= a < b < |ns| ==> ns[a].id != ns[b].id
    ensures ActiveOnes(ns, active) == [ns[i]]
    decreases |ns|
  {
    if i == 0 {
      assert forall n :: n in ns[1..] ==> n.id !in active;
      NoneActive(ns[1..], active);
    } else {
      assert ns[0].id !in active;
      UniqueActive(ns[1..], i - 1, active);
    }
  }

  /** No notification is active when none carries an active id. */
  lemma {:induction false} NoneActive(ns: seq<Notification>, active: seq<string>)
    requires forall n :: n in ns ==> n.id !in active
    ensures ActiveOnes(ns, active) == []
    decreases |ns|
  {
    if ns != [] {
      assert forall n :: n in ns[1..] ==> n in ns;
      NoneActive(ns[1..], active);
    }
  }

  /** `k` firings. */
  function Fires(ns: seq<Notification>, s: State, k: nat): State
    decreases k
  {
    if k == 0 then s else Fires(ns, Fire(ns, s), k - 1)
  }

  /** From a pending show of notification `i`, two firings per remaining
      notification reach the pending show past the end. */
  lemma {:induction false} RunToEnd(ns: seq<Notification>, i: nat)
    requires i <= |ns|
    ensures Fires(ns, State([], false, ShowTimer(i)), 2 * (|ns| - i)) == State([], false, ShowTimer(|ns|))
    decreases |ns| - i
  {
    if i < |ns| {
      var s1 := Fire(ns, State([], false, ShowTimer(i)));
      assert s1 == State([ns[i].id], false, HideTimer(i, DurationOf(ns[i])));
      assert RemoveAll([ns[i].id], ns[i].id) == [];
      assert Fire(ns, s1) == State([], false, ShowTimer(i + 1));
      RunToEnd(ns, i + 1);
      assert 2 * (|ns| - i) == 2 + 2 * (|ns| - (i + 1));
    }
  }

  /** The sequence is periodic: after `2 n + 1` firings (show and hide
      each of the `n` notifications, then reset) it is back at its
      initial state. */
  lemma Periodic(ns: seq<Notification>)
    ensures Fires(ns, Initial(ns), 2 * |ns| + 1) == Initial(ns)
  {
    if |ns| == 0 {
      assert Fires(ns, Initial(ns), 1) == Fire(ns, Initial(ns));
    } else {
      var s0 := State([], false, ShowTimer(0));
      assert Fire(ns, s0) == Initial(ns);
      RunToEnd(ns, 0);
      FiresAdd(ns, s0, 1, 2 * |ns| + 1);
      FiresAdd(ns, s0, 2 * |ns|, 2);
      var sEnd := State([], false, ShowTimer(|ns|));
      assert Fire(ns, sEnd) == State([], true, ResetTimer);
      assert Fires(ns, sEnd, 2) == Fires(ns, State([], true, ResetTimer), 1);
    }
  }

  /** Runs of firings compose. */
  lemma {:induction false} FiresAdd(ns: seq<Notification>, s: State, m: nat, n: nat)
    ensures Fires(ns, s, m + n) == Fires(ns, Fires(ns, s, m), n)
    decreases m
  {
    if m > 0 {
      FiresAdd(ns, Fire(ns, s), m - 1, n);
    }
  }

  /** The component's state variables and the pending timeout. */
  class NotificationStackDemo {
    const notifications: seq<Notification>
    const maxNotifications: int
    var activeNotifications: seq<string>
    var isResetting: bool
    var pending: Timer

    function View(): State
      reads this
    {
      State(activeNotifications, isResetting, pending)
    }

    /** The rendered notifications. */
    function Shown(): seq<Notification>
      reads this
    {
      Visible(notifications, activeNotifications, maxNotifications)
    }

    /** Mounting runs the sequence's effect, which shows notification 0. */
    constructor (c: Config)
      ensures notifications == NotificationsOf(c) && maxNotifications == MaxShown(c)
      ensures View() == Initial(notifications)
      ensures Valid(notifications, View())
    {
      notifications := NotificationsOf(c);
      maxNotifications := MaxShown(c);
      activeNotifications := [];
      isResetting := false;
      pending := NoTimer;
      new;
      ShowNextNotification(0);
    }

    /** `showNextNotification(index)`. */
    method ShowNextNotification(index: nat)
      modifies this
      ensures View() == ShowNext(notifications, index, old(View()))
    {
      if index >= |notifications| {
        isResetting := true;
        pending := ResetTimer;
        return;
      }
      activeNotifications := activeNotifications + [notifications[index].id];
      pending := HideTimer(index, DurationOf(notifications[index]));
    }

    /** The pending timeout fires. */
    method TimerFires()
      modifies this
      requires Valid(notifications, View())
      ensures View() == Fire(notifications, old(View()))
      ensures Valid(notifications, View())
    {
      FireValid(notifications, View());
      match pending
      case NoTimer =>
      case HideTimer(i, _) =>
        if i < |notifications| {
          activeNotifications := RemoveAll(activeNotifications, notifications[i].id);
          pending := ShowTimer(i + 1);
        }
      case ShowTimer(i) =>
        ShowNextNotification(i);
      case ResetTimer =>
        activeNotifications := [];
        isResetting := false;
        ShowNextNotification(0);
    }
  }
}
