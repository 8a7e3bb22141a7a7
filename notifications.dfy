/**
 * app/dashboard/notifications/page.tsx: the notification list and the
 * notification settings.  Every handler replaces the state with a new list
 * or record (`map`, `filter`, spread), so each is a function from the old
 * state to the new one.
 */
module Notifications {

  /** `id: string | number`; `===` never equates a string with a number. */
  datatype NotificationId = TextId(text: string) | NumberId(number: real)

  datatype Notification = Notification(
    id: NotificationId,
    kind: string,
    date: string,
    title: string,
    message: string,
    read: bool)

  /** The keys of `NotificationSettings`. */
  datatype Setting =
    | PriceAlerts | Dividends | PortfolioAlerts | MarketNews | EmailNotifications | PushNotifications

  datatype Settings = Settings(
    priceAlerts: bool,
    dividends: bool,
    portfolioAlerts: bool,
    marketNews: bool,
    emailNotifications: bool,
    pushNotifications: bool)

  /** The settings the page starts with. */
  const DefaultSettings: Settings := Settings(true, true, true, false, true, false)

  /** `settings[key]`. */
  function Flag(s: Settings, key: Setting): bool
  {
    match key
    case PriceAlerts => s.priceAlerts
    case Dividends => s.dividends
    case PortfolioAlerts => s.portfolioAlerts
    case MarketNews => s.marketNews
    case EmailNotifications => s.emailNotifications
    case PushNotifications => s.pushNotifications
  }

  /** Two notifications agree on everything but the read flag. */
  predicate SameButRead(a: Notification, b: Notification)
  {
    a.id == b.id && a.kind == b.kind && a.date == b.date && a.title == b.title && a.message == b.message
  }

  // ---------------------------------------------------------------------
  // The list
  // ---------------------------------------------------------------------

  /** `markAsRead(id)`: every entry with that id is read; nothing else changes. */
  function MarkAsRead(list: seq<Notification>, id: NotificationId): (r: seq<Notification>)
    ensures |r| == |list|
    ensures forall i :: 0 <= i < |list| ==>
      SameButRead(r[i], list[i]) && r[i].read == (list[i].read || list[i].id == id)
  {
    if list == [] then []
    else
      var head := if list[0].id == id then list[0].(read := true) else list[0];
      [head] + MarkAsRead(list[1..], id)
  }

  /** `markAllAsRead()`: every entry is read; nothing else changes. */
  function MarkAllAsRead(list: seq<Notification>): (r: seq<Notification>)
    ensures |r| == |list|
    ensures forall i :: 0 <= i < |list| ==> SameButRead(r[i], list[i]) && r[i].read
  {
    if list == [] then [] else [list[0].(read := true)] + MarkAllAsRead(list[1..])
  }

  /** `deleteNotification(id)`: `prev.filter((n) => n.id !== id)`. */
  function DeleteNotification(list: seq<Notification>, id: NotificationId): (r: seq<Notification>)
    ensures forall n :: n in r <==> n in list && n.id != id
  {
    if list == [] then []
    else if list[0].id == id then DeleteNotification(list[1..], id)
    else [list[0]] + DeleteNotification(list[1..], id)
  }

  /** How many entries are still unread (the page's unread highlight). */
  function UnreadCount(list: seq<Notification>): nat
  {
    if list == [] then 0 else (if list[0].read then 0 else 1) + UnreadCount(list[1..])
  }

  /** How many entries carry the id. */
  function CountId(list: seq<Notification>, id: NotificationId): nat
  {
    if list == [] then 0 else (if list[0].id == id then 1 else 0) + CountId(list[1..], id)
  }

  /** Marking the same id read a second time changes nothing. */
  lemma {:induction false} MarkAsReadIdempotent(list: seq<Notification>, id: NotificationId)
    ensures MarkAsRead(MarkAsRead(list, id), id) == MarkAsRead(list, id)
  {
    if list != [] {
      MarkAsReadIdempotent(list[1..], id);
      assert MarkAsRead(list, id)[1..] == MarkAsRead(list[1..], id);
    }
  }

  /**
   * Marking one id read removes exactly the unread entries with that id
   * from the unread count; marking all read leaves none.
   */
  lemma {:induction false} MarkAsReadUnreadCount(list: seq<Notification>, id: NotificationId)
    ensures UnreadCount(MarkAsRead(list, id)) == UnreadCount(list) - UnreadWithId(list, id)
    ensures UnreadCount(MarkAllAsRead(list)) == 0
  {
    if list != [] {
      MarkAsReadUnreadCount(list[1..], id);
      assert MarkAsRead(list, id)[1..] == MarkAsRead(list[1..], id);
      assert MarkAllAsRead(list)[1..] == MarkAllAsRead(list[1..]);
    }
  }

  /** How many unread entries carry the id. */
  function UnreadWithId(list: seq<Notification>, id: NotificationId): (n: nat)
    ensures n <= UnreadCount(list)
  {
    if list == [] then 0
    else (if list[0].id == id && !list[0].read then 1 else 0) + UnreadWithId(list[1..], id)
  }

  /**
   * Deleting keeps the remaining entries in their order: it distributes
   * over concatenation, so a single entry with another id stays and a
   * single entry with that id goes.
   */
  lemma {:induction false} DeleteKeepsOrder(xs: seq<Notification>, ys: seq<Notification>, id: NotificationId)
    ensures DeleteNotification(xs + ys, id) == DeleteNotification(xs, id) + DeleteNotification(ys, id)
  {
    if xs != [] {
      var tail := xs[1..];
      assert (xs + ys)[0] == xs[0] && (xs + ys)[1..] == tail + ys;
      DeleteKeepsOrder(tail, ys, id);
      var rest, later := DeleteNotification(tail, id), DeleteNotification(ys, id);
      if xs[0].id == id {
        assert DeleteNotification(xs + ys, id) == rest + later;
      } else {
        assert DeleteNotification(xs + ys, id) == [xs[0]] + (rest + later);
        assert [xs[0]] + (rest + later) == ([xs[0]] + rest) + later;
      }
    } else {
      assert xs + ys == ys;
    }
  }

  /** Deleting removes exactly as many entries as carry the id. */
  lemma {:induction false} DeleteCount(xs: seq<Notification>, id: NotificationId)
    ensures |DeleteNotification(xs, id)| == |xs| - CountId(xs, id)
  {
    if xs != [] {
      DeleteCount(xs[1..], id);
    }
  }

  /** Deleting the same id twice is deleting it once. */
  lemma {:induction false} DeleteIdempotent(list: seq<Notification>, id: NotificationId)
    ensures DeleteNotification(DeleteNotification(list, id), id) == DeleteNotification(list, id)
  {
    if list != [] {
      DeleteIdempotent(list[1..], id);
      if list[0].id != id {
        assert ([list[0]] + DeleteNotification(list[1..], id))[1..] == DeleteNotification(list[1..], id);
      }
    }
  }

  // ---------------------------------------------------------------------
  // Settings and styles
  // ---------------------------------------------------------------------

  /** `handleSettingChange(key)`: flips the named flag and no other. */
  function HandleSettingChange(s: Settings, key: Setting): (r: Settings)
    ensures Flag(r, key) == !Flag(s, key)
    ensures forall k :: k != key ==> Flag(r, k) == Flag(s, k)
  {
    match key
    case PriceAlerts => s.(priceAlerts := !s.priceAlerts)
    case Dividends => s.(dividends := !s.dividends)
    case PortfolioAlerts => s.(portfolioAlerts := !s.portfolioAlerts)
    case MarketNews => s.(marketNews := !s.marketNews)
    case EmailNotifications => s.(emailNotifications := !s.emailNotifications)
    case PushNotifications => s.(pushNotifications := !s.pushNotifications)
  }

  /** Flipping a setting twice restores the settings. */
  lemma SettingChangeTwice(s: Settings, key: Setting)
    ensures HandleSettingChange(HandleSettingChange(s, key), key) == s
  {
    var r := HandleSettingChange(HandleSettingChange(s, key), key);
    assert forall k :: Flag(r, k) == Flag(s, k);
    assert Flag(r, PriceAlerts) == Flag(s, PriceAlerts);
    assert Flag(r, Dividends) == Flag(s, Dividends);
    assert Flag(r, PortfolioAlerts) == Flag(s, PortfolioAlerts);
    assert Flag(r, MarketNews) == Flag(s, MarketNews);
    assert Flag(r, EmailNotifications) == Flag(s, EmailNotifications);
    assert Flag(r, PushNotifications) == Flag(s, PushNotifications);
  }

  const AlertStyle: string := "bg-red-100 text-red-800"
  const InfoStyle: string := "bg-blue-100 text-blue-800"
  const WarningStyle: string := "bg-yellow-100 text-yellow-800"
  const DefaultStyle: string := "bg-gray-100 text-gray-800"

  /** `getTypeStyle(type)`. */
  function TypeStyle(kind: string): string
  {
    if kind == "alert" then AlertStyle
    else if kind == "info" then InfoStyle
    else if kind == "warning" then WarningStyle
    else DefaultStyle
  }

  /**
   * The three known types get three different styles, none of them the
   * grey default, which every other type gets.
   */
  lemma TypeStylesDistinct(kind: string)
    ensures TypeStyle(kind) == DefaultStyle <==> kind !in {"alert", "info", "warning"}
    ensures TypeStyle("alert") != TypeStyle("info") && TypeStyle("info") != TypeStyle("warning")
    ensures TypeStyle("warning") != TypeStyle("alert")
  {
    assert AlertStyle[3] == 'r' && InfoStyle[3] == 'b' && WarningStyle[3] == 'y' && DefaultStyle[3] == 'g';
  }
}
