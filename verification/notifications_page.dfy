/** The notifications screen, src/pages/NotificationsPage.jsx: a list held
    only in the page (seeded with six samples, never fetched), the unread
    count and its subtitle, the filter buttons and stat cards, marking one or
    all as read, deleting one, and clearing the list after a confirmation. */
module NotificationsPage {
  import opened Common
  import opened Browser
  import opened ListPages

  /** `type` is a keyword here, hence `kind`. */
  datatype Notification = Notification(id: int, kind: string, title: string, message: string,
                                       createdAt: string, isRead: bool)

  /** The samples the page starts with: ids 1 to 6, of which 1, 2 and 6 are
      unread. */
  const Seeded: seq<Notification> := [
    Notification(1, "new_restaurant", "New Restaurant Registration",
                 "Spice Garden has registered and is awaiting verification.", "2 hours ago", false),
    Notification(2, "new_delivery_person", "New Delivery Person",
                 "Rajesh Kumar has applied to become a delivery partner.", "5 hours ago", false),
    Notification(3, "new_complaint", "New Complaint Received",
                 "User Sarah Johnson has filed a complaint about Order #12345.", "Yesterday at 3:30 PM", true),
    Notification(4, "new_review", "New Review Posted",
                 "A 5-star review was posted for The Food Court.", "Yesterday at 2:15 PM", true),
    Notification(5, "system", "System Update",
                 "Platform maintenance scheduled for this weekend.", "2 days ago", true),
    Notification(6, "new_complaint", "Complaint Escalated",
                 "Complaint #789 has been escalated and requires immediate attention.", "2 days ago", false)
  ]

  predicate IsUnread(n: Notification) { !n.isRead }

  /** `unreadCount`. */
  function UnreadCount(ns: seq<Notification>): nat {
    Count(ns, IsUnread)
  }

  // ---------------------------------------------------------------------------
  // Filter buttons and stat cards

  /** Which notifications a filter value keeps: "all" every one, "unread"
      the unread ones, any other value the notifications of that type. */
  predicate Keeps(filterType: string, n: Notification) {
    if filterType == "all" then true
    else if filterType == "unread" then !n.isRead
    else n.kind == filterType
  }

  /** `filteredNotifications`. */
  function Shown(ns: seq<Notification>, filterType: string): (r: seq<Notification>)
    ensures IsSubsequence(r, ns)
    ensures forall i :: 0 <= i < |r| ==> Keeps(filterType, r[i])
    ensures forall i :: 0 <= i < |ns| && Keeps(filterType, ns[i]) ==> ns[i] in r
    ensures forall n :: multiset(r)[n] == if Keeps(filterType, n) then multiset(ns)[n] else 0
  {
    FilterCounts(ns, n => Keeps(filterType, n));
    Filter(ns, n => Keeps(filterType, n))
  }

  predicate IsRestaurantKind(n: Notification) { n.kind == "new_restaurant" }
  predicate IsComplaintKind(n: Notification) { n.kind == "new_complaint" }

  /** The four stat cards: all, unread, restaurant and complaint
      notifications. */
  datatype Stats = Stats(all: nat, unread: nat, restaurants: nat, complaints: nat)

  function Cards(ns: seq<Notification>): Stats {
    Stats(|ns|, UnreadCount(ns), Count(ns, IsRestaurantKind), Count(ns, IsComplaintKind))
  }

  /** Each stat card sets the filter to its own value, and the list then
      shows exactly as many notifications as the card displays. */
  lemma CardsMatchFilters(ns: seq<Notification>)
    ensures |Shown(ns, "all")| == Cards(ns).all
    ensures |Shown(ns, "unread")| == Cards(ns).unread
    ensures |Shown(ns, "new_restaurant")| == Cards(ns).restaurants
    ensures |Shown(ns, "new_complaint")| == Cards(ns).complaints
  {
    FilterAll(ns, n => Keeps("all", n));
    FilterSame(ns, n => Keeps("unread", n), IsUnread);
    FilterSame(ns, n => Keeps("new_restaurant", n), IsRestaurantKind);
    FilterSame(ns, n => Keeps("new_complaint", n), IsComplaintKind);
  }

  // ---------------------------------------------------------------------------
  // Header

  /** The subtitle under the title. */
  function Subtitle(unread: nat): (r: string)
    ensures unread == 0 ==> r == "All caught up! No new notifications"
  {
    if unread > 0 then "You have " + Dec(unread) + " unread notification" + (if unread > 1 then "s" else "")
    else "All caught up! No new notifications"
  }

  /** With unread notifications the subtitle carries their number, which
      reads back as that number, and a plural ending exactly when there is
      more than one. */
  lemma SubtitleCountsUnread(unread: nat)
    requires unread > 0
    ensures exists digits :: && Subtitle(unread) == "You have " + digits + " unread notification"
                                                   + (if unread > 1 then "s" else "")
                             && (forall i :: 0 <= i < |digits| ==> IsAsciiDigit(digits[i]))
                             && DigitsValue(digits) == unread
    ensures Subtitle(unread)[|Subtitle(unread)| - 1] == 's' <==> unread > 1
  {
    DecRoundTrip(unread);
  }

  /** "Mark All Read" is offered only with something unread, "Clear All"
      only with something to clear. */
  predicate MarkAllShown(ns: seq<Notification>) { UnreadCount(ns) > 0 }
  predicate ClearAllShown(ns: seq<Notification>) { |ns| > 0 }

  /** The empty-list message for a filter. */
  function EmptyMessage(filterType: string): (r: string)
    ensures filterType == "all" ==> r == "You're all caught up!"
  {
    if filterType == "all" then "You're all caught up!"
    else "No " + SpacedLabel(Some(filterType)).value + " notifications"
  }

  /** Only the first underscore of the filter value becomes a space, so
      "new_delivery_person" reads "No new delivery_person notifications". */
  lemma EmptyMessageFirstUnderscore(before: string, after: string)
    requires '_' !in before
    ensures EmptyMessage(before + "_" + after) == "No " + before + " " + after + " notifications"
  {
    var v := before + "_" + after;
    assert v[|before|] == '_';
    assert v != "all";
    SpacedLabelFirstOnly(before, after);
  }

  // ---------------------------------------------------------------------------
  // Marking as read

  /** `handleMarkAsRead(id)`: every notification with that id becomes read;
      nothing else changes. */
  function MarkAsRead(ns: seq<Notification>, id: int): (r: seq<Notification>)
    ensures |r| == |ns|
    ensures forall i :: 0 <= i < |ns| ==> r[i].isRead == (ns[i].isRead || ns[i].id == id)
    ensures forall i :: 0 <= i < |ns| ==> r[i].(isRead := ns[i].isRead) == ns[i]
  {
    seq(|ns|, i requires 0 <= i < |ns| => if ns[i].id == id then ns[i].(isRead := true) else ns[i])
  }

  /** Marking again changes nothing; marking an id that is already read, or
      absent, changes nothing at all; and the unread count drops, strictly
      when the id was unread. */
  lemma MarkAsReadSettles(ns: seq<Notification>, id: int)
    ensures MarkAsRead(MarkAsRead(ns, id), id) == MarkAsRead(ns, id)
    ensures (forall i :: 0 <= i < |ns| && ns[i].id == id ==> ns[i].isRead) ==> MarkAsRead(ns, id) == ns
  {
    var once := MarkAsRead(ns, id);
    assert forall i :: 0 <= i < |ns| ==> once[i] == once[i].(isRead := ns[i].isRead).(isRead := once[i].isRead);
  }

  lemma MarkAsReadLowersUnread(ns: seq<Notification>, id: int)
    ensures UnreadCount(MarkAsRead(ns, id)) <= UnreadCount(ns)
    ensures (exists i :: 0 <= i < |ns| && ns[i].id == id && !ns[i].isRead) ==>
              UnreadCount(MarkAsRead(ns, id)) < UnreadCount(ns)
  {
    var r := MarkAsRead(ns, id);
    CountPointwise(r, ns, IsUnread, IsUnread);
  }

  /** `handleMarkAllAsRead`: every notification read, nothing else changed. */
  function MarkAllAsRead(ns: seq<Notification>): (r: seq<Notification>)
    ensures |r| == |ns|
    ensures forall i :: 0 <= i < |ns| ==> r[i].isRead && r[i].(isRead := ns[i].isRead) == ns[i]
  {
    seq(|ns|, i requires 0 <= i < |ns| => ns[i].(isRead := true))
  }

  /** After "Mark All Read" nothing is unread, so the button disappears and
      the subtitle says all is caught up; marking all again changes
      nothing. */
  lemma MarkAllClearsUnread(ns: seq<Notification>)
    ensures UnreadCount(MarkAllAsRead(ns)) == 0
    ensures !MarkAllShown(MarkAllAsRead(ns))
    ensures MarkAllAsRead(MarkAllAsRead(ns)) == MarkAllAsRead(ns)
  {
    FilterNone(MarkAllAsRead(ns), IsUnread);
  }

  // ---------------------------------------------------------------------------
  // Deleting and clearing

  /** `handleDelete(id)`: the notifications with another id, in order. */
  function Delete(ns: seq<Notification>, id: int): (r: seq<Notification>)
    ensures IsSubsequence(r, ns)
    ensures forall i :: 0 <= i < |r| ==> r[i].id != id
    ensures forall i :: 0 <= i < |ns| && ns[i].id != id ==> ns[i] in r
    ensures forall n :: multiset(r)[n] == if n.id != id then multiset(ns)[n] else 0
  {
    FilterCounts(ns, (n: Notification) => n.id != id);
    Filter(ns, (n: Notification) => n.id != id)
  }

  /** Deleting an id that is not listed changes nothing, so deleting twice
      is deleting once. */
  lemma DeleteSettles(ns: seq<Notification>, id: int)
    ensures (forall i :: 0 <= i < |ns| ==> ns[i].id != id) ==> Delete(ns, id) == ns
    ensures Delete(Delete(ns, id), id) == Delete(ns, id)
  {
    if forall i :: 0 <= i < |ns| ==> ns[i].id != id {
      FilterAll(ns, (n: Notification) => n.id != id);
    }
    FilterAll(Delete(ns, id), (n: Notification) => n.id != id);
  }

  /** The list update of `handleClearAll`: the list empties only when
      confirmed. */
  function ClearAll(ns: seq<Notification>, confirmed: bool): (r: seq<Notification>)
    ensures confirmed ==> r == [] && !ClearAllShown(r) && UnreadCount(r) == 0
    ensures !confirmed ==> r == ns
  {
    if confirmed then [] else ns
  }

  // ---------------------------------------------------------------------------
  // The handlers

  /** What the page holds: the list, the active filter, and the last toast. */
  datatype Page = Page(notifications: seq<Notification>, filterType: string, toast: Toast)

  /** `handleMarkAsRead(id)`: the list update, then "Marked as read". */
  function HandleMarkAsRead(p: Page, id: int): (r: Page)
    ensures r.notifications == MarkAsRead(p.notifications, id) && r.filterType == p.filterType
    ensures r.toast == SuccessToast("Marked as read")
  {
    Page(MarkAsRead(p.notifications, id), p.filterType, SuccessToast("Marked as read"))
  }

  /** `handleMarkAllAsRead`: the list update, then "All notifications
      marked as read". */
  function HandleMarkAllAsRead(p: Page): (r: Page)
    ensures r.notifications == MarkAllAsRead(p.notifications) && r.filterType == p.filterType
    ensures r.toast == SuccessToast("All notifications marked as read")
  {
    Page(MarkAllAsRead(p.notifications), p.filterType, SuccessToast("All notifications marked as read"))
  }

  /** `handleDelete(id)`: the list update, then "Notification deleted". */
  function HandleDelete(p: Page, id: int): (r: Page)
    ensures r.notifications == Delete(p.notifications, id) && r.filterType == p.filterType
    ensures r.toast == SuccessToast("Notification deleted")
  {
    Page(Delete(p.notifications, id), p.filterType, SuccessToast("Notification deleted"))
  }

  /** `handleClearAll`: a confirmed clear empties the list and raises "All
      notifications cleared"; a declined one changes nothing, not even the
      toast. */
  function HandleClearAll(p: Page, confirmed: bool): (r: Page)
    ensures confirmed ==> r == p.(notifications := [], toast := SuccessToast("All notifications cleared"))
    ensures !confirmed ==> r == p
  {
    if confirmed then Page(ClearAll(p.notifications, true), p.filterType, SuccessToast("All notifications cleared"))
    else p
  }

  /** After "Mark All Read" the unread filter shows nothing, whatever filter
      is active, and marking one as read afterwards changes only the toast. */
  lemma MarkAllThenOne(p: Page, id: int)
    ensures Shown(HandleMarkAllAsRead(p).notifications, "unread") == []
    ensures var q := HandleMarkAllAsRead(p);
            HandleMarkAsRead(q, id) == q.(toast := SuccessToast("Marked as read"))
  {
    var q := HandleMarkAllAsRead(p);
    FilterNone(q.notifications, n => Keeps("unread", n));
    MarkAsReadSettles(q.notifications, id);
  }

  /** Deleting a notification removes it from every filter's view. */
  lemma DeletedIsNeverShown(p: Page, id: int, filterType: string)
    ensures forall i :: 0 <= i < |Shown(HandleDelete(p, id).notifications, filterType)| ==>
              Shown(HandleDelete(p, id).notifications, filterType)[i].id != id
  {
    var ns := HandleDelete(p, id).notifications;
    forall i | 0 <= i < |Shown(ns, filterType)| ensures Shown(ns, filterType)[i].id != id {
      var n := Shown(ns, filterType)[i];
      assert n in multiset(Shown(ns, filterType));
      assert n in multiset(ns);
    }
  }
}
