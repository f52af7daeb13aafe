/** The page frame shared by every page: the notification list with its unread count and
    "mark all read", the dark/light theme button, and the sidebar's active-link rule. */
module Layout {
  import opened Wrappers

  // ---------------------------------------------------------------------------
  // Notifications

  datatype Notification = Notification(id: int, title: string, message: string, read: bool)

  const InitialNotifications: seq<Notification> := [
    Notification(1, "Bill Due", "Electricity bill due tomorrow", false),
    Notification(2, "Salary Credited", "Your salary has been credited", false),
    Notification(3, "Loan Approved", "Your loan application was approved", true)
  ]

  /** `notifications.filter(n => !n.read).length`. */
  function UnreadCount(ns: seq<Notification>): (r: nat)
    ensures r <= |ns|
  {
    if ns == [] then 0 else (if ns[0].read then 0 else 1) + UnreadCount(ns[1..])
  }

  /** The count is zero exactly when every notification is read. */
  lemma {:induction false} UnreadCountZeroIff(ns: seq<Notification>)
    ensures UnreadCount(ns) == 0 <==> forall i :: 0 <= i < |ns| ==> ns[i].read
  {
    if ns != [] {
      UnreadCountZeroIff(ns[1..]);
      assert forall i :: 1 <= i < |ns| ==> ns[i] == ns[1..][i - 1];
    }
  }

  /** `notifications.map(n => ({ ...n, read: true }))`. */
  function AllRead(ns: seq<Notification>): (r: seq<Notification>)
    ensures |r| == |ns|
    ensures forall i :: 0 <= i < |ns| ==> r[i] == ns[i].(read := true)
  {
    if ns == [] then [] else [ns[0].(read := true)] + AllRead(ns[1..])
  }

  /** After "mark all read" nothing is unread, so the bell's dot and the button go away;
      ids, titles and messages stay where they were. */
  lemma MarkAllReadClearsUnread(ns: seq<Notification>)
    ensures UnreadCount(AllRead(ns)) == 0
    ensures forall i :: 0 <= i < |ns| ==>
      AllRead(ns)[i].id == ns[i].id && AllRead(ns)[i].title == ns[i].title
      && AllRead(ns)[i].message == ns[i].message
  {
    UnreadCountZeroIff(AllRead(ns));
  }

  /** Marking all read a second time changes nothing. */
  lemma AllReadIdempotent(ns: seq<Notification>)
    ensures AllRead(AllRead(ns)) == AllRead(ns)
  {
  }

  /** The shipped list has two unread notifications. */
  lemma InitialUnreadCount()
    ensures UnreadCount(InitialNotifications) == 2
  {
    var ns := InitialNotifications;
    assert ns[1..][1..][1..] == [];
  }

  // ---------------------------------------------------------------------------
  // Theme

  /** The theme the button switches to: 'light' from 'dark', 'dark' from anything else,
      including no theme yet and "system". */
  function NextTheme(theme: Option<string>): (r: string)
    ensures r == "light" || r == "dark"
    ensures r == "light" <==> theme == Some("dark")
  {
    if theme == Some("dark") then "light" else "dark"
  }

  /** Between 'dark' and 'light' the button flips back and forth; from any other value
      two presses end on 'light'. */
  lemma NextThemeTwice(theme: Option<string>)
    ensures theme == Some("dark") || theme == Some("light") ==>
      NextTheme(Some(NextTheme(theme))) == theme.value
    ensures NextTheme(Some(NextTheme(theme))) == "light" <==> theme != Some("dark")
  {
  }

  // ---------------------------------------------------------------------------
  // Navigation

  /** The sidebar's links, in order. */
  const NavHrefs: seq<string> := ["/dashboard", "/expenses", "/budget", "/loans", "/goals",
                                  "/chat", "/link-bank", "/settings", "/about"]

  /** A link is highlighted when the location is exactly its href. */
  predicate IsActive(location: string, href: string) {
    location == href
  }

  function ActiveLinks(location: string, hrefs: seq<string>): (r: seq<string>)
    ensures forall h :: h in r ==> h in hrefs && IsActive(location, h)
  {
    if hrefs == [] then []
    else (if IsActive(location, hrefs[0]) then [hrefs[0]] else []) + ActiveLinks(location, hrefs[1..])
  }

  predicate Distinct(hrefs: seq<string>) {
    forall i, j :: 0 <= i < j < |hrefs| ==> hrefs[i] != hrefs[j]
  }

  /** Among distinct hrefs, exactly one link is active when the location is one of them,
      and none otherwise. */
  lemma {:induction false} ActiveLinksCount(location: string, hrefs: seq<string>)
    requires Distinct(hrefs)
    ensures |ActiveLinks(location, hrefs)| == if location in hrefs then 1 else 0
  {
    if hrefs != [] {
      var tail := hrefs[1..];
      assert Distinct(tail) by {
        forall i, j | 0 <= i < j < |tail| ensures tail[i] != tail[j] {
          assert tail[i] == hrefs[i + 1] && tail[j] == hrefs[j + 1];
        }
      }
      ActiveLinksCount(location, tail);
      assert location in hrefs <==> location == hrefs[0] || location in tail;
      if location == hrefs[0] {
        forall k | 0 <= k < |tail| ensures tail[k] != location {
          assert tail[k] == hrefs[k + 1];
        }
      }
    }
  }

  /** The sidebar highlights at most one link, and one exactly on its own routes. */
  lemma SidebarHighlightsOne(location: string)
    ensures |ActiveLinks(location, NavHrefs)| == if location in NavHrefs then 1 else 0
  {
    ActiveLinksCount(location, NavHrefs);
  }

  // ---------------------------------------------------------------------------
  // The frame's state

  class Frame {
    var notifications: seq<Notification>
    /** The theme as the theme provider reports it; `None` before it has one. */
    var theme: Option<string>
    /** Set once the first effect has run; the theme button exists only from then on. */
    var mounted: bool

    constructor (storedTheme: Option<string>)
      ensures notifications == InitialNotifications && theme == storedTheme && !mounted
    {
      notifications := InitialNotifications;
      theme := storedTheme;
      mounted := false;
    }

    method Mount()
      modifies this
      ensures mounted && notifications == old(notifications) && theme == old(theme)
    {
      mounted := true;
    }

    /** Whether the bell shows its dot and the popover its "Mark all read" button. */
    function HasUnread(): (r: bool)
      reads this
      ensures r <==> exists i :: 0 <= i < |notifications| && !notifications[i].read
    {
      UnreadCountZeroIff(notifications);
      UnreadCount(notifications) > 0
    }

    method MarkAllRead()
      modifies this
      ensures notifications == AllRead(old(notifications))
      ensures theme == old(theme) && mounted == old(mounted)
    {
      notifications := AllRead(notifications);
    }

    /** The sun/moon button; before mounting there is no button to press. */
    method ToggleTheme()
      modifies this
      ensures mounted ==> theme == Some(NextTheme(old(theme)))
      ensures !mounted ==> theme == old(theme)
      ensures notifications == old(notifications) && mounted == old(mounted)
    {
      if mounted {
        theme := Some(NextTheme(theme));
      }
    }
  }
}
