/** The NavigationComponent of js/navigation.js: the server-status badge, the
    mobile menu and the active navigation item. The DOM elements it finds
    at start-up are fixed: whether each one exists is a constant, and what
    the handlers write to them is a field. */
module Navigation {
  import opened Wrappers
  import opened PhpText
  import opened ClientBase

  /** The badge: the status class of the dot and the text beside it. */
  datatype StatusView = StatusView(statusClass: string, text: string)

  /** setServerStatus's classification. */
  function StatusOf(online: int, total: int, statusOverride: Option<string>): StatusView {
    if statusOverride == Some("error") then StatusView("status-offline", "Connection Error")
    else if online == total && total > 0 then StatusView("status-online", "All servers online (" + IntToString(total) + ")")
    else if online > 0 then StatusView("status-loading", IntToString(online) + "/" + IntToString(total) + " online")
    else StatusView("status-offline", "All servers offline")
  }

  /** The part of the page the menu handlers write: the open flag, the
      'active' class of the menu and of the toggle, the toggle's
      aria-expanded and the body's overflow style. */
  datatype MenuState = MenuState(isOpen: bool, menuActive: bool, toggleActive: bool,
                                 ariaExpanded: string, bodyOverflow: string)

  /** openMobileMenu (`present`: both the menu and the toggle exist). */
  function OpenSpec(m: MenuState, present: bool): MenuState {
    if !present then m else MenuState(true, true, true, "true", "hidden")
  }

  /** closeMobileMenu. */
  function CloseSpec(m: MenuState, present: bool): MenuState {
    if !present then m else MenuState(false, false, false, "false", "")
  }

  /** toggleMobileMenu. */
  function ToggleSpec(m: MenuState, present: bool): MenuState {
    if m.isOpen then CloseSpec(m, present) else OpenSpec(m, present)
  }

  /** The page shows what the flag says. */
  predicate Consistent(m: MenuState) {
    && m.menuActive == m.isOpen && m.toggleActive == m.isOpen
    && m.ariaExpanded == (if m.isOpen then "true" else "false")
    && m.bodyOverflow == (if m.isOpen then "hidden" else "")
  }

  /** The events the menu handlers emit. */
  function MenuEvents(m: MenuState, present: bool): seq<string> {
    if !present then [] else if m.isOpen then ["navigation-menu-closed"] else ["navigation-menu-opened"]
  }

  class NavigationComponent {
    /** Whether `.navbar-menu` and `.navbar-toggle` exist. */
    const hasMenu: bool
    const hasToggle: bool
    /** Whether `.status-dot` and `.status-text` exist. */
    const hasStatus: bool
    /** For each `.nav-link`, the index of its enclosing `.nav-item`, if any. */
    const linkItems: seq<Option<nat>>
    /** The 'nav-active' class of each `.nav-item`. */
    const navActive: array<bool>

    var isMenuOpen: bool
    var menuActive: bool
    var toggleActive: bool
    var ariaExpanded: string
    var bodyOverflow: string
    /** The status dot's className and the status text. */
    var statusDotClass: string
    var statusText: string
    /** The names of the events emitted, in order. */
    var events: seq<string>

    ghost predicate Valid()
      reads this
    {
      forall i :: 0 <= i < |linkItems| && linkItems[i].Some? ==> linkItems[i].value < navActive.Length
    }

    function Menu(): MenuState
      reads this
    {
      MenuState(isMenuOpen, menuActive, toggleActive, ariaExpanded, bodyOverflow)
    }

    constructor (hasMenu: bool, hasToggle: bool, hasStatus: bool, linkItems: seq<Option<nat>>, items: nat)
      requires forall i :: 0 <= i < |linkItems| && linkItems[i].Some? ==> linkItems[i].value < items
      ensures Valid() && navActive.Length == items && fresh(navActive)
      ensures this.hasMenu == hasMenu && this.hasToggle == hasToggle && this.hasStatus == hasStatus
      ensures this.linkItems == linkItems
      ensures !isMenuOpen && Consistent(Menu()) && events == []
    {
      this.hasMenu := hasMenu;
      this.hasToggle := hasToggle;
      this.hasStatus := hasStatus;
      this.linkItems := linkItems;
      navActive := new bool[items](_ => false);
      isMenuOpen := false;
      menuActive := false;
      toggleActive := false;
      ariaExpanded := "false";
      bodyOverflow := "";
      statusDotClass := "status-dot";
      statusText := "";
      events := [];
    }

    /** openMobileMenu; the focus move is not modelled. */
    method OpenMobileMenu()
      modifies this
      ensures Menu() == OpenSpec(old(Menu()), hasMenu && hasToggle)
      ensures events == old(events) + (if hasMenu && hasToggle then ["navigation-menu-opened"] else [])
      ensures statusDotClass == old(statusDotClass) && statusText == old(statusText)
    {
      if !hasMenu || !hasToggle {
        return;
      }
      isMenuOpen := true;
      menuActive := true;
      toggleActive := true;
      ariaExpanded := "true";
      bodyOverflow := "hidden";
      events := events + ["navigation-menu-opened"];
    }

    /** closeMobileMenu. */
    method CloseMobileMenu()
      modifies this
      ensures Menu() == CloseSpec(old(Menu()), hasMenu && hasToggle)
      ensures events == old(events) + (if hasMenu && hasToggle then ["navigation-menu-closed"] else [])
      ensures statusDotClass == old(statusDotClass) && statusText == old(statusText)
    {
      if !hasMenu || !hasToggle {
        return;
      }
      isMenuOpen := false;
      menuActive := false;
      toggleActive := false;
      ariaExpanded := "false";
      bodyOverflow := "";
      events := events + ["navigation-menu-closed"];
    }

    /** toggleMobileMenu. */
    method ToggleMobileMenu()
      modifies this
      ensures Menu() == ToggleSpec(old(Menu()), hasMenu && hasToggle)
      ensures events == old(events) + MenuEvents(old(Menu()), hasMenu && hasToggle)
      ensures statusDotClass == old(statusDotClass) && statusText == old(statusText)
    {
      if isMenuOpen {
        CloseMobileMenu();
      } else {
        OpenMobileMenu();
      }
    }

    /** setActiveLink: every link's item loses 'nav-active', then the
        clicked link's item gains it. */
    method SetActiveLink(link: nat)
      requires Valid() && link < |linkItems|
      modifies navActive
      ensures forall j :: 0 <= j < navActive.Length ==>
        navActive[j] == (linkItems[link] == Some(j)
                         || (old(navActive[j]) && forall i :: 0 <= i < |linkItems| ==> linkItems[i] != Some(j)))
    {
      var i := 0;
      while i < |linkItems|
        invariant 0 <= i <= |linkItems|
        invariant forall j :: 0 <= j < navActive.Length ==>
          navActive[j] == (old(navActive[j]) && forall k :: 0 <= k < i ==> linkItems[k] != Some(j))
      {
        if linkItems[i].Some? {
          navActive[linkItems[i].value] := false;
        }
        i := i + 1;
      }
      if linkItems[link].Some? {
        navActive[linkItems[link].value] := true;
      }
    }

    /** setServerStatus. */
    method SetServerStatus(online: int, total: int, statusOverride: Option<string>)
      modifies this
      ensures hasStatus ==>
        && statusDotClass == "status-dot " + StatusOf(online, total, statusOverride).statusClass
        && statusText == StatusOf(online, total, statusOverride).text
        && events == old(events) + ["server-status-updated"]
      ensures !hasStatus ==>
        statusDotClass == old(statusDotClass) && statusText == old(statusText) && events == old(events)
      ensures Menu() == old(Menu())
    {
      if !hasStatus {
        return;
      }
      var statusClass, text;
      if statusOverride == Some("error") {
        statusClass, text := "status-offline", "Connection Error";
      } else if online == total && total > 0 {
        statusClass, text := "status-online", "All servers online (" + IntToString(total) + ")";
      } else if online > 0 {
        statusClass, text := "status-loading", IntToString(online) + "/" + IntToString(total) + " online";
      } else {
        statusClass, text := "status-offline", "All servers offline";
      }
      statusDotClass := "status-dot " + statusClass;
      statusText := text;
      events := events + ["server-status-updated"];
    }

    /** updateStatus: the 'servers' request through the shared client;
        `metaOf` reads `data.data.meta`'s (online_servers, total_servers)
        when the reply has one. The badge then shows UpdateView of the
        reply, through setServerStatus. */
    method UpdateStatus(client: ApiClient, now: int, fetch: (string, string) -> Reply,
                        metaOf: Payload -> Option<(int, int)>)
      modifies this, client
      ensures var (cache, errors, r) := RequestSpec(old(client.cache), old(client.apiErrors), "servers", "{}", now, fetch);
        var view := UpdateView(r, metaOf);
        && client.cache == cache && client.apiErrors == errors
        && (hasStatus && view.Some? ==>
              && statusDotClass == "status-dot " + view.value.statusClass
              && statusText == view.value.text
              && events == old(events) + ["server-status-updated"])
        && (!hasStatus || view.None? ==>
              statusDotClass == old(statusDotClass) && statusText == old(statusText) && events == old(events))
      ensures Menu() == old(Menu())
    {
      var r := client.ApiRequest("servers", "{}", now, fetch);
      if r.Failure? {
        SetServerStatus(0, 0, Some("error"));
      } else if metaOf(r.value).Some? {
        var (online, total) := metaOf(r.value).value;
        SetServerStatus(online, total, None);
      }
    }
  }

  /** What updateStatus shows for the reply of its request: the connection
      error when the request throws, the counts of the reply's meta when it
      has one, and no change otherwise. */
  function UpdateView(r: Result<Payload, string>, metaOf: Payload -> Option<(int, int)>): (v: Option<StatusView>)
    ensures r.Failure? ==> v == Some(StatusView("status-offline", "Connection Error"))
    ensures r.Success? ==> (v.Some? <==> metaOf(r.value).Some?)
  {
    match r
    case Failure(_) => Some(StatusOf(0, 0, Some("error")))
    case Success(data) =>
      match metaOf(data)
      case None => None
      case Some((online, total)) => Some(StatusOf(online, total, None))
  }

  // ---------------------------------------------------------------------
  // Properties

  /** The four outcomes of the classification, each with its condition. */
  lemma StatusCases(online: int, total: int, statusOverride: Option<string>)
    ensures var v := StatusOf(online, total, statusOverride);
      && (statusOverride == Some("error") ==> v == StatusView("status-offline", "Connection Error"))
      && (statusOverride != Some("error") ==>
            && (v.statusClass == "status-online" <==> online == total && total > 0)
            && (v.statusClass == "status-loading" <==> online > 0 && (online != total || total <= 0))
            && (v.statusClass == "status-offline" <==> online <= 0)
            && (v.text == "All servers offline" <==> online <= 0))
      && v.statusClass in {"status-online", "status-loading", "status-offline"}
  {
    if statusOverride != Some("error") && online > 0 {
      if online == total && total > 0 {
        OnlineTextDiffers(total);
      } else {
        CountTextDiffers(online, total);
      }
    }
  }

  lemma OnlineTextDiffers(total: int)
    ensures "All servers online (" + IntToString(total) + ")" != "All servers offline"
  {
    var t := "All servers online (" + IntToString(total) + ")";
    assert t[13] == 'n';
    assert "All servers offline"[13] == 'f';
  }

  lemma CountTextDiffers(online: int, total: int)
    requires online > 0
    ensures IntToString(online) + "/" + IntToString(total) + " online" != "All servers offline"
  {
    var d := IntToString(online);
    assert d == NatToString(online);
    assert (d + "/" + IntToString(total) + " online")[0] == d[0];
    assert IsDigit(d[0]);
    assert !IsDigit("All servers offline"[0]);
  }

  /** Toggling flips the flag and leaves the page showing it, when both
      elements exist; without them nothing changes. */
  lemma ToggleFlips(m: MenuState, present: bool)
    ensures present ==> ToggleSpec(m, present).isOpen == !m.isOpen && Consistent(ToggleSpec(m, present))
    ensures !present ==> ToggleSpec(m, present) == m
  {
  }

  /** Two toggles restore the flag always, and the whole menu state when
      the page showed the flag to begin with; they emit an open and a close
      event, in the order the flag dictates. */
  lemma ToggleTwice(m: MenuState, present: bool)
    ensures ToggleSpec(ToggleSpec(m, present), present).isOpen == m.isOpen
    ensures Consistent(m) ==> ToggleSpec(ToggleSpec(m, present), present) == m
    ensures present ==>
      (MenuEvents(m, present) + MenuEvents(ToggleSpec(m, present), present)
       == if m.isOpen then ["navigation-menu-closed", "navigation-menu-opened"]
          else ["navigation-menu-opened", "navigation-menu-closed"])
  {
  }

  /** Opening and closing are idempotent. */
  lemma OpenCloseIdempotent(m: MenuState, present: bool)
    ensures OpenSpec(OpenSpec(m, present), present) == OpenSpec(m, present)
    ensures CloseSpec(CloseSpec(m, present), present) == CloseSpec(m, present)
    ensures present ==> OpenSpec(m, present).isOpen && !CloseSpec(m, present).isOpen
  {
  }

  /** When the 'servers' request fails, the failure is the reply from the
      API script's servers endpoint, the cache is untouched and the
      failure is the one dispatched; UpdateStatus then shows the
      connection error. */
  lemma FetchFailureShowsError(cache: map<string, CacheEntry>, errors: seq<string>, now: int,
                               fetch: (string, string) -> Reply)
    requires RequestSpec(cache, errors, "servers", "{}", now, fetch).2.Failure?
    ensures var (c, e, r) := RequestSpec(cache, errors, "servers", "{}", now, fetch);
      && c == cache && e == errors + [r.error]
      && r == ReplyOutcome(fetch(ApiUrl + "?endpoint=servers", "{}"))
  {
    assert "servers"[..4][0] != "http"[0];
    assert UrlOf("servers") == ApiUrl + "?endpoint=" + "servers";
    assert ApiUrl + "?endpoint=" + "servers" == ApiUrl + "?endpoint=servers";
  }
}
