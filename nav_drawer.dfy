/** The slide-in navigation menu of portfolio/script.js: the toggle button's
    aria-expanded attribute, the menu's `active` class and the overlay's
    `active` class, changed by four event handlers. The handlers exist only
    when the page has both the toggle button and the menu; the overlay is
    optional. */
module NavDrawer {
  import opened JsRuntime

  /** The attribute (None while the markup does not set it) and the two classes. */
  datatype NavState = NavState(ariaExpanded: Option<string>, menuActive: bool, overlayActive: bool)

  /** `getAttribute('aria-expanded') === 'true'` */
  predicate Expanded(s: NavState) {
    s.ariaExpanded == Some("true")
  }

  /** The attribute and the classes agree: expanded exactly when the menu is
      open, and the overlay (if there is one) with it. */
  predicate Synced(s: NavState, hasOverlay: bool) {
    (Expanded(s) <==> s.menuActive) && (hasOverlay ==> s.overlayActive == s.menuActive)
  }

  /** The closed state every closing handler produces. */
  predicate Closed(s: NavState, hasOverlay: bool) {
    s.ariaExpanded == Some("false") && !s.menuActive && (hasOverlay ==> !s.overlayActive)
  }

  /** The hamburger's click handler. */
  function Toggle(s: NavState, hasOverlay: bool): (r: NavState)
    ensures Expanded(r) <==> !Expanded(s)
    ensures r.ariaExpanded.Some? && (r.ariaExpanded.value == "true" || r.ariaExpanded.value == "false")
    ensures r.menuActive == !s.menuActive
    ensures r.overlayActive == if hasOverlay then !s.overlayActive else s.overlayActive
    ensures Synced(s, hasOverlay) ==> Synced(r, hasOverlay)
  {
    var isExpanded := Expanded(s);
    NavState(Some(if !isExpanded then "true" else "false"), !s.menuActive,
             if hasOverlay then !s.overlayActive else s.overlayActive)
  }

  /** The handlers of a menu link and of the overlay: whatever the state was,
      the menu ends closed and in sync. */
  function Close(s: NavState, hasOverlay: bool): (r: NavState)
    ensures Closed(r, hasOverlay) && Synced(r, hasOverlay)
    ensures !hasOverlay ==> r.overlayActive == s.overlayActive
  {
    NavState(Some("false"), false, if hasOverlay then false else s.overlayActive)
  }

  /** The keydown handler: it closes the menu on Escape, and only while the menu is open. */
  function KeyDown(s: NavState, key: string, hasOverlay: bool): (r: NavState)
    ensures key != "Escape" || !s.menuActive ==> r == s
    ensures key == "Escape" && s.menuActive ==> Closed(r, hasOverlay)
    ensures Synced(s, hasOverlay) ==> Synced(r, hasOverlay)
  {
    if key == "Escape" && s.menuActive then Close(s, hasOverlay) else s
  }

  /** Closing twice is closing once. */
  lemma CloseIdempotent(s: NavState, hasOverlay: bool)
    ensures Close(Close(s, hasOverlay), hasOverlay) == Close(s, hasOverlay)
  {
  }

  /** From a synced state, toggling twice returns to it, up to writing the
      attribute explicitly as "false" where the markup had none. */
  lemma ToggleTwice(s: NavState, hasOverlay: bool)
    requires Synced(s, hasOverlay) && s.ariaExpanded.Some? && (s.ariaExpanded.value == "true" || s.ariaExpanded.value == "false")
    ensures Toggle(Toggle(s, hasOverlay), hasOverlay) == s
  {
  }

  datatype Event = ToggleClick | LinkClick | OverlayClick | Key(key: string)

  /** One event; an overlay click cannot happen on a page without an overlay. */
  function Apply(s: NavState, e: Event, hasOverlay: bool): NavState {
    match e
    case ToggleClick => Toggle(s, hasOverlay)
    case LinkClick => Close(s, hasOverlay)
    case OverlayClick => if hasOverlay then Close(s, hasOverlay) else s
    case Key(k) => KeyDown(s, k, hasOverlay)
  }

  function ApplyAll(s: NavState, es: seq<Event>, hasOverlay: bool): NavState
    decreases |es|
  {
    if es == [] then s else ApplyAll(Apply(s, es[0], hasOverlay), es[1..], hasOverlay)
  }

  /** The sync invariant: from a synced start, no sequence of events ever
      lets the attribute and the classes disagree. */
  lemma {:induction false} SyncedForever(s: NavState, es: seq<Event>, hasOverlay: bool)
    requires Synced(s, hasOverlay)
    ensures Synced(ApplyAll(s, es, hasOverlay), hasOverlay)
    decreases |es|
  {
    if es != [] {
      SyncedForever(Apply(s, es[0], hasOverlay), es[1..], hasOverlay);
    }
  }

  /** Whatever happened before, a link click is followed by a synced state,
      and from then on the invariant holds. */
  lemma {:induction false} SyncedAfterLinkClick(s: NavState, es: seq<Event>, hasOverlay: bool)
    ensures Synced(ApplyAll(s, [LinkClick] + es, hasOverlay), hasOverlay)
  {
    assert ([LinkClick] + es)[1..] == es;
    SyncedForever(Close(s, hasOverlay), es, hasOverlay);
  }

  /** The handlers and the three pieces of DOM state they change. */
  class Drawer {
    const hasOverlay: bool
    var ariaExpanded: Option<string>
    var menuActive: bool
    var overlayActive: bool

    function State(): NavState
      reads this
    {
      NavState(ariaExpanded, menuActive, overlayActive)
    }

    constructor (hasOverlay: bool, ariaExpanded: Option<string>, menuActive: bool, overlayActive: bool)
      ensures this.hasOverlay == hasOverlay && State() == NavState(ariaExpanded, menuActive, overlayActive)
    {
      this.hasOverlay := hasOverlay;
      this.ariaExpanded := ariaExpanded;
      this.menuActive := menuActive;
      this.overlayActive := overlayActive;
    }

    method OnToggleClick()
      modifies this
      ensures State() == Toggle(old(State()), hasOverlay)
    {
      var isExpanded := ariaExpanded == Some("true");
      ariaExpanded := Some(if !isExpanded then "true" else "false");
      menuActive := !menuActive;
      if hasOverlay {
        overlayActive := !overlayActive;
      }
    }

    method OnLinkClick()
      modifies this
      ensures State() == Close(old(State()), hasOverlay)
    {
      ariaExpanded := Some("false");
      menuActive := false;
      if hasOverlay {
        overlayActive := false;
      }
    }

    /** Registered only when the page has an overlay. */
    method OnOverlayClick()
      requires hasOverlay
      modifies this
      ensures State() == Close(old(State()), hasOverlay)
    {
      ariaExpanded := Some("false");
      menuActive := false;
      overlayActive := false;
    }

    method OnKeyDown(key: string)
      modifies this
      ensures State() == KeyDown(old(State()), key, hasOverlay)
    {
      if key == "Escape" && menuActive {
        ariaExpanded := Some("false");
        menuActive := false;
        if hasOverlay {
          overlayActive := false;
        }
      }
    }
  }
}
