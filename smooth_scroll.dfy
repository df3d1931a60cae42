/**
 * The smooth-scroll handle of src/main.js and the page-transition hooks
 * that drive it: at most one scroll-engine instance, the classes it leaves
 * on the root element, and the flag the browser-history guard reads.
 */
module SmoothScroll {
  import opened JsText
  import opened Dom

  const LenisClass := "lenis"
  const SmoothClass := "lenis-smooth"
  const StoppedClass := "lenis-stopped"

  const GridPage := "grid-page"
  const CmsPage := "cms-page"

  /** The scroll-engine instance, reduced to whether it has been stopped. */
  datatype Engine = Engine(stopped: bool)

  /**
   * The module-level variables `lenis`, `lenisScrollListener` and
   * `lenisTicker`, with the class list of the root element.
   */
  datatype Handle = Handle(lenis: Option<Engine>, listening: bool, ticking: bool, rootClasses: set<string>)

  /**
   * The listener and the ticker exist exactly while an instance exists, and
   * the root classes reflect the instance's running state.
   */
  ghost predicate Consistent(h: Handle) {
    && (h.lenis.None? ==> !h.listening && !h.ticking)
    && (h.lenis.Some? ==> h.listening && h.ticking && LenisClass in h.rootClasses)
    && (h.lenis.Some? && h.lenis.value.stopped ==> StoppedClass in h.rootClasses && SmoothClass !in h.rootClasses)
    && (h.lenis.Some? && !h.lenis.value.stopped ==> SmoothClass in h.rootClasses)
  }

  /** True of a handle whose instance exists and runs. */
  ghost predicate Running(h: Handle) {
    h.lenis == Some(Engine(false)) && SmoothClass in h.rootClasses
  }

  /** True of a handle whose instance, if any, is stopped. */
  ghost predicate Halted(h: Handle) {
    h.lenis.Some? ==> h.lenis.value.stopped && StoppedClass in h.rootClasses && SmoothClass !in h.rootClasses
  }

  /**
   * `initLenis`: creates a running instance, wires the listener and the
   * ticker and adds `lenis` and `lenis-smooth`, but only when the library
   * is loaded and no instance exists.
   */
  function Init(h: Handle, libraryLoaded: bool): (r: Handle)
    requires Consistent(h)
    ensures Consistent(r)
    ensures libraryLoaded && h.lenis.None? ==> Running(r) && r.rootClasses == h.rootClasses + {LenisClass, SmoothClass}
    ensures !(libraryLoaded && h.lenis.None?) ==> r == h
  {
    if libraryLoaded && h.lenis.None? then
      Handle(Some(Engine(false)), true, true, h.rootClasses + {LenisClass, SmoothClass})
    else h
  }

  /** `pauseLenis`: stops an existing instance and swaps `lenis-smooth` for `lenis-stopped`. */
  function Pause(h: Handle): (r: Handle)
    requires Consistent(h)
    ensures Consistent(r) && Halted(r)
    ensures h.lenis.None? ==> r == h
    ensures h.lenis.Some? ==> r.lenis == Some(Engine(true)) && r.listening && r.ticking
    ensures h.lenis.Some? ==> r.rootClasses == h.rootClasses + {StoppedClass} - {SmoothClass}
  {
    if h.lenis.Some? then h.(lenis := Some(Engine(true)), rootClasses := h.rootClasses + {StoppedClass} - {SmoothClass})
    else h
  }

  /** `resumeLenis`: restarts an existing instance and swaps `lenis-stopped` for `lenis-smooth`. */
  function Resume(h: Handle): (r: Handle)
    requires Consistent(h)
    ensures Consistent(r)
    ensures h.lenis.None? ==> r == h
    ensures h.lenis.Some? ==> Running(r) && StoppedClass !in r.rootClasses
    ensures h.lenis.Some? ==> r.rootClasses == h.rootClasses - {StoppedClass} + {SmoothClass}
  {
    if h.lenis.Some? then h.(lenis := Some(Engine(false)), rootClasses := h.rootClasses - {StoppedClass} + {SmoothClass})
    else h
  }

  /** `destroyLenis`: back to no instance, with the three engine classes removed. */
  function Destroy(h: Handle): (r: Handle)
    requires Consistent(h)
    ensures Consistent(r) && r.lenis.None?
    ensures h.lenis.Some? ==> r.rootClasses == h.rootClasses - {LenisClass, SmoothClass, StoppedClass}
    ensures h.lenis.None? ==> r == h
  {
    if h.lenis.Some? then Handle(None, false, false, h.rootClasses - {LenisClass, SmoothClass, StoppedClass})
    else h
  }

  /** The `beforeLeave` hook: pauses only on a grid-page to cms-page transition. */
  function BeforeLeave(h: Handle, current: string, next: string): (r: Handle)
    requires Consistent(h)
    ensures Consistent(r)
  {
    if current == GridPage && next == CmsPage then Pause(h) else h
  }

  /**
   * The scroll part of the `beforeEnter` hook and of the grid-page view's
   * `afterEnter`: into a grid page, resume an instance or create one; into a
   * cms page, pause (the `beforeEnter` hook only).
   */
  function EnsureRunning(h: Handle, libraryLoaded: bool): (r: Handle)
    requires Consistent(h)
    ensures Consistent(r)
  {
    if h.lenis.Some? then Resume(h) else Init(h, libraryLoaded)
  }

  function BeforeEnter(h: Handle, next: string, libraryLoaded: bool): (r: Handle)
    requires Consistent(h)
    ensures Consistent(r)
  {
    if next == GridPage then EnsureRunning(h, libraryLoaded)
    else if next == CmsPage then Pause(h)
    else h
  }

  /** Leaving a page pauses scrolling exactly on a grid-page to cms-page transition. */
  lemma BeforeLeavePausesOnlyGridToCms(h: Handle, current: string, next: string)
    requires Consistent(h) && h.lenis.Some? && !h.lenis.value.stopped
    ensures BeforeLeave(h, current, next).lenis.value.stopped <==> current == GridPage && next == CmsPage
    ensures !(current == GridPage && next == CmsPage) ==> BeforeLeave(h, current, next) == h
  {
  }

  /**
   * Entering a grid page leaves an instance running whenever one existed
   * or the library is loaded; entering a cms page leaves any instance stopped.
   */
  lemma BeforeEnterOutcome(h: Handle, next: string, libraryLoaded: bool)
    requires Consistent(h)
    ensures next == GridPage && (libraryLoaded || h.lenis.Some?) ==> Running(BeforeEnter(h, next, libraryLoaded))
    ensures next == GridPage && !libraryLoaded && h.lenis.None? ==> BeforeEnter(h, next, libraryLoaded) == h
    ensures next == CmsPage ==> Halted(BeforeEnter(h, next, libraryLoaded))
    ensures BeforeEnter(h, next, libraryLoaded).lenis.Some? <==> h.lenis.Some? || (next == GridPage && libraryLoaded)
  {
  }

  /** A second `initLenis` never creates a second instance. */
  lemma InitOnce(h: Handle, first: bool, second: bool)
    requires Consistent(h)
    ensures Init(h, first).lenis.Some? ==> Init(Init(h, first), second) == Init(h, first)
  {
  }

  /** `destroyLenis` is idempotent, and a pause or a resume after it does nothing. */
  lemma DestroyFinal(h: Handle)
    requires Consistent(h)
    ensures Destroy(Destroy(h)) == Destroy(h)
    ensures Pause(Destroy(h)) == Destroy(h) && Resume(Destroy(h)) == Destroy(h)
  {
  }

  /** Pausing and then resuming an instance brings back the classes it had while running. */
  lemma PauseResume(h: Handle)
    requires Consistent(h) && Running(h) && StoppedClass !in h.rootClasses
    ensures Resume(Pause(h)) == h
  {
    assert h.rootClasses + {StoppedClass} - {SmoothClass} - {StoppedClass} + {SmoothClass} == h.rootClasses;
  }

  /**
   * The state src/main.js keeps at module level, with the parts of the
   * document and window its hooks touch.
   */
  class Session {
    var lenis: Option<Engine>
    var listening: bool
    var ticking: bool
    var rootClasses: set<string>
    /** `window.scrollY` */
    var scrollY: int
    /** `wasOnCmsPage`, read by the `popstate` handler. */
    var wasOnCmsPage: bool

    ghost function State(): Handle
      reads this
    {
      Handle(lenis, listening, ticking, rootClasses)
    }

    ghost predicate Valid()
      reads this
    {
      Consistent(State())
    }

    /** The page as loaded: no instance, `wasOnCmsPage` false. */
    constructor(rootClasses: set<string>, scrollY: int)
      ensures Valid() && lenis.None? && !wasOnCmsPage
      ensures this.rootClasses == rootClasses && this.scrollY == scrollY
    {
      lenis := None;
      listening, ticking := false, false;
      this.rootClasses := rootClasses;
      this.scrollY := scrollY;
      wasOnCmsPage := false;
    }

    method InitLenis(libraryLoaded: bool)
      requires Valid()
      modifies this
      ensures Valid() && State() == Init(old(State()), libraryLoaded)
      ensures scrollY == old(scrollY) && wasOnCmsPage == old(wasOnCmsPage)
    {
      if libraryLoaded && lenis.None? {
        lenis := Some(Engine(false));
        listening := true;
        ticking := true;
        rootClasses := rootClasses + {LenisClass, SmoothClass};
      }
    }

    method PauseLenis()
      requires Valid()
      modifies this
      ensures Valid() && State() == Pause(old(State()))
      ensures scrollY == old(scrollY) && wasOnCmsPage == old(wasOnCmsPage)
    {
      if lenis.Some? {
        lenis := Some(Engine(true));
        rootClasses := rootClasses + {StoppedClass};
        rootClasses := rootClasses - {SmoothClass};
      }
    }

    method ResumeLenis()
      requires Valid()
      modifies this
      ensures Valid() && State() == Resume(old(State()))
      ensures scrollY == old(scrollY) && wasOnCmsPage == old(wasOnCmsPage)
    {
      if lenis.Some? {
        lenis := Some(Engine(false));
        rootClasses := rootClasses - {StoppedClass};
        rootClasses := rootClasses + {SmoothClass};
      }
    }

    method DestroyLenis()
      requires Valid()
      modifies this
      ensures Valid() && State() == Destroy(old(State()))
      ensures scrollY == old(scrollY) && wasOnCmsPage == old(wasOnCmsPage)
    {
      if lenis.Some? {
        rootClasses := rootClasses - {LenisClass, SmoothClass, StoppedClass};
        lenis := None;
        listening := false;
        ticking := false;
      }
    }

    /** The global `beforeLeave` hook. */
    method OnBeforeLeave(current: string, next: string)
      requires Valid()
      modifies this
      ensures Valid() && State() == BeforeLeave(old(State()), current, next)
      ensures scrollY == old(scrollY) && wasOnCmsPage == old(wasOnCmsPage)
    {
      if current == GridPage && next == CmsPage {
        PauseLenis();
      }
    }

    /**
     * The global `beforeEnter` hook; a cms page is also scrolled to the top.
     * The host-framework re-sync that runs first is not part of this model.
     */
    method OnBeforeEnter(next: string, libraryLoaded: bool)
      requires Valid()
      modifies this
      ensures Valid() && State() == BeforeEnter(old(State()), next, libraryLoaded)
      ensures scrollY == (if next == CmsPage then 0 else old(scrollY))
      ensures wasOnCmsPage == old(wasOnCmsPage)
    {
      if next == GridPage {
        if lenis.Some? {
          ResumeLenis();
        } else {
          InitLenis(libraryLoaded);
        }
      } else if next == CmsPage {
        PauseLenis();
        scrollY := 0;
      }
    }

    /**
     * `updatePageState`: `wasOnCmsPage` becomes whether the first Barba
     * container of the document (given in document order) has the
     * namespace `cms-page`.
     */
    method UpdatePageState(document: seq<Attrs>)
      requires Valid()
      modifies this
      ensures Valid() && State() == old(State()) && scrollY == old(scrollY)
      ensures wasOnCmsPage <==> exists i :: 0 <= i < |document| && IsBarbaContainer(document[i]) && IsCmsNamespace(document[i])
                                          && forall k :: 0 <= k < i ==> !IsBarbaContainer(document[k])
    {
      var c := FirstContainer(document);
      wasOnCmsPage := c.Some? && IsCmsNamespace(document[c.value]);
    }

    /** The `popstate` handler: a full reload exactly when the last view was a cms page. */
    method OnPopState() returns (reload: bool)
      ensures reload == wasOnCmsPage
    {
      reload := wasOnCmsPage;
    }

    /** The grid-page view's `afterEnter`; the deferred button stagger is modelled on its own. */
    method GridAfterEnter(libraryLoaded: bool, document: seq<Attrs>)
      requires Valid()
      modifies this
      ensures Valid() && State() == EnsureRunning(old(State()), libraryLoaded)
      ensures scrollY == old(scrollY)
      ensures wasOnCmsPage <==> exists i :: 0 <= i < |document| && IsBarbaContainer(document[i]) && IsCmsNamespace(document[i])
                                          && forall k :: 0 <= k < i ==> !IsBarbaContainer(document[k])
    {
      if lenis.Some? {
        ResumeLenis();
      } else {
        InitLenis(libraryLoaded);
      }
      UpdatePageState(document);
    }

    /** The cms-page view's `afterEnter`; the deferred stagger and section snapping are modelled on their own. */
    method CmsAfterEnter(document: seq<Attrs>)
      requires Valid()
      modifies this
      ensures Valid() && State() == Pause(old(State())) && Halted(State())
      ensures scrollY == old(scrollY)
      ensures wasOnCmsPage <==> exists i :: 0 <= i < |document| && IsBarbaContainer(document[i]) && IsCmsNamespace(document[i])
                                          && forall k :: 0 <= k < i ==> !IsBarbaContainer(document[k])
    {
      PauseLenis();
      UpdatePageState(document);
    }

    /** The `beforeunload` handler. */
    method OnBeforeUnload()
      requires Valid()
      modifies this
      ensures Valid() && State() == Destroy(old(State())) && lenis.None?
      ensures scrollY == old(scrollY) && wasOnCmsPage == old(wasOnCmsPage)
    {
      if lenis.Some? {
        DestroyLenis();
      }
    }
  }

  /**
   * A soft navigation from a grid page to a cms page: the hooks in the
   * order the transition engine runs them leave scrolling stopped, the
   * page at the top, and a later back navigation reloads the page.
   */
  method GridToCmsNavigation(s: Session, libraryLoaded: bool, incoming: seq<Attrs>) returns (reload: bool)
    requires s.Valid() && s.lenis.Some?
    requires |incoming| > 0 && IsBarbaContainer(incoming[0]) && IsCmsNamespace(incoming[0])
    modifies s
    ensures s.Valid() && s.lenis == Some(Engine(true)) && StoppedClass in s.rootClasses && SmoothClass !in s.rootClasses
    ensures s.scrollY == 0 && reload
  {
    s.OnBeforeLeave(GridPage, CmsPage);
    s.OnBeforeEnter(CmsPage, libraryLoaded);
    s.CmsAfterEnter(incoming);
    reload := s.OnPopState();
  }
}
