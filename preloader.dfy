/**
 * The scroll lock of src/preloader.js: while the preloader plays, the root
 * and the body stop scrolling and the body ignores the pointer; on pages
 * driven by Lenis a `scroll-locked` class and a `<style id=
 * "loader-scroll-lock">` tag pin the page as well.
 */
module Preloader {
  import opened JsText
  import opened Dom

  /** The id of the style tag the lock adds to the head. */
  const LockTagId := "loader-scroll-lock"
  const LockedClass := "scroll-locked"

  /**
   * The part of the document the lock touches: the inline styles of the
   * root and the body, the root's classes, and the ids of the head's
   * elements in document order.
   */
  datatype Page = Page(htmlStyle: Style, bodyStyle: Style, rootClasses: set<string>, head: seq<string>)

  /** The number of lock style tags in the head. */
  function LockTags(p: Page): nat {
    multiset(p.head)[LockTagId]
  }

  predicate HasLenisClass(p: Page) {
    "lenis" in p.rootClasses || "lenis-smooth" in p.rootClasses
  }

  /** `initPreloaderLock`, with `addScrollLockStyles` when the root has a Lenis class. */
  function Lock(p: Page): (r: Page)
  {
    var html := SetStyle(p.htmlStyle, "overflow", "hidden");
    var body := SetStyle(SetStyle(p.bodyStyle, "overflow", "hidden"), "pointer-events", "none");
    if HasLenisClass(p) then Page(html, body, p.rootClasses + {LockedClass}, p.head + [LockTagId])
    else Page(html, body, p.rootClasses, p.head)
  }

  /** The head without the first element whose id is `id`, which `getElementById` finds. */
  function RemoveFirst(head: seq<string>, id: string): (r: seq<string>)
    ensures id !in head ==> r == head
    ensures id in head ==> multiset(r) == multiset(head) - multiset{id}
    ensures id in head ==> exists i :: 0 <= i < |head| && head[i] == id && id !in head[..i] && r == head[..i] + head[i + 1..]
  {
    match FirstIndexOf(head, id)
    case None => head
    case Some(i) =>
      assert head == head[..i] + [head[i]] + head[i + 1..];
      head[..i] + head[i + 1..]
  }

  /** `removePreloaderLock`. */
  function Unlock(p: Page): (r: Page)
  {
    var html := SetStyle(p.htmlStyle, "overflow", "");
    var body := SetStyle(SetStyle(p.bodyStyle, "overflow", ""), "pointer-events", "");
    Page(html, body, p.rootClasses - {LockedClass}, RemoveFirst(p.head, LockTagId))
  }

  /**
   * The lock hides the overflow of the root and the body and turns the
   * body's pointer events off; the class and exactly one tag are added
   * when, and only when, the root has `lenis` or `lenis-smooth`.
   */
  lemma LockEffect(p: Page)
    ensures var r := Lock(p);
            r.htmlStyle["overflow"] == "hidden" && r.bodyStyle["overflow"] == "hidden"
            && r.bodyStyle["pointer-events"] == "none"
            && (LockedClass in r.rootClasses <==> LockedClass in p.rootClasses || HasLenisClass(p))
            && (LockTags(r) == LockTags(p) + 1 <==> HasLenisClass(p))
            && (!HasLenisClass(p) ==> r.head == p.head)
  {
    if HasLenisClass(p) {
      assert multiset(p.head + [LockTagId]) == multiset(p.head) + multiset{LockTagId};
    }
  }

  /**
   * The unlock clears the three inline properties and the class, and
   * removes one lock tag if there is any; the rest of the head stays.
   */
  lemma UnlockEffect(p: Page)
    ensures var r := Unlock(p);
            "overflow" !in r.htmlStyle && "overflow" !in r.bodyStyle && "pointer-events" !in r.bodyStyle
            && LockedClass !in r.rootClasses
            && LockTags(r) == (if LockTags(p) == 0 then 0 else LockTags(p) - 1)
            && (forall id :: id != LockTagId ==> multiset(r.head)[id] == multiset(p.head)[id])
  {
  }

  /** Lock then unlock on a page that had neither class nor tag leaves both absent. */
  lemma LockThenUnlock(p: Page)
    requires LockedClass !in p.rootClasses && LockTags(p) == 0
    ensures LockedClass !in Unlock(Lock(p)).rootClasses && LockTags(Unlock(Lock(p))) == 0
    ensures Unlock(Lock(p)).rootClasses == p.rootClasses
  {
    var l := Lock(p);
    assert l.rootClasses - {LockedClass} == p.rootClasses;
    assert LockTags(l) <= 1 by {
      LockEffect(p);
    }
    var u := Unlock(l);
    assert LockTags(u) == 0 by {
      UnlockEffect(l);
    }
  }

  /**
   * A second unlock changes nothing exactly when at most one lock tag was
   * present: with two tags, each unlock removes one.
   */
  lemma UnlockIdempotentIff(p: Page)
    ensures Unlock(Unlock(p)) == Unlock(p) <==> LockTags(p) <= 1
  {
    var r := Unlock(p);
    UnlockEffect(p);
    if LockTags(p) <= 1 {
      assert LockTagId !in r.head by {
        assert multiset(r.head)[LockTagId] == 0;
      }
      ClearedStyleStays(r.htmlStyle, "overflow");
      ClearedStyleStays(r.bodyStyle, "overflow");
      ClearedStyleStays(r.bodyStyle, "pointer-events");
      assert r.rootClasses - {LockedClass} == r.rootClasses;
    } else {
      UnlockEffect(r);
      assert LockTags(Unlock(r)) != LockTags(r);
    }
  }

  /** Clearing a property the style does not have changes nothing. */
  lemma ClearedStyleStays(st: Style, prop: string)
    requires prop !in st
    ensures SetStyle(st, prop, "") == st
  {
  }

  /**
   * The lock runs when its module loads and again from the main script; on
   * a Lenis page that leaves two tags, and the one unlock the preloader
   * animation performs leaves one of them in the head, while the class it
   * targets is gone.
   */
  lemma DoubleLockLeavesOneTag(p: Page)
    requires HasLenisClass(p) && LockTags(p) == 0
    ensures LockTags(Lock(Lock(p))) == 2
    ensures LockTags(Unlock(Lock(Lock(p)))) == 1 && LockedClass !in Unlock(Lock(Lock(p))).rootClasses
  {
    LockEffect(p);
    LockEffect(Lock(p));
    UnlockEffect(Lock(Lock(p)));
  }

  /** The document, as the two exported functions update it. */
  class Document {
    var htmlStyle: Style
    var bodyStyle: Style
    var rootClasses: set<string>
    var head: seq<string>

    constructor (p: Page)
      ensures State() == p
    {
      htmlStyle, bodyStyle, rootClasses, head := p.htmlStyle, p.bodyStyle, p.rootClasses, p.head;
    }

    ghost function State(): Page
      reads this
    {
      Page(htmlStyle, bodyStyle, rootClasses, head)
    }

    /** `initPreloaderLock`. */
    method InitPreloaderLock()
      modifies this
      ensures State() == Lock(old(State()))
    {
      htmlStyle := SetStyle(htmlStyle, "overflow", "hidden");
      bodyStyle := SetStyle(bodyStyle, "overflow", "hidden");
      bodyStyle := SetStyle(bodyStyle, "pointer-events", "none");
      var hasLenisClass := "lenis" in rootClasses || "lenis-smooth" in rootClasses;
      if hasLenisClass {
        rootClasses := rootClasses + {LockedClass};
        AddScrollLockStyles();
      }
    }

    /** `addScrollLockStyles`: a new style tag with the lock id at the end of the head. */
    method AddScrollLockStyles()
      modifies this
      ensures head == old(head) + [LockTagId]
      ensures htmlStyle == old(htmlStyle) && bodyStyle == old(bodyStyle) && rootClasses == old(rootClasses)
    {
      head := head + [LockTagId];
    }

    /** `removePreloaderLock`. */
    method RemovePreloaderLock()
      modifies this
      ensures State() == Unlock(old(State()))
    {
      var html := SetStyle(htmlStyle, "overflow", "");
      var body := SetStyle(bodyStyle, "overflow", "");
      body := SetStyle(body, "pointer-events", "");
      var styleTag := FirstIndexOf(head, LockTagId);
      var remaining := head;
      if styleTag.Some? {
        remaining := head[..styleTag.value] + head[styleTag.value + 1..];
      }
      assert remaining == RemoveFirst(head, LockTagId);
      htmlStyle, bodyStyle, rootClasses, head := html, body, rootClasses - {LockedClass}, remaining;
    }
  }

  /**
   * The page's life: the module's own lock, the main script's lock, then
   * the unlock at the end of the preloader animation.
   */
  method PreloaderLifecycle(d: Document)
    requires HasLenisClass(d.State()) && LockTags(d.State()) == 0
    modifies d
    ensures LockTags(d.State()) == 1
    ensures "overflow" !in d.htmlStyle && "pointer-events" !in d.bodyStyle
  {
    ghost var p := d.State();
    d.InitPreloaderLock();
    d.InitPreloaderLock();
    d.RemovePreloaderLock();
    DoubleLockLeavesOneTag(p);
    UnlockEffect(Lock(Lock(p)));
  }
}
