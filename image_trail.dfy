/**
 * The `ImageTrail` class of src/cursor-trail.js: a trail of images that
 * follows the pointer over `[data-trail="wrapper"]`. Pointer geometry is
 * reduced to the outcome of the distance test, `Date.now()` to a
 * parameter, and each gsap fade-out to an entry in a log.
 */
module ImageTrail {
  import opened JsText

  /** A `[data-trail="item"]` element. */
  type ImageId = nat

  /** The `config` argument: `None` stands for `null` or `undefined`. */
  datatype Config = Config(minWidth: Option<int>, moveDistance: Option<int>,
                           stopDuration: Option<int>, trailLength: Option<int>)

  datatype Options = Options(minWidth: int, moveDistance: int, stopDuration: int, trailLength: int)

  /** `x ?? d`: only a missing value is replaced. */
  function Default(x: Option<int>, d: int): (r: int)
    ensures x.Some? ==> r == x.value
    ensures x.None? ==> r == d
  {
    if x.Some? then x.value else d
  }

  /** `this.options`: 992, 12, 300 and 4 stand in for missing settings. */
  function OptionsFrom(config: Config): (o: Options)
    ensures o.minWidth == Default(config.minWidth, 992)
    ensures o.moveDistance == Default(config.moveDistance, 12)
    ensures o.stopDuration == Default(config.stopDuration, 300)
    ensures o.trailLength == Default(config.trailLength, 4)
  {
    Options(Default(config.minWidth, 992), Default(config.moveDistance, 12),
            Default(config.stopDuration, 300), Default(config.trailLength, 4))
  }

  /** A setting of 0 is kept as 0, not replaced by the default as `||` would. */
  lemma ZeroSettingsAreKept()
    ensures OptionsFrom(Config(Some(0), Some(0), Some(0), Some(0))) == Options(0, 0, 0, 0)
    ensures OptionsFrom(Config(None, None, None, None)) == Options(992, 12, 300, 4)
  {
  }

  // ---------------------------------------------------------------------
  // The ring-buffer slots
  // ---------------------------------------------------------------------

  /**
   * `trailImages[globalIndex % trailImages.length]`; with no image the index
   * is NaN and the element `undefined`.
   */
  function LeadSlot(globalIndex: nat, images: seq<ImageId>): (r: Option<ImageId>)
    ensures r.Some? <==> |images| > 0
    ensures r.Some? ==> r.value in images
  {
    if |images| == 0 then None else Some(images[globalIndex % |images|])
  }

  /**
   * `trailImages[(globalIndex - trailLength) % trailImages.length]` as
   * written: JavaScript's `%` keeps the sign of a negative dividend, so a
   * negative index reads `undefined`, except that a remainder of `-0`
   * reads element 0.
   */
  function TailSlotAsWritten(globalIndex: nat, trailLength: int, images: seq<ImageId>): (r: Option<ImageId>)
    ensures r.Some? ==> r.value in images
    ensures globalIndex >= trailLength ==> r == TailSlot(globalIndex, trailLength, images)
  {
    if |images| == 0 then None
    else
      var i := JsRem(globalIndex - trailLength, |images|);
      if i >= 0 then Some(images[i]) else None
  }

  /**
   * The tail as intended: no image during the first `trailLength`
   * advances, after that the image at `globalIndex - trailLength` in the
   * ring.
   */
  function TailSlot(globalIndex: nat, trailLength: int, images: seq<ImageId>): (r: Option<ImageId>)
    ensures r.Some? <==> |images| > 0 && globalIndex >= trailLength
    ensures r.Some? ==> r.value in images
  {
    if |images| == 0 || globalIndex < trailLength then None
    else Some(images[(globalIndex - trailLength) % |images|])
  }

  /** The corrected tail is the image that was the lead `trailLength` advances earlier. */
  lemma TailIsEarlierLead(globalIndex: nat, trailLength: int, images: seq<ImageId>)
    requires globalIndex >= trailLength >= 0
    ensures TailSlot(globalIndex, trailLength, images) == LeadSlot(globalIndex - trailLength, images)
  {
  }

  /**
   * Before `trailLength` advances the written tail is element 0 exactly
   * when the distance still to go is a multiple of the image count, and
   * `undefined` otherwise.
   */
  lemma TailAsWrittenEarly(globalIndex: nat, trailLength: int, images: seq<ImageId>)
    requires |images| > 0 && globalIndex < trailLength
    ensures TailSlotAsWritten(globalIndex, trailLength, images) ==
            (if (trailLength - globalIndex) % |images| == 0 then Some(images[0]) else None)
  {
  }

  /**
   * With the default trail length of 4 and four images, the first advance
   * activates image 0 as the lead and, as written, fades that same image
   * out as the tail; the corrected tail fades nothing.
   */
  lemma FirstMoveFadesItsOwnLead()
    ensures LeadSlot(0, [10, 11, 12, 13]) == Some(10)
    ensures TailSlotAsWritten(0, 4, [10, 11, 12, 13]) == Some(10)
    ensures TailSlot(0, 4, [10, 11, 12, 13]) == None
    ensures Move(Start(InitialState), true, 1.0, 1.0, 0, 4, [10, 11, 12, 13]).fadeLog == [10]
    ensures MoveIntended(Start(InitialState), true, 1.0, 1.0, 0, 4, [10, 11, 12, 13]).fadeLog == []
  {
    assert JsRem(0 - 4, 4) == 0;
  }

  // ---------------------------------------------------------------------
  // The trail's state and its transitions
  // ---------------------------------------------------------------------

  /**
   * `this.state` with the listener wiring: `isActive`, the `mousemove`
   * listener and the cleanup interval, `globalIndex`, `last`, the timestamp
   * map, the `z-index` each activated image was given, and the fade-outs
   * started so far.
   */
  datatype TrailState = TrailState(
    active: bool, moveListening: bool, intervalSet: bool,
    globalIndex: nat, lastX: real, lastY: real,
    timestamps: map<ImageId, int>, zIndex: map<ImageId, nat>, fadeLog: seq<ImageId>)

  /** Listener wiring follows the flag; only an active trail holds timestamps; only images get them. */
  predicate Consistent(s: TrailState, images: seq<ImageId>) {
    s.moveListening == s.active && s.intervalSet == s.active
    && (!s.active ==> s.timestamps == map[])
    && (forall k :: k in s.timestamps ==> k in images)
    && (forall k :: k in s.zIndex ==> k in images && s.zIndex[k] < s.globalIndex)
  }

  const InitialState := TrailState(false, false, false, 0, 0.0, 0.0, map[], map[], [])

  /** `startTrail`. */
  function Start(s: TrailState): (r: TrailState)
    ensures r.active
    ensures s.active ==> r == s
    ensures !s.active ==> r.moveListening && r.intervalSet
    ensures r.timestamps == s.timestamps && r.globalIndex == s.globalIndex && r.fadeLog == s.fadeLog
  {
    if s.active then s else s.(active := true, moveListening := true, intervalSet := true)
  }

  /** `stopTrail`: every image starts fading out and the timestamps are dropped. */
  function Stop(s: TrailState, images: seq<ImageId>): (r: TrailState)
    ensures !r.active
    ensures !s.active ==> r == s
    ensures s.active ==> !r.moveListening && !r.intervalSet
    ensures s.active ==> r.timestamps == map[] && r.fadeLog == s.fadeLog + images
    ensures r.globalIndex == s.globalIndex
  {
    if !s.active then s
    else s.(active := false, moveListening := false, intervalSet := false,
            timestamps := map[], fadeLog := s.fadeLog + images)
  }

  lemma StartIdempotent(s: TrailState)
    ensures Start(Start(s)) == Start(s)
  {
  }

  lemma StopIdempotent(s: TrailState, images: seq<ImageId>)
    ensures Stop(Stop(s, images), images) == Stop(s, images)
  {
  }

  /** Both transitions keep the state consistent. */
  lemma StartStopConsistent(s: TrailState, images: seq<ImageId>)
    requires Consistent(s, images)
    ensures Consistent(Start(s), images)
    ensures Consistent(Stop(s, images), images)
  {
  }

  /** `handleResize` against `window.innerWidth`. */
  function Resize(s: TrailState, innerWidth: int, minWidth: int, images: seq<ImageId>): TrailState
  {
    if innerWidth < minWidth && s.active then Stop(s, images)
    else if innerWidth >= minWidth && !s.active then Start(s)
    else s
  }

  /**
   * After a resize the trail runs exactly when the window is wide enough,
   * and a resize that agrees with the current flag changes nothing.
   */
  lemma ResizeFollowsWidth(s: TrailState, innerWidth: int, minWidth: int, images: seq<ImageId>)
    ensures Resize(s, innerWidth, minWidth, images).active <==> innerWidth >= minWidth
    ensures (innerWidth >= minWidth) == s.active ==> Resize(s, innerWidth, minWidth, images) == s
    ensures Consistent(s, images) ==> Consistent(Resize(s, innerWidth, minWidth, images), images)
  {
  }

  /**
   * `activate(trailImage, x, y)`: an `undefined` image is ignored; otherwise
   * it gets the current `globalIndex` as `z-index` and a timestamp, and
   * `last` moves to the point.
   */
  function Activate(s: TrailState, image: Option<ImageId>, x: real, y: real, now: int): (r: TrailState)
    ensures image.None? ==> r == s
    ensures image.Some? ==> r.timestamps == s.timestamps[image.value := now]
                            && r.zIndex == s.zIndex[image.value := s.globalIndex]
                            && r.lastX == x && r.lastY == y
    ensures r.globalIndex == s.globalIndex && r.active == s.active && r.fadeLog == s.fadeLog
  {
    if image.None? then s
    else s.(timestamps := s.timestamps[image.value := now],
            zIndex := s.zIndex[image.value := s.globalIndex], lastX := x, lastY := y)
  }

  /** `fadeOutTrailImage(trailImage)`: an `undefined` image is ignored. */
  function FadeOut(s: TrailState, image: Option<ImageId>): TrailState
  {
    if image.Some? then s.(fadeLog := s.fadeLog + [image.value]) else s
  }

  /**
   * One advance of the trail with the tail slot `tail`: activate the lead,
   * fade the tail and move `globalIndex` on by one.
   */
  function Advance(s: TrailState, x: real, y: real, now: int, images: seq<ImageId>, tail: Option<ImageId>): TrailState
  {
    var t := FadeOut(Activate(s, LeadSlot(s.globalIndex, images), x, y, now), tail);
    t.(globalIndex := t.globalIndex + 1)
  }

  /**
   * `handleOnMove` as written: `far` is the outcome of the test "distance
   * from `last` exceeds `innerWidth / moveDistance`". An advance fades the
   * tail `TailSlotAsWritten` reads.
   */
  function Move(s: TrailState, far: bool, x: real, y: real, now: int, trailLength: int, images: seq<ImageId>): TrailState
  {
    if !s.active || !far then s
    else Advance(s, x, y, now, images, TailSlotAsWritten(s.globalIndex, trailLength, images))
  }

  /** `handleOnMove` as intended: an advance fades the corrected `TailSlot`. */
  function MoveIntended(s: TrailState, far: bool, x: real, y: real, now: int, trailLength: int, images: seq<ImageId>): TrailState
  {
    if !s.active || !far then s
    else Advance(s, x, y, now, images, TailSlot(s.globalIndex, trailLength, images))
  }

  /**
   * An inactive trail or a short move changes nothing; otherwise
   * `globalIndex` grows by exactly one, the lead is stamped with the time
   * and has the highest `z-index`, and only the image the written tail
   * index reads is faded.
   */
  lemma MoveAdvances(s: TrailState, far: bool, x: real, y: real, now: int, trailLength: int, images: seq<ImageId>)
    requires Consistent(s, images)
    ensures var r := Move(s, far, x, y, now, trailLength, images);
            Consistent(r, images)
            && (!s.active || !far ==> r == s)
            && (s.active && far ==>
                  r.globalIndex == s.globalIndex + 1
                  && r.fadeLog == s.fadeLog + (if TailSlotAsWritten(s.globalIndex, trailLength, images).Some?
                                               then [TailSlotAsWritten(s.globalIndex, trailLength, images).value] else [])
                  && (|images| > 0 ==>
                        var lead := images[s.globalIndex % |images|];
                        lead in r.timestamps && r.timestamps[lead] == now
                        && (forall k :: k in r.zIndex && k != lead ==> r.zIndex[k] < r.zIndex[lead])))
  {
  }

  /**
   * The intended handler fades nothing during the first `trailLength`
   * advances and afterwards exactly the image that was the lead
   * `trailLength` advances earlier; everything else is as in `Move`.
   */
  lemma MoveIntendedFadesEarlierLead(s: TrailState, far: bool, x: real, y: real, now: int, trailLength: int, images: seq<ImageId>)
    requires Consistent(s, images) && trailLength >= 0
    ensures var r := MoveIntended(s, far, x, y, now, trailLength, images);
            Consistent(r, images)
            && (!s.active || !far ==> r == s)
            && (s.active && far && s.globalIndex < trailLength ==> r.fadeLog == s.fadeLog)
            && (s.active && far && s.globalIndex >= trailLength && |images| > 0 ==>
                  r.fadeLog == s.fadeLog + [LeadSlot(s.globalIndex - trailLength, images).value])
            && r == Move(s, far, x, y, now, trailLength, images).(fadeLog := r.fadeLog)
  {
    if s.active && far && s.globalIndex >= trailLength {
      TailIsEarlierLead(s.globalIndex, trailLength, images);
    }
  }

  /** Once `trailLength` advances have happened, the written and the intended handler agree. */
  lemma MoveAgreesAfterWarmup(s: TrailState, far: bool, x: real, y: real, now: int, trailLength: int, images: seq<ImageId>)
    requires s.globalIndex >= trailLength
    ensures Move(s, far, x, y, now, trailLength, images) == MoveIntended(s, far, x, y, now, trailLength, images)
  {
  }

  /** The entries `cleanupTrailImages` keeps: those at most `stopDuration` old. */
  function Fresh(timestamps: map<ImageId, int>, now: int, stopDuration: int): map<ImageId, int>
  {
    map k | k in timestamps && now - timestamps[k] <= stopDuration :: timestamps[k]
  }

  /** The entries `cleanupTrailImages` deletes and fades. */
  function Expired(timestamps: map<ImageId, int>, now: int, stopDuration: int): set<ImageId>
  {
    set k | k in timestamps && now - timestamps[k] > stopDuration
  }

  /**
   * Cleanup splits the map: the kept and the expired entries are disjoint
   * and together make up the old keys, and a second cleanup at the same
   * moment removes nothing more.
   */
  lemma FreshPartition(timestamps: map<ImageId, int>, now: int, stopDuration: int)
    ensures Fresh(timestamps, now, stopDuration).Keys !! Expired(timestamps, now, stopDuration)
    ensures Fresh(timestamps, now, stopDuration).Keys + Expired(timestamps, now, stopDuration) == timestamps.Keys
    ensures Fresh(Fresh(timestamps, now, stopDuration), now, stopDuration) == Fresh(timestamps, now, stopDuration)
    ensures forall k :: k in Fresh(timestamps, now, stopDuration) ==> Fresh(timestamps, now, stopDuration)[k] == timestamps[k]
  {
  }

  /** The fade-outs of one cleanup: every expired image once, and nothing else. */
  predicate Expiry(timestamps: map<ImageId, int>, now: int, stopDuration: int, faded: seq<ImageId>) {
    (forall i :: 0 <= i < |faded| ==> faded[i] in Expired(timestamps, now, stopDuration))
    && (forall k :: k in Expired(timestamps, now, stopDuration) ==> k in faded)
    && (forall i, j :: 0 <= i < j < |faded| ==> faded[i] != faded[j])
  }

  /**
   * The loop of `cleanupTrailImages` over the entries of the timestamp map:
   * an entry older than `stopDuration` is faded and deleted. The order of
   * the fades (the map's insertion order) is not modelled.
   */
  method ExpireEntries(timestamps: map<ImageId, int>, now: int, stopDuration: int)
    returns (kept: map<ImageId, int>, faded: seq<ImageId>)
    ensures kept == Fresh(timestamps, now, stopDuration)
    ensures Expiry(timestamps, now, stopDuration, faded)
  {
    kept := timestamps;
    faded := [];
    var todo := timestamps.Keys;
    while todo != {}
      invariant todo <= timestamps.Keys
      invariant forall k :: k in kept <==> k in timestamps && (k in todo || now - timestamps[k] <= stopDuration)
      invariant forall k :: k in kept ==> kept[k] == timestamps[k]
      invariant forall i :: 0 <= i < |faded| ==> faded[i] in Expired(timestamps, now, stopDuration) && faded[i] !in todo
      invariant forall k :: k in Expired(timestamps, now, stopDuration) && k !in todo ==> k in faded
      invariant forall i, j :: 0 <= i < j < |faded| ==> faded[i] != faded[j]
      decreases |todo|
    {
      var image :| image in todo;
      if now - timestamps[image] > stopDuration {
        faded := faded + [image];
        kept := kept - {image};
      }
      todo := todo - {image};
    }
    assert kept == Fresh(timestamps, now, stopDuration);
  }

  /** `ImageTrail`. */
  class Trail {
    const options: Options
    /** False when the constructor returned early: `this.state` was never set. */
    const hasState: bool
    const images: seq<ImageId>
    /**
     * The ScrollTrigger `init` creates, whose `onEnter`/`onEnterBack` call
     * `startTrail`; nothing ever kills it.
     */
    var scrollTriggered: bool
    /** The `resize` listener `init` registers and `destroy` removes. */
    var resizeListening: bool
    var active: bool
    var moveListening: bool
    var intervalSet: bool
    var globalIndex: nat
    var lastX: real
    var lastY: real
    var timestamps: map<ImageId, int>
    var zIndex: map<ImageId, nat>
    var fadeLog: seq<ImageId>

    ghost function State(): TrailState
      reads this
    {
      TrailState(active, moveListening, intervalSet, globalIndex, lastX, lastY, timestamps, zIndex, fadeLog)
    }

    ghost predicate Valid()
      reads this
    {
      (hasState ==> Consistent(State(), images))
      && (!hasState ==> !scrollTriggered && !resizeListening && State() == InitialState && images == [])
    }

    /**
     * `new ImageTrail(config)`: inert, with no state and no listener, when
     * there is no wrapper or the window is narrower than `minWidth`.
     */
    constructor (config: Config, wrapperPresent: bool, innerWidth: int, trailImages: seq<ImageId>)
      ensures Valid()
      ensures options == OptionsFrom(config)
      ensures hasState <==> wrapperPresent && innerWidth >= options.minWidth
      ensures scrollTriggered == hasState && resizeListening == hasState
      ensures images == (if hasState then trailImages else [])
      ensures State() == InitialState
    {
      options := OptionsFrom(config);
      var inert := !wrapperPresent || innerWidth < OptionsFrom(config).minWidth;
      hasState := !inert;
      images := if inert then [] else trailImages;
      scrollTriggered, resizeListening := !inert, !inert;
      active, moveListening, intervalSet := false, false, false;
      globalIndex := 0;
      lastX, lastY := 0.0, 0.0;
      timestamps := map[];
      zIndex := map[];
      fadeLog := [];
    }

    /** `startTrail` (ScrollTrigger `onEnter`/`onEnterBack`). */
    method StartTrail()
      requires Valid() && hasState
      modifies this
      ensures Valid() && scrollTriggered == old(scrollTriggered) && resizeListening == old(resizeListening)
      ensures State() == Start(old(State()))
    {
      if active {
        return;
      }
      active := true;
      moveListening := true;
      intervalSet := true;
    }

    /** `stopTrail` (ScrollTrigger `onLeave`/`onLeaveBack`). */
    method StopTrail()
      requires Valid() && hasState
      modifies this
      ensures Valid() && scrollTriggered == old(scrollTriggered) && resizeListening == old(resizeListening)
      ensures State() == Stop(old(State()), images)
    {
      if !active {
        return;
      }
      active := false;
      moveListening := false;
      intervalSet := false;
      var log := fadeLog;
      var i := 0;
      while i < |images|
        invariant 0 <= i <= |images|
        invariant log == old(fadeLog) + images[..i]
      {
        log := log + [images[i]];
        i := i + 1;
      }
      assert images[..i] == images;
      fadeLog := log;
      timestamps := map[];
    }

    /** `handleResize`. */
    method HandleResize(innerWidth: int)
      requires Valid() && hasState
      modifies this
      ensures Valid() && scrollTriggered == old(scrollTriggered) && resizeListening == old(resizeListening)
      ensures State() == Resize(old(State()), innerWidth, options.minWidth, images)
    {
      if innerWidth < options.minWidth && active {
        StopTrail();
      } else if innerWidth >= options.minWidth && !active {
        StartTrail();
      }
    }

    /** `activate(trailImage, x, y)` at time `now`. */
    method ActivateImage(image: Option<ImageId>, x: real, y: real, now: int)
      requires Valid() && hasState && active
      requires image.Some? ==> image.value in images
      modifies this
      ensures scrollTriggered == old(scrollTriggered) && resizeListening == old(resizeListening)
      ensures State() == Activate(old(State()), image, x, y, now)
    {
      if image.None? {
        return;
      }
      timestamps := timestamps[image.value := now];
      zIndex := zIndex[image.value := globalIndex];
      lastX, lastY := x, y;
    }

    /** `handleOnMove` at time `now`, with the distance test's outcome `far`. */
    method HandleOnMove(far: bool, x: real, y: real, now: int)
      requires Valid() && hasState
      modifies this
      ensures Valid() && scrollTriggered == old(scrollTriggered) && resizeListening == old(resizeListening)
      ensures State() == Move(old(State()), far, x, y, now, options.trailLength, images)
    {
      if !active {
        return;
      }
      if far {
        MoveAdvances(State(), far, x, y, now, options.trailLength, images);
        var lead := LeadSlot(globalIndex, images);
        var tail := TailSlotAsWritten(globalIndex, options.trailLength, images);
        ActivateImage(lead, x, y, now);
        if tail.Some? {
          fadeLog := fadeLog + [tail.value];
        }
        globalIndex := globalIndex + 1;
      }
    }

    /**
     * `cleanupTrailImages` at time `now`: every entry older than
     * `stopDuration` is faded and deleted, every other entry is kept.
     */
    method CleanupTrailImages(now: int)
      requires Valid() && hasState
      modifies this
      ensures Valid() && scrollTriggered == old(scrollTriggered) && resizeListening == old(resizeListening)
      ensures timestamps == Fresh(old(timestamps), now, options.stopDuration)
      ensures |fadeLog| >= |old(fadeLog)| && fadeLog[..|old(fadeLog)|] == old(fadeLog)
      ensures Expiry(old(timestamps), now, options.stopDuration, fadeLog[|old(fadeLog)|..])
      ensures active == old(active) && moveListening == old(moveListening) && intervalSet == old(intervalSet)
      ensures globalIndex == old(globalIndex) && zIndex == old(zIndex) && lastX == old(lastX) && lastY == old(lastY)
    {
      var kept, faded := ExpireEntries(timestamps, now, options.stopDuration);
      timestamps := kept;
      fadeLog := fadeLog + faded;
      assert fadeLog[|old(fadeLog)|..] == faded;
    }

    /**
     * `destroy()`: on an inert trail it reads `this.state` of `undefined`
     * and throws. Only the `resize` listener goes: the ScrollTrigger stays,
     * so scrolling the wrapper back into view starts the trail again.
     */
    method Destroy() returns (threw: bool)
      requires Valid()
      modifies this
      ensures Valid()
      ensures threw <==> !hasState
      ensures !resizeListening && scrollTriggered == old(scrollTriggered)
      ensures hasState ==> State() == Stop(old(State()), images)
      ensures !hasState ==> State() == old(State())
    {
      if !hasState {
        return true;
      }
      StopTrail();
      resizeListening := false;
      return false;
    }
  }

  /**
   * `destroy()` followed by the ScrollTrigger's `onEnterBack`: the trail
   * runs again, although its `resize` listener is gone.
   */
  method DestroyedTrailRestarts(t: Trail)
    requires t.Valid() && t.hasState
    modifies t
    ensures t.Valid() && t.active && t.moveListening && t.intervalSet
    ensures !t.resizeListening && t.scrollTriggered == old(t.scrollTriggered)
  {
    var threw := t.Destroy();
    t.StartTrail();
  }
}
