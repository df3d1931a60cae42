/**
 * `ensureLibraryLoaded` of src/main.js: a promise cache keyed by library
 * name, a walk down a dotted global path such as `$.scrollify`, and the
 * script element appended when the global is not there yet.
 */
module ScriptLoader {
  import opened JsText

  /** The JavaScript values the path walk can meet. */
  datatype JsValue = Undefined | Null | Object(props: map<string, JsValue>)

  /** `value[key]` on an object: an absent own property reads as `undefined`. */
  function Prop(props: map<string, JsValue>, key: string): (v: JsValue)
    ensures key !in props ==> v == Undefined
  {
    if key in props then props[key] else Undefined
  }

  // ---------------------------------------------------------------------
  // `globalObject.split('.')`
  // ---------------------------------------------------------------------

  /** `s.split('.')`: the pieces between dots, empty pieces included. */
  function Split(s: string): (parts: seq<string>)
    ensures |parts| >= 1
    ensures forall i :: 0 <= i < |parts| ==> '.' !in parts[i]
  {
    if s == [] then [""]
    else if s[0] == '.' then [""] + Split(s[1..])
    else
      var rest := Split(s[1..]);
      [[s[0]] + rest[0]] + rest[1..]
  }

  /** `parts.join('.')`. */
  function Join(parts: seq<string>): string
    requires |parts| >= 1
  {
    if |parts| == 1 then parts[0] else parts[0] + "." + Join(parts[1..])
  }

  /** Splitting at the dots and joining with dots gives the path back. */
  lemma {:induction false} JoinSplit(s: string)
    ensures Join(Split(s)) == s
  {
    if s == [] {
    } else if s[0] == '.' {
      JoinSplit(s[1..]);
      assert Split(s)[1..] == Split(s[1..]);
      assert s == "" + "." + s[1..];
    } else {
      JoinSplit(s[1..]);
      var rest := Split(s[1..]);
      if |rest| == 1 {
        assert s == [s[0]] + s[1..];
      } else {
        assert Split(s)[1..] == rest[1..];
        assert Join(rest) == rest[0] + "." + Join(rest[1..]);
        assert s == [s[0]] + s[1..];
      }
    }
  }

  /** Joining dot-free pieces and splitting again gives the pieces back. */
  lemma {:induction false} SplitJoin(parts: seq<string>)
    requires |parts| >= 1
    requires forall i :: 0 <= i < |parts| ==> '.' !in parts[i]
    ensures Split(Join(parts)) == parts
    decreases |parts|, |parts[0]|
  {
    var p := parts[0];
    if p == [] {
      if |parts| == 1 {
      } else {
        SplitJoin(parts[1..]);
        assert Join(parts) == "." + Join(parts[1..]);
        assert Join(parts)[1..] == Join(parts[1..]);
        assert parts == [""] + parts[1..];
      }
    } else {
      var tail := [p[1..]] + parts[1..];
      assert forall i :: 0 <= i < |tail| ==> '.' !in tail[i] by {
        forall i | 0 <= i < |tail| ensures '.' !in tail[i] {
          if i == 0 {
            assert forall c :: c in p[1..] ==> c in p;
          } else {
            assert tail[i] == parts[i];
          }
        }
      }
      SplitJoin(tail);
      assert p[0] != '.' by { assert p[0] in p; }
      if |parts| == 1 {
        assert Join(parts) == p;
        assert Join(tail) == p[1..];
        assert Join(parts)[1..] == Join(tail);
      } else {
        assert tail[1..] == parts[1..];
        assert Join(tail) == p[1..] + "." + Join(parts[1..]);
        assert Join(parts)[1..] == Join(tail);
      }
      var j := Join(parts);
      assert j[0] == p[0];
      assert Split(j) == [[p[0]] + Split(j[1..])[0]] + Split(j[1..])[1..];
      assert [p[0]] + p[1..] == p;
      assert [p] + parts[1..] == parts;
    }
  }

  // ---------------------------------------------------------------------
  // The walk down the path
  // ---------------------------------------------------------------------

  /**
   * How the walk ends: the value at the end of the path, a segment that is
   * `undefined`, or a TypeError from reading a property of `null`.
   */
  datatype Lookup = Found(value: JsValue) | Missing | Threw

  /** The walk from `current` down `parts`, stopping at the first `undefined` segment. */
  function Resolve(current: JsValue, parts: seq<string>): Lookup
  {
    if parts == [] then Found(current)
    else match current
      case Object(props) =>
        var next := Prop(props, parts[0]);
        if next == Undefined then Missing else Resolve(next, parts[1..])
      case _ => Threw
  }

  /** Walking down `a + b` is walking down `a` and then down `b` from where it ended. */
  lemma {:induction false} ResolveAppend(current: JsValue, a: seq<string>, b: seq<string>)
    ensures Resolve(current, a + b) == (if Resolve(current, a).Found? then Resolve(Resolve(current, a).value, b) else Resolve(current, a))
  {
    if a != [] {
      assert (a + b)[0] == a[0];
      assert (a + b)[1..] == a[1..] + b;
      if current.Object? && Prop(current.props, a[0]) != Undefined {
        ResolveAppend(Prop(current.props, a[0]), a[1..], b);
      }
    } else {
      assert a + b == b;
    }
  }

  /** Segment `k` of the path is defined: the walk reaches an object there and its property is not `undefined`. */
  predicate SegmentDefined(root: JsValue, parts: seq<string>, k: nat)
    requires k < |parts|
  {
    var before := Resolve(root, parts[..k]);
    before.Found? && before.value.Object? && Prop(before.value.props, parts[k]) != Undefined
  }

  /** The global is found exactly when every segment of the path is defined. */
  lemma {:induction false} FoundIffEverySegmentDefined(root: JsValue, parts: seq<string>)
    ensures Resolve(root, parts).Found? <==> forall k :: 0 <= k < |parts| ==> SegmentDefined(root, parts, k)
    decreases |parts|
  {
    if parts == [] {
    } else {
      var init := parts[..|parts| - 1];
      var last := parts[|parts| - 1];
      assert parts == init + [last];
      FoundIffEverySegmentDefined(root, init);
      ResolveAppend(root, init, [last]);
      assert forall k :: 0 <= k < |init| ==> init[..k] == parts[..k] && init[k] == parts[k];
      assert forall k :: 0 <= k < |init| ==> (SegmentDefined(root, init, k) <==> SegmentDefined(root, parts, k));
      assert parts[..|parts| - 1] == init;
      var before := Resolve(root, init);
      if before.Found? && before.value.Object? && Prop(before.value.props, last) != Undefined {
        assert [last][1..] == [];
        assert Resolve(before.value, [last]) == Found(Prop(before.value.props, last));
      }
      assert SegmentDefined(root, parts, |parts| - 1) <==> before.Found? && Resolve(before.value, [last]).Found?;
    }
  }

  /**
   * The loop of the promise executor (and of `script.onload`): walk from
   * `window` down the segments, stopping at the first `undefined` one.
   */
  method LookupGlobal(window: JsValue, parts: seq<string>) returns (r: Lookup)
    ensures r == Resolve(window, parts)
  {
    var current := window;
    var i := 0;
    while i < |parts|
      invariant 0 <= i <= |parts|
      invariant Resolve(window, parts) == Resolve(current, parts[i..])
    {
      if !current.Object? {
        return Threw;
      }
      var next := Prop(current.props, parts[i]);
      if next == Undefined {
        return Missing;
      }
      assert parts[i..][1..] == parts[i + 1..];
      current := next;
      i := i + 1;
    }
    return Found(current);
  }

  // ---------------------------------------------------------------------
  // The cache
  // ---------------------------------------------------------------------

  /** The state of one promise: it settles once and then never changes. */
  datatype Settlement = Pending | Fulfilled(value: JsValue) | Rejected(reason: string)

  /** A `<script>` element appended to the body, with the promise its handlers settle. */
  datatype Script = Script(src: string, promise: nat, libraryName: string, parts: seq<string>)

  /**
   * `scriptCache` (library name to promise), every promise created so far
   * (a promise is its index), and every script element appended.
   */
  datatype Cache = Cache(entries: map<string, nat>, promises: seq<Settlement>, scripts: seq<Script>)

  /** What `ensureLibraryLoaded` hands back. */
  datatype Returned = PromiseRef(id: nat) | InheritedMember(name: string)

  predicate ValidCache(c: Cache) {
    (forall n :: n in c.entries ==> c.entries[n] < |c.promises|)
    && (forall k :: 0 <= k < |c.scripts| ==> c.scripts[k].promise < |c.promises|)
  }

  const EmptyCache := Cache(map[], [], [])

  function NotFoundReason(libraryName: string): string {
    libraryName + " loaded but global object not found"
  }

  function LoadFailedReason(libraryName: string): string {
    "Failed to load " + libraryName
  }

  const TypeErrorReason := "TypeError"

  /**
   * `ensureLibraryLoaded(libraryName, globalObject, cdnUrl)` against the
   * cache `c` and the current `window`. `scriptCache` is a plain object, so
   * a name inherited from `Object.prototype` reads as a truthy function
   * and is handed back instead of a promise.
   */
  function Ensure(c: Cache, libraryName: string, globalObject: string, cdnUrl: string, window: JsValue): (r: (Cache, Returned))
    ensures libraryName in c.entries ==> r == (c, PromiseRef(c.entries[libraryName]))
    ensures libraryName !in c.entries && IsObjectPrototypeMember(libraryName) ==> r == (c, InheritedMember(libraryName))
    ensures libraryName !in c.entries && !IsObjectPrototypeMember(libraryName) ==>
              r.1 == PromiseRef(|c.promises|)
              && r.0.entries == c.entries[libraryName := |c.promises|]
              && |r.0.promises| == |c.promises| + 1 && r.0.promises[..|c.promises|] == c.promises
    ensures libraryName !in c.entries && !IsObjectPrototypeMember(libraryName) && Resolve(window, Split(globalObject)).Found? ==>
              r.0.promises[|c.promises|] == Fulfilled(Resolve(window, Split(globalObject)).value) && r.0.scripts == c.scripts
    ensures libraryName !in c.entries && !IsObjectPrototypeMember(libraryName) && Resolve(window, Split(globalObject)) == Threw ==>
              r.0.promises[|c.promises|] == Rejected(TypeErrorReason) && r.0.scripts == c.scripts
    ensures libraryName !in c.entries && !IsObjectPrototypeMember(libraryName) && Resolve(window, Split(globalObject)) == Missing ==>
              r.0.promises[|c.promises|] == Pending
              && r.0.scripts == c.scripts + [Script(cdnUrl, |c.promises|, libraryName, Split(globalObject))]
    ensures ValidCache(c) ==> ValidCache(r.0)
    ensures forall n :: n in c.entries ==> n in r.0.entries && r.0.entries[n] == c.entries[n]
  {
    if libraryName in c.entries then (c, PromiseRef(c.entries[libraryName]))
    else if IsObjectPrototypeMember(libraryName) then (c, InheritedMember(libraryName))
    else
      var id := |c.promises|;
      var parts := Split(globalObject);
      var entries := c.entries[libraryName := id];
      match Resolve(window, parts)
      case Found(v) => (Cache(entries, c.promises + [Fulfilled(v)], c.scripts), PromiseRef(id))
      case Threw => (Cache(entries, c.promises + [Rejected(TypeErrorReason)], c.scripts), PromiseRef(id))
      case Missing =>
        (Cache(entries, c.promises + [Pending], c.scripts + [Script(cdnUrl, id, libraryName, parts)]), PromiseRef(id))
  }

  /** `resolve`/`reject`: only a pending promise changes. */
  function Settle(promises: seq<Settlement>, id: nat, s: Settlement): (r: seq<Settlement>)
    requires id < |promises|
    ensures |r| == |promises|
    ensures forall i :: 0 <= i < |r| && i != id ==> r[i] == promises[i]
    ensures promises[id] != Pending ==> r[id] == promises[id]
    ensures promises[id] == Pending ==> r[id] == s
  {
    if promises[id] == Pending then promises[id := s] else promises
  }

  /**
   * `script.onload` of the `k`-th appended script: the walk is redone on
   * the `window` of that moment. A TypeError thrown in the handler leaves
   * the promise pending.
   */
  function OnLoad(c: Cache, k: nat, window: JsValue): (r: Cache)
    requires ValidCache(c) && k < |c.scripts|
    ensures ValidCache(r)
    ensures r.entries == c.entries && r.scripts == c.scripts
    ensures |r.promises| == |c.promises|
    ensures forall i :: 0 <= i < |r.promises| && i != c.scripts[k].promise ==> r.promises[i] == c.promises[i]
    ensures c.promises[c.scripts[k].promise] == Pending && Resolve(window, c.scripts[k].parts).Found? ==>
              r.promises[c.scripts[k].promise] == Fulfilled(Resolve(window, c.scripts[k].parts).value)
    ensures c.promises[c.scripts[k].promise] == Pending && Resolve(window, c.scripts[k].parts) == Missing ==>
              r.promises[c.scripts[k].promise] == Rejected(NotFoundReason(c.scripts[k].libraryName))
    ensures Resolve(window, c.scripts[k].parts) == Threw ==> r == c
  {
    var s := c.scripts[k];
    match Resolve(window, s.parts)
    case Found(v) => c.(promises := Settle(c.promises, s.promise, Fulfilled(v)))
    case Missing => c.(promises := Settle(c.promises, s.promise, Rejected(NotFoundReason(s.libraryName))))
    case Threw => c
  }

  /** `script.onerror` of the `k`-th appended script. */
  function OnError(c: Cache, k: nat): (r: Cache)
    requires ValidCache(c) && k < |c.scripts|
    ensures ValidCache(r)
    ensures r.entries == c.entries && r.scripts == c.scripts
    ensures |r.promises| == |c.promises|
    ensures forall i :: 0 <= i < |r.promises| && i != c.scripts[k].promise ==> r.promises[i] == c.promises[i]
    ensures c.promises[c.scripts[k].promise] == Pending ==>
              r.promises[c.scripts[k].promise] == Rejected(LoadFailedReason(c.scripts[k].libraryName))
  {
    var s := c.scripts[k];
    c.(promises := Settle(c.promises, s.promise, Rejected(LoadFailedReason(s.libraryName))))
  }

  /**
   * A second request for a name already requested returns the same promise
   * and does nothing else, whatever path, URL or window it passes.
   */
  lemma SecondRequestReusesPromise(c: Cache, name: string, path1: string, url1: string, w1: JsValue,
                                   path2: string, url2: string, w2: JsValue)
    requires !IsObjectPrototypeMember(name)
    ensures var (c1, r1) := Ensure(c, name, path1, url1, w1);
            Ensure(c1, name, path2, url2, w2) == (c1, r1)
  {
  }

  /** A script is appended exactly when a new name's global is missing. */
  lemma ScriptAppendedOnlyWhenMissing(c: Cache, name: string, path: string, url: string, w: JsValue)
    ensures var c1 := Ensure(c, name, path, url, w).0;
            (|c1.scripts| == |c.scripts| + 1 <==>
               name !in c.entries && !IsObjectPrototypeMember(name) && Resolve(w, Split(path)) == Missing)
            && (|c1.scripts| == |c.scripts| || |c1.scripts| == |c.scripts| + 1)
  {
  }

  /**
   * A failed load leaves its entry in the cache: a later request gets the
   * same rejected promise back and no new script is appended.
   */
  lemma RejectedLoadIsNotRetried(c: Cache, name: string, path: string, url: string, w: JsValue, w2: JsValue)
    requires ValidCache(c) && name !in c.entries && !IsObjectPrototypeMember(name)
    requires Resolve(w, Split(path)) == Missing
    ensures var (c1, r1) := Ensure(c, name, path, url, w);
            var c2 := OnError(c1, |c.scripts|);
            c2.promises[r1.id] == Rejected(LoadFailedReason(name))
            && Ensure(c2, name, path, url, w2) == (c2, r1)
  {
  }

  /** A settled promise is never changed by a later load or error event. */
  lemma SettledStaysSettled(c: Cache, k: nat, w: JsValue, id: nat)
    requires ValidCache(c) && k < |c.scripts| && id < |c.promises| && c.promises[id] != Pending
    ensures OnLoad(c, k, w).promises[id] == c.promises[id]
    ensures OnError(c, k).promises[id] == c.promises[id]
  {
  }

  /** `scriptCache` and the promises and scripts behind it. */
  class ScriptCache {
    var entries: map<string, nat>
    var promises: seq<Settlement>
    var scripts: seq<Script>

    ghost function State(): Cache
      reads this
    {
      Cache(entries, promises, scripts)
    }

    ghost predicate Valid()
      reads this
    {
      ValidCache(State())
    }

    /** `const scriptCache = {}`. */
    constructor ()
      ensures State() == EmptyCache && Valid()
    {
      entries := map[];
      promises := [];
      scripts := [];
    }

    /** `ensureLibraryLoaded(libraryName, globalObject, cdnUrl)`. */
    method EnsureLibraryLoaded(libraryName: string, globalObject: string, cdnUrl: string, window: JsValue)
      returns (r: Returned)
      requires Valid()
      modifies this
      ensures Valid()
      ensures (State(), r) == Ensure(old(State()), libraryName, globalObject, cdnUrl, window)
    {
      if libraryName in entries {
        return PromiseRef(entries[libraryName]);
      }
      if IsObjectPrototypeMember(libraryName) {
        return InheritedMember(libraryName);
      }
      var id := |promises|;
      var parts := Split(globalObject);
      var lookup := LookupGlobal(window, parts);
      match lookup {
        case Found(v) =>
          promises := promises + [Fulfilled(v)];
        case Threw =>
          promises := promises + [Rejected(TypeErrorReason)];
        case Missing =>
          promises := promises + [Pending];
          scripts := scripts + [Script(cdnUrl, id, libraryName, parts)];
      }
      entries := entries[libraryName := id];
      r := PromiseRef(id);
    }

    /** The `load` event of the `k`-th appended script. */
    method OnScriptLoad(k: nat, window: JsValue)
      requires Valid() && k < |scripts|
      modifies this
      ensures Valid()
      ensures State() == OnLoad(old(State()), k, window)
    {
      var s := scripts[k];
      var lookup := LookupGlobal(window, s.parts);
      match lookup {
        case Found(v) =>
          if promises[s.promise] == Pending {
            promises := promises[s.promise := Fulfilled(v)];
          }
        case Missing =>
          if promises[s.promise] == Pending {
            promises := promises[s.promise := Rejected(NotFoundReason(s.libraryName))];
          }
        case Threw =>
      }
    }

    /** The `error` event of the `k`-th appended script. */
    method OnScriptError(k: nat)
      requires Valid() && k < |scripts|
      modifies this
      ensures Valid()
      ensures State() == OnError(old(State()), k)
    {
      var s := scripts[k];
      if promises[s.promise] == Pending {
        promises := promises[s.promise := Rejected(LoadFailedReason(s.libraryName))];
      }
    }
  }
}
