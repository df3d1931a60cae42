/**
 * The document, reduced to what the page scripts read and write: attribute
 * maps, class sets, inline style declarations, and queries that return the
 * first element in document order that matches.
 */
module Dom {
  import opened JsText

  /** The attributes of one element. */
  type Attrs = map<string, string>

  /** `element.getAttribute(name)`: `None` stands for `null`. */
  function GetAttr(a: Attrs, name: string): (r: Option<string>)
    ensures r.Some? <==> name in a
    ensures r.Some? ==> r.value == a[name]
  {
    if name in a then Some(a[name]) else None
  }

  /** The inline style of one element, as property name to value. */
  type Style = map<string, string>

  /**
   * `element.style.<prop> = value`: the empty string removes the inline
   * declaration, anything else sets it.
   */
  function SetStyle(st: Style, prop: string, value: string): (r: Style)
    ensures value == "" ==> prop !in r
    ensures value != "" ==> prop in r && r[prop] == value
    ensures forall p :: p != prop ==> (p in r <==> p in st) && (p in r ==> r[p] == st[p])
  {
    if value == "" then st - {prop} else st[prop := value]
  }

  /** True of the element `[data-barba="container"]` selects. */
  predicate IsBarbaContainer(a: Attrs) {
    GetAttr(a, "data-barba") == Some("container")
  }

  /**
   * The index of the first element of `elements` that is a Barba container.
   * Over a document in document order this is `document.querySelector`;
   * over the chain of an element and its ancestors, nearest first, it is
   * `element.closest`.
   */
  function FirstContainer(elements: seq<Attrs>): (r: Option<nat>)
    ensures r.Some? ==> r.value < |elements| && IsBarbaContainer(elements[r.value])
    ensures r.Some? ==> forall k :: 0 <= k < r.value ==> !IsBarbaContainer(elements[k])
    ensures r.None? ==> forall k :: 0 <= k < |elements| ==> !IsBarbaContainer(elements[k])
  {
    if elements == [] then None
    else if IsBarbaContainer(elements[0]) then Some(0)
    else match FirstContainer(elements[1..])
         case None => None
         case Some(i) => Some(i + 1)
  }

  /** True of a container whose `data-barba-namespace` is `cms-page`. */
  predicate IsCmsNamespace(a: Attrs) {
    GetAttr(a, "data-barba-namespace") == Some("cms-page")
  }

  /** The first index at which `x` occurs in `s`. */
  function FirstIndexOf<T(==)>(s: seq<T>, x: T): (r: Option<nat>)
    ensures r.Some? ==> r.value < |s| && s[r.value] == x
    ensures r.Some? ==> forall k :: 0 <= k < r.value ==> s[k] != x
    ensures r.None? <==> x !in s
  {
    if s == [] then None
    else if s[0] == x then Some(0)
    else match FirstIndexOf(s[1..], x)
         case None => None
         case Some(i) => Some(i + 1)
  }
}
