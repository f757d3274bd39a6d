/**
 * `goToPage` of static/js/health.js and its startup call: every element with class
 * `page` loses class `active`, then the first element with the requested class gains it.
 * The document is an array of elements in document order, each with its class list.
 */
module PageSwitcher {
  import opened Wrappers

  datatype Element = Element(classes: set<string>)

  const PageClass := "page"
  const Active := "active"
  /** The page `DOMContentLoaded` shows. */
  const StartPage := "landing"

  predicate IsPage(e: Element)
  {
    PageClass in e.classes
  }

  predicate IsAsciiLetter(c: char)
  {
    'a' <= c <= 'z' || 'A' <= c <= 'Z'
  }

  /**
   * A plain CSS identifier that needs no escaping, so that `.${page}` is the selector
   * of exactly that one class.
   */
  predicate IsClassName(p: string)
  {
    |p| > 0 &&
    (IsAsciiLetter(p[0]) || p[0] == '_' || p[0] > '\U{7F}') &&
    forall i :: 1 <= i < |p| ==>
      IsAsciiLetter(p[i]) || '0' <= p[i] <= '9' || p[i] == '-' || p[i] == '_' || p[i] > '\U{7F}'
  }

  /** `classList.remove('active')` on a page; other elements are not selected by `.page`. */
  function Deactivated(e: Element): Element
  {
    if IsPage(e) then e.(classes := e.classes - {Active}) else e
  }

  function ClearPages(s: seq<Element>): (r: seq<Element>)
    ensures |r| == |s|
    ensures forall i :: 0 <= i < |s| ==> r[i] == Deactivated(s[i])
  {
    if s == [] then [] else [Deactivated(s[0])] + ClearPages(s[1..])
  }

  /** `querySelector('.' + name)`: the first element, in document order, with that class. */
  function FirstWithClass(s: seq<Element>, name: string): (r: Option<nat>)
    ensures r.Some? ==>
      (r.value < |s| && name in s[r.value].classes && forall i :: 0 <= i < r.value ==> name !in s[i].classes)
    ensures r.None? <==> forall i :: 0 <= i < |s| ==> name !in s[i].classes
  {
    if s == [] then None
    else if name in s[0].classes then Some(0)
    else match FirstWithClass(s[1..], name)
      case None => None
      case Some(i) => Some(i + 1)
  }

  /** The document after `goToPage(page)`. */
  function AfterGoTo(s: seq<Element>, page: string): (r: seq<Element>)
    ensures |r| == |s|
    ensures forall k :: 0 <= k < |s| ==> r[k].classes - {Active} == s[k].classes - {Active}
  {
    var cleared := ClearPages(s);
    match FirstWithClass(cleared, page)
    case None => cleared
    case Some(i) => cleared[i := cleared[i].(classes := cleared[i].classes + {Active})]
  }

  /** `goToPage(page)`: deactivate every page in place, then activate the first element with class `page`. */
  method GoToPage(doc: array<Element>, page: string)
    requires IsClassName(page)
    modifies doc
    ensures doc[..] == AfterGoTo(old(doc[..]), page)
  {
    var i := 0;
    while i < doc.Length
      invariant 0 <= i <= doc.Length
      invariant forall k :: 0 <= k < i ==> doc[k] == Deactivated(old(doc[k]))
      invariant forall k :: i <= k < doc.Length ==> doc[k] == old(doc[k])
    {
      if IsPage(doc[i]) {
        doc[i] := doc[i].(classes := doc[i].classes - {Active});
      }
      i := i + 1;
    }
    assert doc[..] == ClearPages(old(doc[..]));
    var target := FirstWithClass(doc[..], page);
    if target.Some? {
      doc[target.value] := doc[target.value].(classes := doc[target.value].classes + {Active});
    }
  }

  /** The `DOMContentLoaded` listener: `goToPage('landing')`. */
  method Startup(doc: array<Element>)
    modifies doc
    ensures doc[..] == AfterGoTo(old(doc[..]), StartPage)
  {
    GoToPage(doc, StartPage);
  }

  /** Deactivating pages touches no class but `active`, so the search for any other class finds the same element. */
  lemma {:induction false} ClearKeepsSearch(s: seq<Element>, name: string)
    requires name != Active
    ensures FirstWithClass(ClearPages(s), name) == FirstWithClass(s, name)
  {
    if s != [] {
      assert ClearPages(s)[1..] == ClearPages(s[1..]);
      assert name in ClearPages(s)[0].classes <==> name in s[0].classes;
      ClearKeepsSearch(s[1..], name);
    }
  }

  /** After `goToPage(p)` the only element that can be an active page is the first element with class `p`. */
  lemma OnlyTargetActive(s: seq<Element>, p: string, i: nat)
    requires i < |s|
    requires IsPage(AfterGoTo(s, p)[i]) && Active in AfterGoTo(s, p)[i].classes
    ensures FirstWithClass(ClearPages(s), p) == Some(i) && p in s[i].classes
  {
  }

  /** The first element with class `p` is active afterwards, page or not. */
  lemma TargetActivated(s: seq<Element>, p: string, i: nat)
    requires p != Active && FirstWithClass(s, p) == Some(i)
    ensures Active in AfterGoTo(s, p)[i].classes
  {
    ClearKeepsSearch(s, p);
  }

  /** When no element has class `p`, every page is left inactive. */
  lemma NoMatchNoActivePage(s: seq<Element>, p: string, i: nat)
    requires p != Active && FirstWithClass(s, p) == None && i < |s| && IsPage(s[i])
    ensures Active !in AfterGoTo(s, p)[i].classes
  {
    ClearKeepsSearch(s, p);
  }

  /**
   * Only `active` changes: every other class of every element is kept, and an element
   * that is neither a page nor the target is untouched.
   */
  lemma OnlyActiveChanges(s: seq<Element>, p: string, i: nat)
    requires i < |s|
    ensures AfterGoTo(s, p)[i].classes - {Active} == s[i].classes - {Active}
    ensures !IsPage(s[i]) && FirstWithClass(ClearPages(s), p) != Some(i) ==> AfterGoTo(s, p)[i] == s[i]
  {
  }

  /** Going to the page already shown changes nothing. */
  lemma GoToIdempotent(s: seq<Element>, p: string)
    ensures AfterGoTo(AfterGoTo(s, p), p) == AfterGoTo(s, p)
  {
    var cleared := ClearPages(s);
    var once := AfterGoTo(s, p);
    var again := ClearPages(once);
    match FirstWithClass(cleared, p)
    case None =>
      forall k | 0 <= k < |s| ensures again[k] == once[k] {
        ReactivateIsStable(s[k]);
      }
      assert again == once;
    case Some(t) =>
      var x := once[t];
      ReactivateIsStable(s[t]);
      forall k | 0 <= k < |s| ensures again[k] == (if k == t then Deactivated(x) else once[k]) {
        ReactivateIsStable(s[k]);
      }
      SameClassSameSearch(again, cleared, p);
      assert again[t := again[t].(classes := again[t].classes + {Active})] == once;
  }

  /**
   * Deactivating twice is deactivating once, and adding `active` back to a deactivated
   * element, after deactivating it again, gives the same element.
   */
  lemma ReactivateIsStable(e: Element)
    ensures Deactivated(Deactivated(e)) == Deactivated(e)
    ensures var d := Deactivated(e); var x := d.(classes := d.classes + {Active});
      Deactivated(x).(classes := Deactivated(x).classes + {Active}) == x &&
      (forall c :: c in Deactivated(x).classes <==> c in d.classes || (c == Active && !IsPage(e)))
  {
    var d := Deactivated(e);
    var x := d.(classes := d.classes + {Active});
    assert IsPage(x) <==> IsPage(e);
    if IsPage(e) {
      assert Deactivated(x).classes == d.classes;
    }
  }

  /** Two documents that agree on which elements carry class `p` give the same search result. */
  lemma {:induction false} SameClassSameSearch(a: seq<Element>, b: seq<Element>, p: string)
    requires |a| == |b|
    requires forall k :: 0 <= k < |a| ==> (p in a[k].classes <==> p in b[k].classes)
    ensures FirstWithClass(a, p) == FirstWithClass(b, p)
  {
    if a != [] {
      SameClassSameSearch(a[1..], b[1..], p);
    }
  }

  /**
   * When the first element with class `p` is a page, it is the one active page afterwards:
   * the single-visible-page promise of the page switcher.
   */
  lemma ExactlyOneActivePage(s: seq<Element>, p: string, i: nat, j: nat)
    requires p != Active && FirstWithClass(s, p) == Some(i) && IsPage(s[i])
    requires j < |s| && IsPage(s[j])
    ensures Active in AfterGoTo(s, p)[j].classes <==> j == i
  {
    ClearKeepsSearch(s, p);
  }

  /** At startup the first element with class `landing` is active; when it is a page it is the only active page. */
  lemma StartupShowsLanding(s: seq<Element>, i: nat, j: nat)
    requires FirstWithClass(s, StartPage) == Some(i) && IsPage(s[i])
    requires j < |s| && IsPage(s[j])
    ensures Active in AfterGoTo(s, StartPage)[j].classes <==> j == i
  {
    ExactlyOneActivePage(s, StartPage, i, j);
  }
}
