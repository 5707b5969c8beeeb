/** `WidgetClassChecker`: pure predicates that look for a marker CSS class on
    a widget's root node or anywhere below it. */
module WidgetClassChecker {

  datatype Option<T> = None | Some(value: T)

  /** A DOM element: its class list and its child elements in document order.
      A widget is represented by its root node. */
  datatype Element = Element(classes: set<string>, children: seq<Element>)

  /** The marker classes of the viewer kinds. Their string values are a
      contract with the host's styling; the model takes them as given. */
  datatype WidgetClasses = WidgetClasses(
    csvViewer: string,
    jsonViewer: string,
    pdfViewer: string,
    notebook: string,
    fileEditor: string,
    htmlViewer: string)

  /** The strict descendants of `e` in document order (pre-order). */
  function Descendants(e: Element): seq<Element>
    decreases e, |e.children| + 1
  {
    DescendantsFrom(e, 0)
  }

  /** The subtrees of `p`'s children from the `i`-th on, flattened in
      document order. */
  function DescendantsFrom(p: Element, i: nat): seq<Element>
    requires i <= |p.children|
    decreases p, |p.children| - i
  {
    if i == |p.children| then []
    else [p.children[i]] + Descendants(p.children[i]) + DescendantsFrom(p, i + 1)
  }

  /** The root followed by its descendants: the order in which the checker
      looks at nodes. */
  function Subtree(e: Element): seq<Element>
  {
    [e] + Descendants(e)
  }

  /** Reference definition: the first node of `s` carrying `cls`. */
  function FirstWith(s: seq<Element>, cls: string): (r: Option<Element>)
    ensures r.None? <==> forall k :: 0 <= k < |s| ==> cls !in s[k].classes
    ensures r.Some? ==> exists k :: 0 <= k < |s| && s[k] == r.value && cls in r.value.classes &&
                                    forall j :: 0 <= j < k ==> cls !in s[j].classes
  {
    if s == [] then None
    else if cls in s[0].classes then Some(s[0])
    else
      var r := FirstWith(s[1..], cls);
      assert r.Some? ==> exists k :: 0 < k < |s| && s[k] == r.value && cls in r.value.classes &&
                                     forall j :: 0 <= j < k ==> cls !in s[j].classes by {
        if r.Some? {
          var k :| 0 <= k < |s[1..]| && s[1..][k] == r.value && cls in r.value.classes &&
                   forall j :: 0 <= j < k ==> cls !in s[1..][j].classes;
          assert forall j :: 0 <= j < k + 1 ==> cls !in s[j].classes by {
            forall j | 0 <= j < k + 1 ensures cls !in s[j].classes {
              if j > 0 { assert s[j] == s[1..][j - 1]; }
            }
          }
        }
      }
      r
  }

  /** Searching a concatenation finds the first match of the left part if
      there is one, and otherwise the first match of the right part. */
  lemma {:induction false} FirstWithAppend(a: seq<Element>, b: seq<Element>, cls: string)
    ensures FirstWith(a + b, cls) == if FirstWith(a, cls).Some? then FirstWith(a, cls) else FirstWith(b, cls)
  {
    if a != [] {
      assert (a + b)[1..] == a[1..] + b;
      FirstWithAppend(a[1..], b, cls);
    } else {
      assert a + b == b;
    }
  }

  /** `querySelector('.' + cls)`: a depth-first search of the descendants,
      each child checked before its own subtree, subtrees left to right. */
  function QuerySelector(e: Element, cls: string): Option<Element>
    decreases e, |e.children| + 1
  {
    SearchFrom(e, 0, cls)
  }

  /** The search over `p`'s children from the `i`-th on. */
  function SearchFrom(p: Element, i: nat, cls: string): Option<Element>
    requires i <= |p.children|
    decreases p, |p.children| - i
  {
    if i == |p.children| then None
    else if cls in p.children[i].classes then Some(p.children[i])
    else match QuerySelector(p.children[i], cls)
      case Some(d) => Some(d)
      case None => SearchFrom(p, i + 1, cls)
  }

  /** The search returns the first descendant carrying the class in
      document order. */
  lemma {:induction false} QuerySelectorIsFirstInDocumentOrder(e: Element, cls: string)
    ensures QuerySelector(e, cls) == FirstWith(Descendants(e), cls)
    decreases e, |e.children| + 1
  {
    SearchFromIsFirst(e, 0, cls);
  }

  lemma {:induction false} SearchFromIsFirst(p: Element, i: nat, cls: string)
    requires i <= |p.children|
    ensures SearchFrom(p, i, cls) == FirstWith(DescendantsFrom(p, i), cls)
    decreases p, |p.children| - i
  {
    if i < |p.children| {
      var c := p.children[i];
      var below, rest := Descendants(c), DescendantsFrom(p, i + 1);
      assert DescendantsFrom(p, i) == [c] + (below + rest);
      assert ([c] + (below + rest))[1..] == below + rest;
      if cls !in c.classes {
        QuerySelectorIsFirstInDocumentOrder(c, cls);
        SearchFromIsFirst(p, i + 1, cls);
        FirstWithAppend(below, rest, cls);
      }
    }
  }

  /** `hasClass`: true when the root or any descendant carries the class. */
  function HasClass(widget: Element, className: string): (r: bool)
    ensures className in widget.classes ==> r
    ensures r <==> exists d :: d in Subtree(widget) && className in d.classes
  {
    QuerySelectorIsFirstInDocumentOrder(widget, className);
    assert forall d :: d in Subtree(widget) <==> d == widget || d in Descendants(widget);
    className in widget.classes || QuerySelector(widget, className).Some?
  }

  /** `findClassElement`: the root when it carries the class, otherwise the
      first descendant that does, otherwise nothing. */
  function FindClassElement(widget: Element, className: string): (r: Option<Element>)
    ensures className in widget.classes ==> r == Some(widget)
    ensures r == FirstWith(Subtree(widget), className)
    ensures r.Some? <==> HasClass(widget, className)
    ensures r.Some? ==> className in r.value.classes && r.value in Subtree(widget)
    ensures r.Some? && className !in widget.classes ==> r == FirstWith(Descendants(widget), className)
  {
    QuerySelectorIsFirstInDocumentOrder(widget, className);
    assert Subtree(widget)[1..] == Descendants(widget);
    if className in widget.classes then Some(widget) else QuerySelector(widget, className)
  }

  function IsCSVViewer(widget: Element, markers: WidgetClasses): (r: bool)
    ensures r <==> exists d :: d in Subtree(widget) && markers.csvViewer in d.classes
  {
    HasClass(widget, markers.csvViewer)
  }

  function IsJSONViewer(widget: Element, markers: WidgetClasses): (r: bool)
    ensures r <==> exists d :: d in Subtree(widget) && markers.jsonViewer in d.classes
  {
    HasClass(widget, markers.jsonViewer)
  }

  function IsPDFViewer(widget: Element, markers: WidgetClasses): (r: bool)
    ensures r <==> exists d :: d in Subtree(widget) && markers.pdfViewer in d.classes
  {
    HasClass(widget, markers.pdfViewer)
  }

  function IsNotebook(widget: Element, markers: WidgetClasses): (r: bool)
    ensures r <==> exists d :: d in Subtree(widget) && markers.notebook in d.classes
  {
    HasClass(widget, markers.notebook)
  }

  function IsFileEditor(widget: Element, markers: WidgetClasses): (r: bool)
    ensures r <==> exists d :: d in Subtree(widget) && markers.fileEditor in d.classes
  {
    HasClass(widget, markers.fileEditor)
  }

  /** `isHTMLViewer` also accepts a missing widget, and answers false. */
  function IsHTMLViewer(widget: Option<Element>, markers: WidgetClasses): (r: bool)
    ensures widget.None? ==> !r
    ensures widget.Some? ==> (r <==> exists d :: d in Subtree(widget.value) && markers.htmlViewer in d.classes)
  {
    widget.Some? && HasClass(widget.value, markers.htmlViewer)
  }

  /** The root wins over descendants: a root carrying the class is returned
      even when a child carries it too, while the plain search over the
      descendants finds the child. */
  lemma RootBeforeDescendants(cls: string)
    ensures var child := Element({cls}, []);
      var root := Element({cls}, [child]);
      && FindClassElement(root, cls) == Some(root)
      && QuerySelector(root, cls) == Some(child)
  {
  }

  /** Document order: a match inside the first child's subtree comes before
      a match on the second child. */
  lemma DeepMatchBeforeLaterSibling(cls: string)
    ensures var deep := Element({cls, "deep"}, []);
      var first := Element({}, [deep]);
      var second := Element({cls}, []);
      FindClassElement(Element({}, [first, second]), cls) == Some(deep)
  {
    var deep := Element({cls, "deep"}, []);
    var first := Element({}, [deep]);
    var second := Element({cls}, []);
    var root := Element({}, [first, second]);
    assert QuerySelector(first, cls) == Some(deep);
    assert SearchFrom(root, 0, cls) == Some(deep);
  }
}
