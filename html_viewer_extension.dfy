/** `HTMLViewerExtension`: creates HTML/iframe key handlers for viewer
    containers, keeps every handler it created, and disposes them all at once. */
module HtmlViewerExtension {
  import opened Dom
  import opened HtmlKeyHandler

  class HTMLViewerExtension {
    var handlers: seq<HTMLElementKeyHandler>

    /** Every handler kept is itself consistent, and each was created by this
        extension, so none appears twice. */
    ghost predicate Valid()
      reads this, handlers
    {
      && (forall h :: h in handlers ==> h.Valid())
      && (forall i, j :: 0 <= i < j < |handlers| ==> handlers[i] != handlers[j])
    }

    /** The objects `dispose` may change: the handlers and the surfaces each of
        them is bound to. */
    ghost function Footprint(): set<object>
      reads this, handlers, set h | h in handlers :: h.iframe
    {
      (set h | h in handlers :: h as object) +
      (set h, t | h in handlers && t in h.Surfaces() :: t as object)
    }

    /** The surfaces the handlers are bound to. */
    ghost function Targets(): set<EventTarget>
      reads this, handlers, set h | h in handlers :: h.iframe
    {
      set h, t | h in handlers && t in h.Surfaces() :: t
    }

    constructor ()
      ensures Valid() && handlers == []
    {
      handlers := [];
    }

    /** `attachIFrameKeyHandler`: when the container has a descendant iframe,
        appends one new handler tracking the first such iframe; otherwise the
        list is unchanged. */
    method AttachIFrameKeyHandler(iframeContainer: EventTarget)
      requires Valid()
      modifies this, iframeContainer.FirstIFrame()
      ensures Valid()
      ensures iframeContainer.iframes == [] ==> handlers == old(handlers)
      ensures iframeContainer.iframes != [] ==>
        var frame := iframeContainer.iframes[0];
        && |handlers| == |old(handlers)| + 1
        && handlers[..|old(handlers)|] == old(handlers)
        && var h := handlers[|old(handlers)|];
           fresh(h) && !h.disposed && h.iframe == frame && h.html == null
           && frame.loadListeners == old(frame.loadListeners) + [h]
           && frame.contentDocument == old(frame.contentDocument)
    {
      var frame := iframeContainer.FirstIFrame();
      if frame != null {
        var handler := new HTMLElementKeyHandler("IFrame Container", null, frame);
        handlers := handlers + [handler];
      }
    }

    /** `attachHtmlKeyHandler`: always appends one new handler bound to the
        container; earlier entries are kept as they are. */
    method AttachHtmlKeyHandler(container: EventTarget, name: string := "Html viewer")
      requires Valid()
      modifies this, container
      ensures Valid()
      ensures |handlers| == |old(handlers)| + 1
      ensures handlers[..|old(handlers)|] == old(handlers)
      ensures var h := handlers[|old(handlers)|];
        fresh(h) && !h.disposed && h.html == container && h.iframe == null && h.name == name
        && container.keydownListeners == old(container.keydownListeners) + {h}
      ensures container.userSelectNone == old(container.userSelectNone) && container.iframes == old(container.iframes)
    {
      var handler := new HTMLElementKeyHandler(name, container, null);
      handlers := handlers + [handler];
    }

    /** `dispose`: disposes every handler in the list, then empties it. Each
        handler ends up disposed and unbound from the node and the iframe
        document it tracked; on those surfaces no listener is added, and
        only the list's handlers are removed. */
    method Dispose()
      requires Valid()
      modifies this, Footprint()
      ensures Valid() && handlers == []
      ensures forall h :: h in old(handlers) ==> h.disposed && h.html == null && h.iframe == null
      ensures forall h :: h in old(handlers) && old(h.html) != null ==> h !in old(h.html).keydownListeners
      ensures forall h :: h in old(handlers) && old(h.IFrameDocument()) != null ==>
        h !in old(h.IFrameDocument()).keydownListeners
      ensures forall t :: t in old(Targets()) ==> t.keydownListeners <= old(t.keydownListeners)
      ensures forall t :: t in old(Targets()) ==> Keeps(old(t.keydownListeners), t.keydownListeners, old(handlers))
      ensures forall t :: t in old(Targets()) ==>
        t.userSelectNone == old(t.userSelectNone) && t.iframes == old(t.iframes)
    {
      ghost var targets := Targets();
      DisposeEach(handlers, targets);
      handlers := [];
    }
  }

  /** The `forEach` of `dispose`: disposes the handlers one after the other.
      `targets` covers the surfaces they are bound to; on those, only the
      handlers of the list are removed. */
  method DisposeEach(hs: seq<HTMLElementKeyHandler>, ghost targets: set<EventTarget>)
    requires forall a, b :: 0 <= a < b < |hs| ==> hs[a] != hs[b]
    requires forall h :: h in hs ==> h.Valid() && h.Surfaces() <= targets
    modifies targets, set h | h in hs
    ensures forall h :: h in hs ==> h.disposed && h.html == null && h.iframe == null
    ensures forall h :: h in hs && old(h.html) != null ==> h !in old(h.html).keydownListeners
    ensures forall h :: h in hs && old(h.IFrameDocument()) != null ==>
      h !in old(h.IFrameDocument()).keydownListeners
    ensures forall t :: t in targets ==> t.keydownListeners <= old(t.keydownListeners)
    ensures forall t :: t in targets ==> Keeps(old(t.keydownListeners), t.keydownListeners, hs)
    ensures forall t :: t in targets ==> t.userSelectNone == old(t.userSelectNone) && t.iframes == old(t.iframes)
  {
    var i := 0;
    while i < |hs|
      invariant 0 <= i <= |hs|
      invariant forall j :: 0 <= j < i ==> hs[j].disposed && hs[j].html == null && hs[j].iframe == null
      invariant forall j :: i <= j < |hs| ==> unchanged(hs[j])
      invariant forall t :: t in targets ==> t.keydownListeners <= old(t.keydownListeners)
      invariant forall t :: t in targets ==> Keeps(old(t.keydownListeners), t.keydownListeners, hs)
      invariant forall t :: t in targets ==> t.userSelectNone == old(t.userSelectNone) && t.iframes == old(t.iframes)
      invariant forall j :: 0 <= j < i && old(hs[j].html) != null ==> hs[j] !in old(hs[j].html).keydownListeners
      invariant forall j :: 0 <= j < i && old(hs[j].IFrameDocument()) != null ==>
        hs[j] !in old(hs[j].IFrameDocument()).keydownListeners
    {
      DisposeOne(hs[i], targets, hs);
      i := i + 1;
    }
  }

  /** Every listener of `before` that is not one of `hs` is still in `after`. */
  ghost predicate Keeps(before: set<object>, after: set<object>, hs: seq<HTMLElementKeyHandler>)
  {
    forall x :: x in before && x !in hs ==> x in after
  }

  /** One step of the `forEach`: disposing `h` removes only `h` from the
      surfaces in `targets`. */
  method DisposeOne(h: HTMLElementKeyHandler, ghost targets: set<EventTarget>, ghost hs: seq<HTMLElementKeyHandler>)
    requires h.Valid() && h in hs
    modifies h, h.html, if h.iframe == null then null else h.iframe.contentDocument
    ensures h.disposed && h.html == null && h.iframe == null
    ensures old(h.html) != null ==> h !in old(h.html).keydownListeners
    ensures old(h.IFrameDocument()) != null ==> h !in old(h.IFrameDocument()).keydownListeners
    ensures forall t :: t in targets ==> t.keydownListeners <= old(t.keydownListeners)
    ensures forall t :: t in targets ==> Keeps(old(t.keydownListeners), t.keydownListeners, hs)
    ensures forall t :: t in targets ==> t.userSelectNone == old(t.userSelectNone) && t.iframes == old(t.iframes)
  {
    h.Dispose();
  }

  /** Disposing the extension while an iframe handler still waits for its
      load event: when the load callback runs afterwards, nothing is
      registered on the iframe's document. */
  method DisposeBeforeLoad(container: EventTarget) returns (ext: HTMLViewerExtension, h: HTMLElementKeyHandler)
    requires container.iframes != [] && container.iframes[0].contentDocument != null
    modifies container.iframes[0], container.iframes[0].contentDocument
    ensures fresh(ext) && ext.handlers == []
    ensures h.disposed && h.iframe == null
    ensures h !in old(container.iframes[0].contentDocument).keydownListeners
  {
    var frame := container.iframes[0];
    ghost var doc := frame.contentDocument;
    ext := new HTMLViewerExtension();
    ext.AttachIFrameKeyHandler(container);
    h := ext.handlers[0];
    assert ext.handlers == [h] && h.Surfaces() == {doc};
    forall o | o in ext.Footprint() ensures o == h || o == doc {
    }
    ext.Dispose();
    h.OnIframeLoad();
  }

  /** A listener registered on the container by someone else survives the
      extension's dispose, while the extension's own handler is removed. */
  method DisposeKeepsOtherListeners(container: EventTarget, other: object) returns (ext: HTMLViewerExtension, h: HTMLElementKeyHandler)
    requires other in container.keydownListeners
    modifies container
    ensures fresh(ext) && ext.handlers == [] && h.disposed
    ensures other in container.keydownListeners
    ensures h !in container.keydownListeners
  {
    ext := new HTMLViewerExtension();
    ext.AttachHtmlKeyHandler(container);
    h := ext.handlers[0];
    assert ext.handlers == [h] && h.Surfaces() == {container};
    assert ext.Targets() == {container};
    forall o | o in ext.Footprint() ensures o == h || o == container {
    }
    ext.Dispose();
  }
}
