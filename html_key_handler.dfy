/** `HTMLElementKeyHandler`: binds one keydown listener to a DOM node and/or
    to an iframe's document once the iframe has loaded, suppresses the copy
    shortcut there, and unbinds itself on dispose. */
module HtmlKeyHandler {
  import opened KeyEvents
  import opened Dom

  class HTMLElementKeyHandler {
    /** Diagnostic name, used only in log messages. */
    var name: string
    var disposed: bool
    var iframe: IFrame?
    var html: EventTarget?

    /** Disposal releases both references. */
    ghost predicate Valid()
      reads this
    {
      disposed ==> iframe == null && html == null
    }

    /** The document of the tracked iframe, when there is one. */
    ghost function IFrameDocument(): (d: EventTarget?)
      reads this, iframe
      ensures d != null ==> iframe != null && d == iframe.contentDocument
    {
      if iframe == null then null else iframe.contentDocument
    }

    /** The surfaces `dispose` unbinds from: the tracked node and the tracked
        iframe's document. */
    ghost function Surfaces(): (s: set<EventTarget>)
      reads this, iframe
      ensures html != null ==> html in s
      ensures IFrameDocument() != null ==> IFrameDocument() in s
      ensures forall t :: t in s ==> t == html || t == IFrameDocument()
    {
      (if html == null then {} else {html}) +
      (if IFrameDocument() == null then {} else {IFrameDocument()})
    }

    /** Stores the references, hooks the iframe's load event, then binds the
        listener to the node. The iframe's document is not touched until the
        load callback runs. */
    constructor (name: string, html: EventTarget?, iframe: IFrame?)
      modifies html, iframe
      ensures Valid() && !disposed
      ensures this.name == name && this.html == html && this.iframe == iframe
      ensures html != null ==> html.keydownListeners == old(html.keydownListeners) + {this}
      ensures html != null ==> html.userSelectNone == old(html.userSelectNone) && html.iframes == old(html.iframes)
      ensures iframe != null ==> iframe.loadListeners == old(iframe.loadListeners) + [this]
      ensures iframe != null ==> iframe.contentDocument == old(iframe.contentDocument)
    {
      this.name := name;
      this.html := html;
      this.iframe := iframe;
      disposed := false;
      new;
      if iframe != null {
        AttachToIframe(iframe);
      }
      if html != null {
        AttachHtmlHandler(html);
      }
    }

    /** `attachHTmlHandler`: a null node is ignored; otherwise the listener is
        removed and added again, so the node ends up holding exactly one
        registration of it. The handler's own fields are not updated. */
    method AttachHtmlHandler(node: EventTarget?)
      modifies node
      ensures node != null ==> node.keydownListeners == old(node.keydownListeners) + {this}
      ensures node != null ==> node.userSelectNone == old(node.userSelectNone) && node.iframes == old(node.iframes)
    {
      if node == null {
        return;
      }
      node.keydownListeners := node.keydownListeners - {this};
      node.keydownListeners := node.keydownListeners + {this};
    }

    /** `attachToIframe`: a no-op once disposed; otherwise tracks the iframe
        and adds a new load callback to it. */
    method AttachToIframe(frame: IFrame)
      requires Valid()
      modifies this, frame
      ensures Valid()
      ensures old(disposed) ==> unchanged(this) && unchanged(frame)
      ensures !old(disposed) ==> iframe == frame && !disposed && html == old(html) && name == old(name)
      ensures !old(disposed) ==> frame.loadListeners == old(frame.loadListeners) + [this]
      ensures frame.contentDocument == old(frame.contentDocument)
    {
      if disposed {
        return;
      }
      iframe := frame;
      frame.loadListeners := frame.loadListeners + [this];
    }

    /** The load callback registered by `attachToIframe`; the environment may
        run it at any time. It reads the handler's current iframe reference,
        not the iframe it was registered on: after dispose that reference is
        null and nothing is attached. */
    method OnIframeLoad()
      requires Valid()
      modifies IFrameDocument()
      ensures Valid()
      ensures old(IFrameDocument()) != null ==>
        var doc := old(IFrameDocument());
        doc.keydownListeners == old(doc.keydownListeners) + {this} && doc.userSelectNone
        && doc.iframes == old(doc.iframes)
      ensures disposed ==> old(IFrameDocument()) == null
    {
      if iframe != null {
        var doc := iframe.contentDocument;
        if doc != null {
          doc.keydownListeners := doc.keydownListeners + {this};
          doc.userSelectNone := true;
        }
      }
    }

    /** `dispose`: removes the listener from the tracked iframe's document and
        from the tracked node, drops both references and marks the handler
        disposed; a second call does nothing. */
    method Dispose()
      requires Valid()
      modifies this, html, if iframe == null then null else iframe.contentDocument
      ensures Valid() && disposed && html == null && iframe == null
      ensures name == old(name)
      ensures var node := old(html); node != null ==>
        && node.keydownListeners == old(node.keydownListeners) - {this}
        && node.userSelectNone == old(node.userSelectNone) && node.iframes == old(node.iframes)
      ensures var doc := old(IFrameDocument()); doc != null ==>
        && doc.keydownListeners == old(doc.keydownListeners) - {this}
        && doc.userSelectNone == old(doc.userSelectNone) && doc.iframes == old(doc.iframes)
      ensures old(disposed) ==> unchanged(this)
    {
      if disposed {
        return;
      }
      var doc := if iframe == null then null else iframe.contentDocument;
      if doc != null {
        doc.keydownListeners := doc.keydownListeners - {this};
      }
      if html != null {
        html.keydownListeners := html.keydownListeners - {this};
      }
      iframe := null;
      html := null;
      disposed := true;
    }

    /** `isDisposed`. */
    function IsDisposed(): (r: bool)
      reads this
      requires Valid()
      ensures r ==> html == null && iframe == null
    {
      disposed
    }
  }

  /** A late load: the handler is built on an iframe, disposed before the
      iframe has loaded, and the load callback runs afterwards. Nothing is
      registered on the iframe's document. */
  method LateLoadAttachesNothing(frame: IFrame) returns (h: HTMLElementKeyHandler)
    requires frame.contentDocument != null
    modifies frame, frame.contentDocument
    ensures frame.contentDocument == old(frame.contentDocument)
    ensures h.disposed && h.iframe == null
    ensures h !in frame.contentDocument.keydownListeners
    ensures frame.loadListeners == old(frame.loadListeners) + [h]
  {
    h := new HTMLElementKeyHandler("IFrame Container", null, frame);
    h.Dispose();
    h.OnIframeLoad();
  }

  /** `attachHTmlHandler` has no disposed check: a disposed handler given a
      node registers itself there again, and holds no reference that a later
      dispose could use to remove it. */
  method DisposedHandlerRebinds(node: EventTarget) returns (h: HTMLElementKeyHandler)
    modifies node
    ensures h.disposed && h.html == null && h.iframe == null
    ensures h in node.keydownListeners
  {
    h := new HTMLElementKeyHandler("HTML Element", null, null);
    h.Dispose();
    h.AttachHtmlHandler(node);
  }

  /** `attachHTmlHandler` does not record the node: a live handler attached to
      a second node stays registered there after dispose, which unbinds only
      the node given to the constructor. */
  method SecondNodeOutlivesDispose(first: EventTarget, second: EventTarget) returns (h: HTMLElementKeyHandler)
    requires first != second
    modifies first, second
    ensures h.disposed && h.html == null
    ensures h !in first.keydownListeners
    ensures h in second.keydownListeners
  {
    h := new HTMLElementKeyHandler("HTML Element", first, null);
    h.AttachHtmlHandler(second);
    h.Dispose();
  }
}
