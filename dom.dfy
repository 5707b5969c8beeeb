/** The slice of the browser DOM the handlers touch: elements and documents
    as keydown listener surfaces, and iframes with their load listeners. */
module Dom {

  /** An element or a document. `keydownListeners` holds the registered
      keydown listeners by identity; adding a listener that is already there
      does nothing, as in the DOM. `iframes` stands for
      `querySelectorAll('iframe')`: the descendant iframes in document order. */
  class EventTarget {
    var keydownListeners: set<object>
    var userSelectNone: bool
    var iframes: seq<IFrame>

    constructor (iframes: seq<IFrame>)
      ensures keydownListeners == {} && !userSelectNone && this.iframes == iframes
    {
      keydownListeners := {};
      userSelectNone := false;
      this.iframes := iframes;
    }

    /** `querySelector('iframe')`: the first descendant iframe, if any. */
    function FirstIFrame(): (f: IFrame?)
      reads this
      ensures f == null <==> iframes == []
      ensures f != null ==> f == iframes[0]
    {
      if iframes == [] then null else iframes[0]
    }
  }

  /** An iframe element. `contentDocument` is null until a same-origin
      document is available; `loadListeners` lists, in registration order,
      the owners of the load callbacks added to it. */
  class IFrame {
    var contentDocument: EventTarget?
    var loadListeners: seq<object>

    constructor (doc: EventTarget?)
      ensures contentDocument == doc && loadListeners == []
    {
      contentDocument := doc;
      loadListeners := [];
    }
  }
}
