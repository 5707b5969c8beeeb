/** `CSVViewerExtension`: installs a fresh `CsvCustomKeyHandler` in a CSV
    viewer's grid, keeps every handler it created, and disposes them all at
    once. */
module CsvViewerExtension {
  import opened CsvKeyHandler

  /** The grid of a CSV viewer, reduced to its single-occupancy key-handler
      slot. Null stands for the grid's own built-in key handler. */
  class DataGrid {
    var keyHandler: CsvCustomKeyHandler?

    constructor ()
      ensures keyHandler == null
    {
      keyHandler := null;
    }
  }

  /** A CSV viewer widget, reduced to its internal grid, which may not exist
      yet. */
  class CSVViewer {
    var grid: DataGrid?

    constructor (grid: DataGrid?)
      ensures this.grid == grid
    {
      this.grid := grid;
    }
  }

  class CSVViewerExtension {
    var handlers: seq<CsvCustomKeyHandler>

    /** Every handler kept is consistent, and each was created by this
        extension, so none appears twice. */
    ghost predicate Valid()
      reads this, handlers
    {
      && (forall h :: h in handlers ==> h.Valid())
      && (forall i, j :: 0 <= i < j < |handlers| ==> handlers[i] != handlers[j])
    }

    constructor ()
      ensures Valid() && handlers == []
    {
      handlers := [];
    }

    /** `attachKeyHandler`: without a grid nothing changes; with one, a new
        handler takes the grid's key-handler slot, replacing whatever held it,
        and is appended to the list. */
    method AttachKeyHandler(widget: CSVViewer)
      requires Valid()
      modifies this, widget.grid
      ensures Valid()
      ensures widget.grid == null ==> handlers == old(handlers)
      ensures widget.grid != null ==>
        && |handlers| == |old(handlers)| + 1
        && handlers[..|old(handlers)|] == old(handlers)
        && var h := handlers[|old(handlers)|];
           && fresh(h) && widget.grid.keyHandler == h
           && !h.isDisposed && h.methods == map[DefaultName := DefaultEntry]
    {
      var grid := widget.grid;
      if grid != null {
        var handler := new CsvCustomKeyHandler();
        grid.keyHandler := handler;
        handlers := handlers + [handler];
      }
    }

    /** `dispose`: disposes every handler in the list, including those no
        longer installed in a grid, then empties the list. */
    method Dispose()
      requires Valid()
      modifies this, set h | h in handlers
      ensures Valid() && handlers == []
      ensures forall h :: h in old(handlers) ==> h.isDisposed && h.methods == map[]
    {
      var i := 0;
      while i < |handlers|
        invariant 0 <= i <= |handlers|
        invariant handlers == old(handlers)
        invariant forall h :: h in handlers ==> h.Valid()
        invariant forall j :: 0 <= j < i ==> handlers[j].isDisposed && handlers[j].methods == map[]
      {
        handlers[i].Dispose();
        i := i + 1;
      }
      handlers := [];
    }
  }

  /** Grid replacement: after a second attach on the same viewer, the grid's
      slot holds the second handler, both handlers are kept, and dispose
      disposes both; a second dispose leaves the list empty. */
  method ReplaceThenDispose(widget: CSVViewer) returns (ext: CSVViewerExtension, first: CsvCustomKeyHandler, second: CsvCustomKeyHandler)
    requires widget.grid != null
    modifies widget.grid
    ensures fresh(ext) && ext.handlers == []
    ensures first != second && widget.grid.keyHandler == second
    ensures first.isDisposed && first.methods == map[]
    ensures second.isDisposed && second.methods == map[]
  {
    ext := new CSVViewerExtension();
    ext.AttachKeyHandler(widget);
    first := ext.handlers[0];
    ext.AttachKeyHandler(widget);
    second := ext.handlers[1];
    ext.Dispose();
    ext.Dispose();
  }
}
