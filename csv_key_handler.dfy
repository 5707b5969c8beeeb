/** `CsvCustomKeyHandler`: the key handler installed in the CSV grid's
    key-handler slot. It keeps a table of named key methods that starts with
    "default", and only ever runs "default". */
module CsvKeyHandler {
  import opened KeyEvents

  /** What a key method reports back: whether the grid may go on processing
      the key, and the event after the method's calls on it. */
  datatype KeyOutcome = KeyOutcome(passThrough: bool, event: KeyEvent)

  /** A key method, as a value that can be kept in the table. The grid
      argument of the original signature is not used by any method here and
      is left out. */
  datatype KeyHandlerMethod = KeyHandlerMethod(run: KeyEvent -> KeyOutcome)

  const DefaultName: string := "default"

  /** The method installed as "default": on a copy shortcut it applies the
      shared suppression policy and tells the grid to stop (false); any other
      key passes through (true) untouched. */
  function DefaultMethod(e: KeyEvent): (o: KeyOutcome)
    ensures o.passThrough <==> !IsCopyShortcut(e)
    ensures o.event == SuppressCopy(e)
    ensures o.passThrough ==> o.event == e
    ensures !o.passThrough ==> o.event.preventDefaultCalls == e.preventDefaultCalls + 1
    ensures !o.passThrough ==> o.event.stopPropagationCalls == e.stopPropagationCalls + 1
  {
    if IsCopyShortcut(e) then KeyOutcome(false, SuppressCopy(e)) else KeyOutcome(true, e)
  }

  /** The table entry `initializeMethods` installs under "default". */
  const DefaultEntry: KeyHandlerMethod := KeyHandlerMethod(DefaultMethod)

  /** Ctrl+C stops the grid; Ctrl+V, a plain "c" and Alt+C pass through. */
  lemma DefaultMethodExamples()
    ensures !DefaultMethod(NewEvent("c", true, false, false, false)).passThrough
    ensures !DefaultMethod(NewEvent("C", false, true, false, true)).passThrough
    ensures DefaultMethod(NewEvent("v", true, false, false, false)).passThrough
    ensures DefaultMethod(NewEvent("c", false, false, false, false)).passThrough
    ensures DefaultMethod(NewEvent("c", false, false, true, false)).passThrough
  {
    CopyShortcutExamples();
    CopyShortcutCharacterization(NewEvent("C", false, true, false, true));
  }

  class CsvCustomKeyHandler {
    var isDisposed: bool
    var methods: map<string, KeyHandlerMethod>

    /** A disposed handler has an empty table. */
    ghost predicate Valid()
      reads this
    {
      isDisposed ==> methods == map[]
    }

    /** Construction with `initializeMethods`: not disposed, and the table
        holds exactly the "default" method. */
    constructor ()
      ensures Valid() && !isDisposed
      ensures methods == map[DefaultName := DefaultEntry]
    {
      isDisposed := false;
      methods := map[DefaultName := DefaultEntry];
    }

    /** `dispose`: clears the table and sets the flag; a second call does
        nothing. */
    method Dispose()
      requires Valid()
      modifies this
      ensures Valid() && isDisposed && methods == map[]
      ensures old(isDisposed) ==> unchanged(this)
    {
      if isDisposed {
        return;
      }
      methods := map[];
      isDisposed := true;
    }

    /** `onKeyDown`: false once disposed or when "default" is missing;
        otherwise the outcome of the "default" method, and of no other. */
    method OnKeyDown(e: KeyEvent) returns (pass: bool, e': KeyEvent)
      ensures isDisposed ==> !pass && e' == e
      ensures !isDisposed && DefaultName !in methods ==> !pass && e' == e
      ensures !isDisposed && DefaultName in methods ==>
        KeyOutcome(pass, e') == methods[DefaultName].run(e)
      ensures !isDisposed && DefaultName in methods && methods[DefaultName] == DefaultEntry ==>
        (pass <==> !IsCopyShortcut(e)) && e' == SuppressCopy(e)
    {
      if isDisposed {
        return false, e;
      }
      if DefaultName in methods {
        var o := methods[DefaultName].run(e);
        return o.passThrough, o.event;
      }
      return false, e;
    }

    /** `addMethod`: sets the entry unless disposed. */
    method AddMethod(name: string, m: KeyHandlerMethod)
      requires Valid()
      modifies this
      ensures Valid() && isDisposed == old(isDisposed)
      ensures methods == if old(isDisposed) then old(methods) else old(methods)[name := m]
    {
      if !isDisposed {
        methods := methods[name := m];
      }
    }

    /** `removeMethod`: deletes the entry unless disposed; deleting an absent
        name changes nothing. */
    method RemoveMethod(name: string)
      requires Valid()
      modifies this
      ensures Valid() && isDisposed == old(isDisposed)
      ensures methods == if old(isDisposed) then old(methods) else old(methods) - {name}
    {
      if !isDisposed {
        methods := methods - {name};
      }
    }

    /** `isDisposed`. */
    function IsDisposed(): (r: bool)
      reads this
      requires Valid()
      ensures r ==> methods == map[]
    {
      isDisposed
    }
  }

  /** A fresh handler suppresses Ctrl+C (false, with both event calls made)
      and lets Ctrl+V through; an extra named method is never run; without
      "default", and once disposed, it swallows every key. */
  method FreshHandlerScenario() returns (h: CsvCustomKeyHandler, passes: seq<bool>, copyEvent: KeyEvent)
    ensures fresh(h) && h.Valid() && h.isDisposed
    ensures passes == [false, true, false, false, false]
    ensures copyEvent.preventDefaultCalls == 1 && copyEvent.stopPropagationCalls == 1
  {
    h := new CsvCustomKeyHandler();
    var copy := NewEvent("c", true, false, false, false);
    var paste := NewEvent("v", true, false, false, false);
    CopyShortcutExamples();
    var pass, e := h.OnKeyDown(copy);
    copyEvent := e;
    passes := [pass];
    pass, e := h.OnKeyDown(paste);
    passes := passes + [pass];
    h.AddMethod("extra", KeyHandlerMethod((ev: KeyEvent) => KeyOutcome(true, ev)));
    pass, e := h.OnKeyDown(copy);
    passes := passes + [pass];
    h.RemoveMethod(DefaultName);
    pass, e := h.OnKeyDown(paste);
    passes := passes + [pass];
    h.Dispose();
    pass, e := h.OnKeyDown(paste);
    passes := passes + [pass];
  }
}
