/** The keyboard event as the two key handlers see it, and the copy-shortcut
    policy both of them apply. */
module KeyEvents {

  /** A keydown event. The two counters record how often the handlers called
      `preventDefault()` and `stopPropagation()` on it; a fresh event has both
      at zero. */
  datatype KeyEvent = KeyEvent(
    key: string,
    ctrlKey: bool,
    metaKey: bool,
    altKey: bool,
    shiftKey: bool,
    preventDefaultCalls: nat,
    stopPropagationCalls: nat)

  /** A fresh event, before any listener has seen it. */
  function NewEvent(key: string, ctrlKey: bool, metaKey: bool, altKey: bool, shiftKey: bool): (e: KeyEvent)
    ensures e.key == key && e.ctrlKey == ctrlKey && e.metaKey == metaKey
    ensures e.altKey == altKey && e.shiftKey == shiftKey
    ensures e.preventDefaultCalls == 0 && e.stopPropagationCalls == 0
  {
    KeyEvent(key, ctrlKey, metaKey, altKey, shiftKey, 0, 0)
  }

  /** ASCII case folding of one character. */
  function LowerChar(c: char): char
  {
    if 'A' <= c <= 'Z' then (c as int + 32) as char else c
  }

  /** `toLowerCase()` restricted to ASCII: every character is folded on its own. */
  function ToLower(s: string): (r: string)
    ensures |r| == |s|
    ensures forall i :: 0 <= i < |s| ==> r[i] == LowerChar(s[i])
  {
    if s == [] then [] else [LowerChar(s[0])] + ToLower(s[1..])
  }

  /** The shortcut test both handlers run: a Ctrl or Mac modifier, and the key
      "c" in either case. The `key == "Meta"` disjunct is kept as written. */
  predicate IsCopyShortcut(e: KeyEvent)
  {
    var isMac := e.metaKey || e.key == "Meta";
    (e.ctrlKey || isMac) && ToLower(e.key) == "c"
  }

  /** The key folds to "c" exactly when it is "c" or "C". */
  lemma {:induction false} LowerIsC(key: string)
    ensures ToLower(key) == "c" <==> key == "c" || key == "C"
  {
    if |key| == 1 {
      assert ToLower(key) == [LowerChar(key[0])];
      assert key == [key[0]];
    }
  }

  /** The `key == "Meta"` disjunct never contributes: the shortcut holds exactly
      when Ctrl or Meta is held and the key is "c" or "C". */
  lemma CopyShortcutCharacterization(e: KeyEvent)
    ensures IsCopyShortcut(e) <==> (e.ctrlKey || e.metaKey) && (e.key == "c" || e.key == "C")
  {
    LowerIsC(e.key);
  }

  /** Ctrl+C, Cmd+C and Ctrl+Shift+C are suppressed; Ctrl+V, a plain "c",
      Alt+C and a lone Meta press are not. */
  lemma CopyShortcutExamples()
    ensures IsCopyShortcut(NewEvent("c", true, false, false, false))
    ensures IsCopyShortcut(NewEvent("c", false, true, false, false))
    ensures IsCopyShortcut(NewEvent("C", true, false, false, true))
    ensures !IsCopyShortcut(NewEvent("v", true, false, false, false))
    ensures !IsCopyShortcut(NewEvent("c", false, false, false, false))
    ensures !IsCopyShortcut(NewEvent("c", false, false, true, false))
    ensures !IsCopyShortcut(NewEvent("Meta", false, true, false, false))
  {
    CopyShortcutCharacterization(NewEvent("c", true, false, false, false));
    CopyShortcutCharacterization(NewEvent("c", false, true, false, false));
    CopyShortcutCharacterization(NewEvent("C", true, false, false, true));
    CopyShortcutCharacterization(NewEvent("v", true, false, false, false));
    CopyShortcutCharacterization(NewEvent("c", false, false, false, false));
    CopyShortcutCharacterization(NewEvent("c", false, false, true, false));
    CopyShortcutCharacterization(NewEvent("Meta", false, true, false, false));
  }

  /** The effect of the shared policy on an event: on a copy shortcut,
      `preventDefault()` and `stopPropagation()` are each called once;
      any other event is left as it was. */
  function SuppressCopy(e: KeyEvent): (r: KeyEvent)
    ensures r.key == e.key && r.ctrlKey == e.ctrlKey && r.metaKey == e.metaKey
    ensures r.altKey == e.altKey && r.shiftKey == e.shiftKey
    ensures IsCopyShortcut(e) ==> r.preventDefaultCalls == e.preventDefaultCalls + 1
    ensures IsCopyShortcut(e) ==> r.stopPropagationCalls == e.stopPropagationCalls + 1
    ensures !IsCopyShortcut(e) ==> r == e
  {
    if IsCopyShortcut(e) then
      e.(preventDefaultCalls := e.preventDefaultCalls + 1,
         stopPropagationCalls := e.stopPropagationCalls + 1)
    else e
  }

  /** On a fresh event, the policy calls each of the two methods exactly once
      when it suppresses, and never otherwise. */
  lemma SuppressCopyOnFreshEvent(key: string, ctrlKey: bool, metaKey: bool, altKey: bool, shiftKey: bool)
    ensures var r := SuppressCopy(NewEvent(key, ctrlKey, metaKey, altKey, shiftKey));
      var suppressed := (ctrlKey || metaKey) && (key == "c" || key == "C");
      && r.preventDefaultCalls == (if suppressed then 1 else 0)
      && r.stopPropagationCalls == (if suppressed then 1 else 0)
  {
    CopyShortcutCharacterization(NewEvent(key, ctrlKey, metaKey, altKey, shiftKey));
  }
}
