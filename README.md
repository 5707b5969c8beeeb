# jupyterlab-disable-download — key interception and command pruning, in Dafny

This project models the core of a JupyterLab extension. The extension discourages users from copying or
downloading content out of some document viewers. It does this in two ways:

- **Copy-shortcut suppression.** Two disposable key handlers apply one predicate.
  A key event is a copy shortcut when Ctrl or the Mac modifier is held and the key, lower-cased, is `"c"`.
  On a copy shortcut the handler calls `preventDefault()` and `stopPropagation()` on the event.
  - `HTMLElementKeyHandler` listens on a DOM node, or on an iframe's document once the iframe has loaded.
  - `CsvCustomKeyHandler` sits in the CSV grid's single key-handler slot. It keeps a table of named key methods and only ever runs `"default"`.
- **Handler collections.** `HTMLViewerExtension` and `CSVViewerExtension` create handlers, keep every one they created, and dispose them all at once.
- **Widget classification.** `WidgetClassChecker` decides a widget's kind by looking for a marker CSS class on its root node or on any descendant.
- **Command pruning.** Once the application is restored, four download/copy command ids are deleted straight from the command registry's internal table.

Modules, one per source file, plus two shared ones:

| module | file | models |
|---|---|---|
| `KeyEvents` | key_events.dfy | the key event, ASCII lower-casing, the copy-shortcut predicate and its effect on the event |
| `Dom` | dom.dfy | elements and documents as keydown listener sets; iframes with their document and load callbacks |
| `HtmlKeyHandler` | html_key_handler.dfy | `src/handlers/htmlKeyHandler.ts` |
| `CsvKeyHandler` | csv_key_handler.dfy | `src/handlers/csvKeyHandler.ts` |
| `WidgetClassChecker` | widget_class_checker.dfy | `src/widget-class-checker.ts` |
| `HtmlViewerExtension` | html_viewer_extension.dfy | `src/widgets/htmlViewerExtension.ts` |
| `CsvViewerExtension` | csv_viewer_extension.dfy | `src/widgets/csvViewerExtension.ts` |
| `CommandPruner` | command_pruner.dfy | the command-pruning step of `activate` in `src/index.ts` |

How the model represents things:

- **Listeners.** A listener surface (an element or a document) is a `Dom.EventTarget` object. Its `keydownListeners` field is a set of handler objects.
  - Each handler binds one closure in its constructor, so the handler object stands for that closure.
  - The DOM ignores a second registration of the same listener, so a set is exact.
- **Iframe load.** The iframe's `load` event is an explicit method, `OnIframeLoad`, that the environment may call at any time.
- **Key events.** A key event is a value. It counts how often `preventDefault()` and `stopPropagation()` were called on it.
- **Command registry.** The registry is an object whose `commands` map is changed in place, as `delete commands._commands[item]` does.

Four details of the code that the model keeps as written:

- **The `key == "Meta"` test.** The code also treats `key == "Meta"` as the Mac modifier. The model keeps that test, and `KeyEvents.CopyShortcutCharacterization` proves it never matters.
- **Late load after dispose.** The load callback does not check the disposed flag. It reads the handler's current iframe reference, and `dispose` sets that reference to null. The model reproduces that mechanism. `OnIframeLoad` proves that a disposed handler attaches nothing.
- **Disposed does not mean registered nowhere.** `attachHTmlHandler` neither checks the disposed flag nor records the node it is given. A disposed handler given a node registers itself there again (`HtmlKeyHandler.DisposedHandlerRebinds`). A live handler attached to a second node stays registered there after dispose (`HtmlKeyHandler.SecondNodeOutlivesDispose`).
- **Dispose does not touch the grid slot.** `CsvCustomKeyHandler.dispose` does not take itself out of the grid's slot. A disposed handler left in the slot answers `false` to every key.

## Model

| member | source | states |
|---|---|---|
| `KeyEvents.ToLower` | src/handlers/htmlKeyHandler.ts:84 | the lower-cased key has the same length and folds each character on its own (ASCII) |
| `KeyEvents.LowerIsC` | src/handlers/htmlKeyHandler.ts:84 | `key.toLowerCase() === 'c'` holds exactly for the keys "c" and "C" |
| `KeyEvents.CopyShortcutCharacterization` | src/handlers/htmlKeyHandler.ts:80-84 | the shortcut test holds iff (ctrlKey or metaKey) and the key is "c"/"C"; the `key == "Meta"` disjunct never contributes |
| `KeyEvents.CopyShortcutExamples` | src/handlers/htmlKeyHandler.ts:80-84 | Ctrl+C, Cmd+C and Ctrl+Shift+C are suppressed; Ctrl+V, plain "c", Alt+C and a lone Meta press are not |
| `KeyEvents.SuppressCopy` | src/handlers/htmlKeyHandler.ts:79-98 | on a copy shortcut `preventDefault` and `stopPropagation` are each called once more and the key fields are kept; otherwise the event is untouched |
| `KeyEvents.SuppressCopyOnFreshEvent` | src/handlers/htmlKeyHandler.ts:84-89 | on a fresh event each of the two calls happens exactly once if the key is Ctrl/Cmd+C, and never otherwise |
| `HtmlKeyHandler.HTMLElementKeyHandler.constructor` | src/handlers/htmlKeyHandler.ts:13-29 | stores both references; hooks one load callback on the iframe; binds the listener to the node and changes nothing else on it; does not touch the iframe's document |
| `HtmlKeyHandler.HTMLElementKeyHandler.AttachHtmlHandler` | src/handlers/htmlKeyHandler.ts:35-45 | a null node changes nothing; otherwise the node's listeners become the old ones plus this handler, which is there exactly once however often it is called; the handler's fields are not updated |
| `HtmlKeyHandler.HTMLElementKeyHandler.AttachToIframe` | src/handlers/htmlKeyHandler.ts:51-59 | on a disposed handler nothing changes; otherwise the iframe becomes the tracked one and gets one more load callback |
| `HtmlKeyHandler.HTMLElementKeyHandler.OnIframeLoad` | src/handlers/htmlKeyHandler.ts:59-72 | binds the listener to the document of the currently tracked iframe and disables text selection there, changing nothing else on it; once disposed no document is tracked, so nothing is attached |
| `HtmlKeyHandler.HTMLElementKeyHandler.Dispose` | src/handlers/htmlKeyHandler.ts:103-128 | removes this handler, and nothing else, from the tracked node and the tracked iframe's document; nulls both references; sets disposed; a second call changes nothing |
| `HtmlKeyHandler.HTMLElementKeyHandler.IsDisposed` | src/handlers/htmlKeyHandler.ts:133-135 | a disposed handler holds no node and no iframe |
| `HtmlKeyHandler.LateLoadAttachesNothing` | src/handlers/htmlKeyHandler.ts:59-64 | built on an iframe, disposed, then loaded: the handler is not registered on the iframe's document |
| `HtmlKeyHandler.DisposedHandlerRebinds` | src/handlers/htmlKeyHandler.ts:35-45 | with no disposed check in `attachHTmlHandler`, a disposed handler given a node is registered on it while holding no references |
| `HtmlKeyHandler.SecondNodeOutlivesDispose` | src/handlers/htmlKeyHandler.ts:35-45 | a handler built on one node and attached to a second stays registered on the second after dispose, and is removed from the first |
| `CsvKeyHandler.DefaultMethod` | src/handlers/csvKeyHandler.ts:28-47 | returns false iff the copy-shortcut predicate holds, and then applies the same suppression as the HTML handler; otherwise returns true and leaves the event alone |
| `CsvKeyHandler.DefaultMethodExamples` | src/handlers/csvKeyHandler.ts:30-46 | Ctrl+C and Cmd+Shift+C stop the grid; Ctrl+V, plain "c" and Alt+C pass through |
| `CsvKeyHandler.CsvCustomKeyHandler.constructor` | src/handlers/csvKeyHandler.ts:10-13 | not disposed; the table holds exactly the "default" method |
| `CsvKeyHandler.CsvCustomKeyHandler.Dispose` | src/handlers/csvKeyHandler.ts:19-25 | empties the table and sets the flag; a second call changes nothing |
| `CsvKeyHandler.CsvCustomKeyHandler.OnKeyDown` | src/handlers/csvKeyHandler.ts:50-61 | false with the event untouched when disposed or when "default" is missing; otherwise exactly the outcome of the "default" entry, no other entry being run; with the original "default", false iff the key is a copy shortcut |
| `CsvKeyHandler.CsvCustomKeyHandler.AddMethod` | src/handlers/csvKeyHandler.ts:63-67 | sets the named entry unless disposed, in which case nothing changes |
| `CsvKeyHandler.CsvCustomKeyHandler.RemoveMethod` | src/handlers/csvKeyHandler.ts:69-73 | deletes the named entry unless disposed, in which case nothing changes |
| `CsvKeyHandler.CsvCustomKeyHandler.IsDisposed` | src/handlers/csvKeyHandler.ts:15-17 | a disposed handler has an empty table |
| `CsvKeyHandler.FreshHandlerScenario` | src/handlers/csvKeyHandler.ts:50-73 | on a fresh handler: Ctrl+C returns false and calls `preventDefault` and `stopPropagation` once each; Ctrl+V returns true; an added extra method leaves Ctrl+C blocked; after removing "default", and after dispose, every key returns false |
| `WidgetClassChecker.FirstWith` | src/widget-class-checker.ts:22 | reference search: None iff no node carries the class; otherwise a node that carries it with no earlier node carrying it |
| `WidgetClassChecker.QuerySelectorIsFirstInDocumentOrder` | src/widget-class-checker.ts:12 | the depth-first `querySelector` search returns the first descendant carrying the class in document order |
| `WidgetClassChecker.HasClass` | src/widget-class-checker.ts:5-13 | true whenever the root carries the class; true iff the root or some descendant carries it |
| `WidgetClassChecker.FindClassElement` | src/widget-class-checker.ts:15-23 | the root when it carries the class; otherwise the first descendant in document order that does; present iff `HasClass`; a result carries the class and lies in the subtree |
| `WidgetClassChecker.IsCSVViewer` | src/widget-class-checker.ts:25-27 | true iff the root or a descendant carries the CSV-viewer marker |
| `WidgetClassChecker.IsJSONViewer` | src/widget-class-checker.ts:29-31 | true iff the root or a descendant carries the JSON-viewer marker |
| `WidgetClassChecker.IsPDFViewer` | src/widget-class-checker.ts:33-35 | true iff the root or a descendant carries the PDF-viewer marker |
| `WidgetClassChecker.IsNotebook` | src/widget-class-checker.ts:37-39 | true iff the root or a descendant carries the notebook marker |
| `WidgetClassChecker.IsFileEditor` | src/widget-class-checker.ts:41-43 | true iff the root or a descendant carries the file-editor marker |
| `WidgetClassChecker.IsHTMLViewer` | src/widget-class-checker.ts:45-50 | false for a missing widget; otherwise true iff the root or a descendant carries the HTML-viewer marker |
| `WidgetClassChecker.RootBeforeDescendants` | src/widget-class-checker.ts:17-22 | a root carrying the class is returned even when its child carries it too, while the descendant search alone finds the child |
| `WidgetClassChecker.DeepMatchBeforeLaterSibling` | src/widget-class-checker.ts:22 | a match inside the first child's subtree is found before a match on the second child |
| `HtmlViewerExtension.HTMLViewerExtension.constructor` | src/widgets/htmlViewerExtension.ts:5 | starts with no handlers |
| `HtmlViewerExtension.HTMLViewerExtension.AttachIFrameKeyHandler` | src/widgets/htmlViewerExtension.ts:11-22 | with a descendant iframe, appends exactly one fresh handler tracking the first iframe and keeps earlier entries; without one, the list is unchanged |
| `HtmlViewerExtension.HTMLViewerExtension.AttachHtmlKeyHandler` | src/widgets/htmlViewerExtension.ts:24-27 | always appends exactly one fresh handler bound to the container, with no deduplication; earlier entries are unchanged; the container's other listeners and state are kept |
| `HtmlViewerExtension.HTMLViewerExtension.Dispose` | src/widgets/htmlViewerExtension.ts:29-32 | every handler in the list ends up disposed and unbound from the node and iframe document it tracked; on those surfaces no listener is added, every listener that is not one of the list's handlers stays, and the rest of their state is kept; the list is empty, so a second call does nothing |
| `HtmlViewerExtension.DisposeEach` | src/widgets/htmlViewerExtension.ts:30 | the `forEach`: each handler of the list is disposed and unbound from its surfaces; on the surfaces, listeners are only removed, and only the list's handlers |
| `HtmlViewerExtension.DisposeOne` | src/widgets/htmlViewerExtension.ts:30 | one `handler.dispose()` of the `forEach`: the handler is unbound from its surfaces, and on the surfaces listeners are only removed, and only list handlers |
| `HtmlViewerExtension.DisposeKeepsOtherListeners` | src/widgets/htmlViewerExtension.ts:24-32 | a listener someone else registered on the container survives the extension's dispose, while the extension's handler is removed |
| `HtmlViewerExtension.DisposeBeforeLoad` | src/widgets/htmlViewerExtension.ts:11-32 | disposing the extension before the iframe loads: the later load attaches nothing to the iframe's document |
| `CsvViewerExtension.CSVViewerExtension.constructor` | src/widgets/csvViewerExtension.ts:7 | starts with no handlers |
| `CsvViewerExtension.CSVViewerExtension.AttachKeyHandler` | src/widgets/csvViewerExtension.ts:9-18 | without a grid nothing changes; with one, a fresh handler holding only "default" takes the grid's slot, replacing any previous occupant, and is appended to the list |
| `CsvViewerExtension.CSVViewerExtension.Dispose` | src/widgets/csvViewerExtension.ts:20-23 | every accumulated handler, installed in a grid or not, is disposed with an empty table; the list is empty afterwards |
| `CsvViewerExtension.ReplaceThenDispose` | src/widgets/csvViewerExtension.ts:9-23 | two attaches on one grid: the second, distinct handler holds the slot; dispose empties the list and leaves both handlers disposed with empty tables, and a second dispose is harmless |
| `CommandPruner.RemovedIds` | src/index.ts:25-30 | the pruned set is exactly the four command ids, and has four elements: no two ids coincide |
| `CommandPruner.FourDistinctIds` | src/index.ts:7-12 | no id occurs twice in the deletion list |
| `CommandPruner.DeleteAll` | src/index.ts:35-37 | deleting ids one by one leaves exactly the other keys, each with its original entry; absent ids change nothing |
| `CommandPruner.Pruned` | src/index.ts:24-37 | none of the four ids remains; every other key keeps its original entry |
| `CommandPruner.PruneIdempotent` | src/index.ts:36 | pruning twice equals pruning once |
| `CommandPruner.PruneWithoutTargets` | src/index.ts:36 | a registry holding none of the four ids is left unchanged |
| `CommandPruner.PruneCommands` | src/index.ts:35-37 | the in-place loop leaves the registry's table equal to `Pruned` of the old table |

## Left out

- The active-view dispatcher that reacts to `currentChanged` and the shutdown wiring are not part of this model. No modelled source file contains them.
- Plugin registration (`JupyterFrontEndPlugin`, `autoStart`) is left out. So is the wait on `app.restored`: `CommandPruner.PruneCommands` is the body of the callback that runs once the promise settles.
- `console.log` and `console.warn` output is left out. The handler's `name` is kept, but only logs use it.
- Delivery of a key event to the listeners of a surface is not modelled. The model states what one handler does to the event it receives.
- `toLowerCase` is modelled for ASCII only. Unicode case mapping is out of scope.
- `contentDocument || contentWindow?.document` is one `contentDocument` field. It is null while no same-origin document is available.
- `Dom.EventTarget.FirstIFrame`: `querySelector('iframe')` is abstracted as the element's list of descendant iframes in document order. The element tree of the container is not modelled. `instanceof HTMLIFrameElement` always holds for what that query returns.
- `WidgetClassChecker.FindClassElement` returns the matching node as a value, not as an object identity. Two identical subtrees cannot be told apart.
- The `WIDGET_CLASSES` marker values live in `src/constants.ts`, which is not part of this model. They are a `WidgetClasses` parameter, and class names are assumed to need no CSS-selector escaping.
- CsvKeyHandler.CsvCustomKeyHandler.OnKeyDown: key methods are modelled as side-effect-free functions of the event (`KeyHandlerMethod`). A closure passed to `addMethod` may act on the grid, on the handler or on anything else it captures, and may call `dispose`. The model does not capture those effects. The contract's "no other state changes" holds only under this restriction.
- The `DataGrid` argument of key methods is dropped, since no method uses it. The grid's built-in key handler, which occupies the slot before any attach, is represented by `null`.
- The private `_grid` access and the `_commands` table are modelled as a grid field and a plain `map<string, T>`.
- `jest.config.js` is test-runner configuration with no logic.
