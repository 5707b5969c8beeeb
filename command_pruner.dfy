/** The startup step of the plugin's `activate`: once the application is
    restored, four command ids are deleted straight from the command
    registry's internal table. */
module CommandPruner {

  const CopyToClipboard: string := "notebook:copy-to-clipboard"
  const DownloadFile: string := "filebrowser:download"
  const DownloadDoc: string := "docmanager:download"
  const ExportNotebook: string := "notebook:export-to-format"

  /** `itemsToRemove`, in the order they are deleted. */
  const ItemsToRemove: seq<string> := [CopyToClipboard, DownloadFile, DownloadDoc, ExportNotebook]

  /** The ids as a set: exactly the four command ids, no two of them equal. */
  function RemovedIds(): (ids: set<string>)
    ensures ids == {CopyToClipboard, DownloadFile, DownloadDoc, ExportNotebook}
    ensures |ids| == 4
  {
    var ids := set id | id in ItemsToRemove;
    assert ids == {CopyToClipboard, DownloadFile, DownloadDoc, ExportNotebook};
    ids
  }

  /** Deleting `ids` one after the other, as the `forEach` does. Deleting an
      absent key is a no-op. The result has exactly the keys of `m` outside
      `ids`, each with its original entry. */
  function DeleteAll<T>(m: map<string, T>, ids: seq<string>): (r: map<string, T>)
    ensures forall k :: k in r <==> k in m && k !in ids
    ensures forall k :: k in r ==> r[k] == m[k]
    decreases ids
  {
    if ids == [] then m else DeleteAll(m - {ids[0]}, ids[1..])
  }

  /** The registry after pruning. */
  function Pruned<T>(m: map<string, T>): (r: map<string, T>)
    ensures r.Keys == m.Keys - RemovedIds()
    ensures forall k :: k in r ==> r[k] == m[k]
  {
    DeleteAll(m, ItemsToRemove)
  }

  /** No id is listed twice, so each `delete` of the loop removes a
      different command. */
  lemma FourDistinctIds()
    ensures forall i, j :: 0 <= i < j < |ItemsToRemove| ==> ItemsToRemove[i] != ItemsToRemove[j]
  {
  }

  /** Pruning twice is pruning once. */
  lemma {:induction false} PruneIdempotent<T>(m: map<string, T>)
    ensures Pruned(Pruned(m)) == Pruned(m)
  {
    var once := Pruned(m);
    assert Pruned(once).Keys == once.Keys;
  }

  /** A registry without any of the four ids is left as it is. */
  lemma {:induction false} PruneWithoutTargets<T>(m: map<string, T>)
    requires forall id :: id in ItemsToRemove ==> id !in m
    ensures Pruned(m) == m
  {
    assert Pruned(m).Keys == m.Keys;
  }

  /** The host's command registry, reduced to its internal `_commands` table
      from command id to command descriptor. */
  class CommandRegistry<T> {
    var commands: map<string, T>

    constructor (commands: map<string, T>)
      ensures this.commands == commands
    {
      this.commands := commands;
    }
  }

  /** The loop in `activate`: deletes each of the four ids from the table in
      place. */
  method PruneCommands<T>(registry: CommandRegistry<T>)
    modifies registry
    ensures registry.commands == Pruned(old(registry.commands))
  {
    for i := 0 to |ItemsToRemove|
      invariant forall k :: k in registry.commands <==> k in old(registry.commands) && k !in ItemsToRemove[..i]
      invariant forall k :: k in registry.commands ==> registry.commands[k] == old(registry.commands)[k]
    {
      registry.commands := registry.commands - {ItemsToRemove[i]};
    }
    assert ItemsToRemove[..|ItemsToRemove|] == ItemsToRemove;
    assert registry.commands.Keys == Pruned(old(registry.commands)).Keys;
  }
}
