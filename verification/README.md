# Checkpoint rotation store

A Dafny model of the checkpoint store used by a training run
(`assignment3/utils.py`): `save_checkpoint`, `get_previous_checkpoints` and
`load_best_checkpoint`. The store is one directory. It holds:

- state snapshots, each under its own file name;
- a copy of the best snapshot in `best.ckpt`;
- the manifest `latest_checkpoint`, a text file with the retained snapshot
  names, most recent first, one per line.

A save writes the snapshot, and `best.ckpt` too when the save is flagged
best. It then reads the manifest. It puts the saved name in front unless the
name is listed already. It unlinks the files listed past `max_keep` and
rewrites the manifest with the first `max_keep` names.

The project has four modules:

- `Manifest` (`manifest.dfy`) is the text encoding of the manifest:
  `"\n".join` on write; on read, text mode's universal-newline translation,
  `readlines()` and `str.strip()`. The main result is the round trip
  `Decode(Join(names)) == names` for names that are non-empty single
  stripped lines.
- `CheckpointStore` (`store.dfy`) holds the directory as a map from file
  names to files, the specification function `Save`, and the class `CheckpointDir`.
  The class updates its directory in place, step by step as the source
  does. `SaveCheckpoint` is proved to end in the directory `Save` describes.
- `StoreProperties` (`properties.dfy`) holds what a save guarantees:
  - the manifest bound and order;
  - which files change and which do not;
  - the rule for a re-saved name;
  - the retention invariant over any run of saves;
  - that `load_best_checkpoint` returns the last state saved as best.
- `StoreScenarios` (`scenarios.dfy`) works out three short runs: a rotation
  with a window of two; a best snapshot that outlives its rotation; and a
  manifest with a repeated line, whose save unlinks a file it still lists.

The serialized state is a type parameter `S`, so `torch.save` and
`torch.load` become storing and returning a value.

Line 57 tests membership anywhere in the list, so a name that is saved again
keeps its old position and is not moved to the front. When that position is
`max_keep` or later, the save unlinks the file it has just written
(`ReSavedPastWindowIsDeleted`).

## Model

| member | source | states |
|---|---|---|
| Manifest.Join | assignment3/utils.py:66 | `"\n".join`: the text holds no "\r" when no name does; `DecodeJoin` is its inverse |
| Manifest.Translate | assignment3/utils.py:73 | text-mode reading leaves no "\r", never lengthens the text, and changes nothing in a text without "\r"; `TranslateCrLf` and `TranslateLoneCr` say what each "\r" becomes |
| Manifest.TranslatePrefix | assignment3/utils.py:73 | a piece of text without "\r" is read unchanged, whatever follows it |
| Manifest.TranslateCrLf | assignment3/utils.py:73 | a "\r\n" pair is read as one "\n" |
| Manifest.TranslateLoneCr | assignment3/utils.py:73 | a "\r" not followed by "\n" is read as "\n" |
| Manifest.LineEnd | assignment3/utils.py:74 | the index of the first "\n", or the length when there is none |
| Manifest.ReadLines | assignment3/utils.py:74 | `readlines()`: the lines put back together are the text; each line is non-empty, holds "\n" only as its last character, and every line but the last ends in "\n", so the text is cut after every "\n" |
| Manifest.Strip | assignment3/utils.py:75 | `str.strip()`: the result has no whitespace at either end, is no longer than the input, leaves a stripped string unchanged, and adds no "\n" or "\r" |
| Manifest.StripIsSlice | assignment3/utils.py:75 | `str.strip()` removes only whitespace: the result is a piece of the input with only whitespace around it |
| Manifest.StripIgnoresLineEnd | assignment3/utils.py:74-75 | the "\n" kept by `readlines()` never reaches the stripped entry |
| Manifest.StripOneLine | assignment3/utils.py:74-75 | a line without "\r", with "\n" only as terminator, strips to a single line |
| Manifest.StripLines | assignment3/utils.py:75 | the list comprehension keeps the number of lines; `StripLinesAt` gives each entry |
| Manifest.StripLinesAt | assignment3/utils.py:75 | entry `i` of the list comprehension is line `i`, stripped |
| Manifest.StripReadLines | assignment3/utils.py:74-75 | every entry read from a text without "\r" is a stripped single line |
| Manifest.Decode | assignment3/utils.py:72-75 | every name read from the manifest is stripped and holds no line break |
| Manifest.DecodeJoin | assignment3/utils.py:66-75 | round trip: the list written at one save is the list read at the next |
| Manifest.DecodeEmpty | assignment3/utils.py:72-75 | the empty manifest made by `touch` lists nothing |
| CheckpointStore.Touch | assignment3/utils.py:72 | after `touch(exist_ok=True)` the manifest exists, and an existing manifest is left alone; `TouchKeepsListing` gives the rest |
| CheckpointStore.TouchKeepsListing | assignment3/utils.py:72 | `touch(exist_ok=True)` creates the manifest if needed and changes neither what it lists nor any other file |
| CheckpointStore.Listed | assignment3/utils.py:69-75 | a directory without a manifest lists nothing |
| CheckpointStore.Write | assignment3/utils.py:53-55 | the snapshot is stored under its name and, when flagged, also under `best.ckpt`; `WriteGet` gives every other file as it was |
| CheckpointStore.WriteGet | assignment3/utils.py:53-55 | after the two `torch.save` calls the snapshot, and `best.ckpt` when flagged, hold the new state, and every other file is unchanged |
| CheckpointStore.ListedAfterWrite | assignment3/utils.py:53-56 | writing the snapshot and `best.ckpt` does not change what the manifest lists |
| CheckpointStore.WithSaved | assignment3/utils.py:57-58 | the saved name is in the list, and the previous list follows it unchanged, with at most one name in front; `WithSavedGrows` says when |
| CheckpointStore.WithSavedGrows | assignment3/utils.py:57-58 | the list grows exactly when the name is listed nowhere, and then the name is its first entry; a listed name leaves the list as it was |
| CheckpointStore.Kept | assignment3/utils.py:64 | `[:max_keep]`: a prefix of exactly `max_keep` names when the list is longer, the whole list when it fits |
| CheckpointStore.Dropped | assignment3/utils.py:59-60 | the names the loop visits; kept and dropped names together make up the list |
| CheckpointStore.Prune | assignment3/utils.py:60-63 | the unlink loop, one name at a time, only removes files: every file left is one that was there, with the same contents; `PruneRemovesExactly` and `PruneGet` say which go |
| CheckpointStore.PruneRemovesExactly | assignment3/utils.py:60-63 | the loop removes exactly the listed files that exist; every other file keeps its contents |
| CheckpointStore.Save | assignment3/utils.py:44-66 | the directory after a save always holds a text manifest; `SaveGet` gives every file of it, `SaveWellFormed` what the manifest lists |
| CheckpointStore.SaveSteps | assignment3/utils.py:53-66 | a save, with the list it reads stated in terms of the directory before the call |
| CheckpointStore.WriteWellFormed | assignment3/utils.py:53-55 | writing snapshots under checkpoint names keeps the directory well formed |
| CheckpointStore.RewriteWellFormed | assignment3/utils.py:65-66 | rewriting the manifest with checkpoint names leaves a well-formed directory whose manifest reads back as those names |
| CheckpointStore.SaveWellFormed | assignment3/utils.py:44-66 | a save keeps the directory well formed, and the new manifest lists the first `max_keep` candidates |
| CheckpointStore.LoadBest | assignment3/utils.py:78-82 | `None` exactly when there is no `best.ckpt`, otherwise the state stored in it |
| CheckpointStore.CheckpointDir.constructor | assignment3/utils.py:51 | a new store directory is empty and well formed |
| CheckpointStore.CheckpointDir.PreviousCheckpoints | assignment3/utils.py:69-75 | touches the manifest and returns the names it lists |
| CheckpointStore.CheckpointDir.SaveCheckpoint | assignment3/utils.py:44-66 | the in-place save ends in the directory `Save` gives, and keeps the directory well formed |
| CheckpointStore.CheckpointDir.LoadBestCheckpoint | assignment3/utils.py:78-82 | returns what `LoadBest` gives for the current directory |
| StoreProperties.SaveManifest | assignment3/utils.py:56-66 | the new manifest has at most `max_keep` names and is a prefix of the candidates, so the most-recent-first order is kept |
| StoreProperties.FreshKept | assignment3/utils.py:57-64 | a name not listed before heads the candidates, is kept, and comes before the previous names |
| StoreProperties.FreshNameGoesFirst | assignment3/utils.py:53-66 | a name not listed before becomes the first manifest entry, the previous ones follow in order, and its snapshot is on disk |
| StoreProperties.ListedNameKeepsPosition | assignment3/utils.py:57-64 | a name already listed is not moved and not added twice; the manifest becomes the previous one, truncated |
| StoreProperties.ReSavedPastWindowIsDeleted | assignment3/utils.py:57-64 | re-saving a name listed at position `max_keep` or later unlinks the file just written and drops it from the manifest |
| StoreProperties.PruneGet | assignment3/utils.py:60-63 | after the loop, a visited name is absent and every other file is as before |
| StoreProperties.SaveGet | assignment3/utils.py:44-66 | every file after a save, stated against the directory before it: manifest, dropped names, the snapshot, `best.ckpt`, everything else |
| StoreProperties.SaveDeletesDropped | assignment3/utils.py:59-63 | every file listed past `max_keep` is gone after the save, including one that was already missing |
| StoreProperties.SaveFrame | assignment3/utils.py:44-66 | the save changes no file other than the snapshot, `best.ckpt` when flagged, the manifest and the dropped files |
| StoreProperties.CandidatesFrom | assignment3/utils.py:56-60 | each dropped name is the saved name or a name listed before |
| StoreProperties.BestNeverDropped | assignment3/utils.py:59-63 | the rotation never unlinks `best.ckpt` |
| StoreProperties.SaveThenLoadBest | assignment3/utils.py:54-55 | after a save, `load_best_checkpoint` returns the saved state when it was flagged best, and what it returned before otherwise |
| StoreProperties.CandidatesHaveNoDuplicates | assignment3/utils.py:57-58 | putting the name in front only when it is not listed brings in no duplicate |
| StoreProperties.KeptNotDropped | assignment3/utils.py:59-64 | in a list without duplicates, no kept name is also unlinked |
| StoreProperties.KeptFrom | assignment3/utils.py:57-64 | each kept name is the saved name or a name listed before |
| StoreProperties.SaveRetainsListed | assignment3/utils.py:56-66 | when the previous manifest has no duplicate and lists only existing files, so does the new one |
| StoreProperties.SavePreservesRetained | assignment3/utils.py:44-66 | a save with the same `max_keep` keeps the invariant: well formed, no duplicate, at most `max_keep` names, every listed file exists |
| StoreProperties.SaveAll | assignment3/utils.py:44-66 | a run of saves, one after the other, with the same `max_keep`: after at least one save the manifest exists; `SaveAllRetained` and `SaveAllLoadsLastBest` state what holds after it |
| StoreProperties.SaveAllRetained | assignment3/utils.py:44-66 | after any run of saves with the same `max_keep`, the invariant still holds |
| StoreProperties.EmptyRetained | assignment3/utils.py:69-75 | an empty directory satisfies the invariant |
| StoreProperties.SaveAllLoadsLastBest | assignment3/utils.py:78-82 | after any run of saves, `load_best_checkpoint` returns the state of the last save flagged best, whatever the rotation deleted |
| StoreScenarios.RotationOfThree | assignment3/utils.py:56-66 | saves of `a`, `b`, `c` with `max_keep` 2: the manifest is `[c, b]`; `a` is unlinked; `b` and `c` hold their states; no `best.ckpt` appears |
| StoreScenarios.BestOutlivesRotation | assignment3/utils.py:53-82 | `x` saved as best, then `y` with `max_keep` 1: the manifest is `[y]`, `x` is unlinked, and the best state is still `x`'s |
| StoreScenarios.RepeatedLineLosesListedFile | assignment3/utils.py:57-64 | a manifest that repeats a name can end up listing a file the save unlinked, so the no-duplicate condition is needed |

## Left out

- `set_seed`, `to_cuda`, `get_device`, `plot_loss` and the cuDNN flags are not part of this model. They configure libraries or draw plots and do not touch the store.
- Serialization: `torch.save` and `torch.load` store and return the state unchanged. The tensor format and the device mapping are not modelled.
- Filesystem failures are not modelled: an I/O error, a missing permission, or a crash between the snapshot write and the manifest rewrite. Concurrent writers are not modelled either. Every step is taken to succeed and to be seen at once.
- `mkdir(parents=True)` and the `is_dir` assertion in `get_previous_checkpoints` are not modelled. The directory is taken to exist, because the save creates it before it reads the manifest.
- The default `max_keep = 1` is not modelled as a default; every call passes `maxKeep`.
- `maxKeep < 1` is excluded by a precondition. With `max_keep = 0`, lines 59-64 unlink every listed file, the one just written included, and write an empty manifest. With `max_keep = -k`, they keep the prefix `previous[:-k]` and unlink the suffix `previous[-k:]`.
- CheckpointStore.Save: the saved name must be a checkpoint name. It must not be empty, `.`, `..`, `best.ckpt` or `latest_checkpoint`. It must not contain `/`, a line break or whitespace at either end. Other names do not read back from the manifest unchanged, or overwrite one of the store's own files, and are not modelled.
- CheckpointStore.WellFormed: a manifest whose lines name subdirectories, `.`, `..` or the empty string is not modelled. Such lines make the unlink loop act outside the plain files of the directory.
- Manifest.Join: the text is written with "\n" as the line end, as on POSIX systems. Text mode on Windows would write "\r\n", which the read side also accepts.
