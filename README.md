# Basic INI editor for Vortex, modelled in Dafny

The plugin lets a Vortex user view and edit a game's INI files and track extra
configuration files of their own. This project models its four behavioural pieces:

- **Custom-path store** (`custom_paths.dfy`, module `CustomPaths`): the settings reducer that
  keeps, per game, an ordered list of user-added paths. ADD appends a path unless it is already
  listed. DELETE removes its first occurrence. The store is a class over
  `map<string, seq<string>>`, and its two actions are methods. `Added` and `RemoveFirst`
  specify the new list, and the lemmas about them give idempotence, order, no duplicates and
  add-then-delete.
- **Path resolver** (`game_support.dfy`, module `GameSupport`): the static table of known
  games, the Xbox Game Pass table, `getGameInis`, `gameHasIniFiles` and `isXboxPath`, all as
  pure functions. The documents folder is a parameter. The game definition's `iniFiles`
  provider is represented by what it returns.
- **File helpers and the single watch** (`ini_util.dfy`, module `IniUtil`):
  - the file system is a value `Disk` (the text of each existing file, the files that cannot
    be read, the paths a write fails on);
  - `getSelectOptions`, `getConfigFileData`, `getAllIniContent` and `ensureFile` are modelled
    over it;
  - the module state `watcher` / `watchPath` / `updater` is the class `FileWatch`, with
    `watchIniFile`, `stopWatchingFile`, `saveIniContent` and the change handler.
- **Editor session** (`ini_editor.dfy`, module `IniEditorView`): the class `IniEditor`, with
  the fields `bodyState`, `iniData`, `activeIni`, `editableData`, `saving` and `error`, and the
  methods of the dialog. Its invariant `Valid()` says two things. No watcher is ever left open
  unreferenced. A registered updater always belongs to the active file, which is also the
  watched path.

`path_util.dfy` (module `PathUtil`) holds the string and path primitives: ASCII
`toLowerCase`, `includes`, Windows `path.join` and `path.basename`. `wrappers.dfy` holds
`Option` (for `undefined`) and `Result` (for thrown errors). `scenarios.dfy` holds concrete
sessions verified against the contracts.

Where the code and the design description of the plugin disagree, the model follows the code:

- On an Xbox discovery path `getGameInis` returns the Xbox table's entry with no fallback, so
  it returns `undefined` for "skyrim". The design asks for a fallback to the standard list.
- `getGameInis` does no install-path placeholder substitution, and it does not append the custom
  paths. The custom paths are appended only in the editor's `[...baseInis, ...customInis]`.
- When the active path is deleted, `deleteIniPath` re-activates the first entry of the list
  taken *before* the deletion. That entry can be the deleted path itself (no base files, and
  the deleted path is the first custom path). The design says "first remaining path".
- A failed write is not surfaced (see Findings).
- Hiding the dialog only calls `stopWatchingFile()`. The active file, the edit buffer and the
  cache stay as they are, while the design clears them on close.

Other behaviour of the code kept in the model:

- `setActiveIni` on a path missing from the cache sets the buffer to the string `"undefined"`
  (a template literal of `undefined`).
- A lookup with an undefined `activeIni` uses the property name `"undefined"` (`Key`).
- `fs.watch` on a missing file throws before any module variable is assigned. The activation
  then stops with nothing watched.

## Model

| member | source | states |
|---|---|---|
| `CustomPaths.Added` | src/reducers/reducers.ts:9-11 | after ADD the path is listed; an already listed path leaves the list unchanged; a new one is appended at the end with the old list as prefix |
| `CustomPaths.AddedIdempotent` | src/reducers/reducers.ts:10 | adding the same path twice equals adding it once |
| `CustomPaths.AddedPreservesNoDuplicates` | src/reducers/reducers.ts:10 | ADD keeps a duplicate-free list duplicate-free |
| `CustomPaths.RemoveFirst` | src/reducers/reducers.ts:16-17 | independent definition of DELETE; the list shrinks by one exactly when the path was present |
| `CustomPaths.IndexOf` | src/reducers/reducers.ts:16 | returns -1 iff the path is absent, else the index of its first occurrence |
| `CustomPaths.RemoveFirstAbsent` | src/reducers/reducers.ts:16-17 | deleting an absent path leaves the list unchanged |
| `CustomPaths.RemoveFirstAt` | src/reducers/reducers.ts:16-17 | deleting a present path cuts out exactly its first occurrence and keeps the rest in order |
| `CustomPaths.RemoveFirstMultiset` | src/reducers/reducers.ts:17 | DELETE removes one copy of the path and nothing else (as multisets) |
| `CustomPaths.RemoveFirstPreservesNoDuplicates` | src/reducers/reducers.ts:16-17 | on a duplicate-free list DELETE keeps it duplicate-free and the path is gone |
| `CustomPaths.AddThenDelete` | src/reducers/reducers.ts:9-18 | deleting a path just added restores the original list |
| `CustomPaths.CustomPathStore.Paths` | src/reducers/reducers.ts:9 | a game with no entry has the list `[]` |
| `CustomPaths.CustomPathStore.constructor` | src/reducers/reducers.ts:21 | the default state is the empty map |
| `CustomPaths.CustomPathStore.AddCustomConfigPath` | src/reducers/reducers.ts:7-12 | the game's list becomes `Added` of its old list (`[]` if absent); other games are untouched; the no-duplicates invariant is kept |
| `CustomPaths.CustomPathStore.DeleteCustomConfigPath` | src/reducers/reducers.ts:13-19 | the game's list becomes `RemoveFirst` of its old list; other games are untouched; the invariant is kept and the path is then absent |
| `PathUtil.ToLowerIdempotent` | src/util/gameSupport.ts:80 | lower-casing twice equals lower-casing once |
| `PathUtil.ToLower` | src/util/gameSupport.ts:80 | same length; no ASCII upper-case letter is left; every other character is kept |
| `PathUtil.Includes` | src/util/gameSupport.ts:80 | the empty string is included in every string; nothing longer than the string is included |
| `PathUtil.Join` | src/util/gameSupport.ts:8 | the joined path starts with the first segment, followed by a separator when more segments come |
| `PathUtil.BaseName` | src/util/util.ts:9 | the base name holds no separator and is a suffix of the path without its trailing separators |
| `PathUtil.IncludesIff` | src/util/gameSupport.ts:80 | `includes` holds iff the fragment occurs at some index |
| `PathUtil.JoinEndsWith` | src/util/gameSupport.ts:8 | a joined path ends in a separator followed by its last segment |
| `PathUtil.TrimTrailingSeparators` | src/util/util.ts:9 | the result is a prefix with no trailing separator, and only separators were removed |
| `PathUtil.LastComponent` | src/util/util.ts:9 | the result is the longest separator-free suffix |
| `PathUtil.BaseNameIsFinalComponent` | src/util/util.ts:9 | the base name has no separator and ends the path (trailing separators aside), after a separator or at the start |
| `PathUtil.BaseNameOfJoin` | src/util/util.ts:9 | the base name of a joined path is its last segment |
| `GameSupport.MyGamesPaths` | src/util/gameSupport.ts:5-27 | each table entry is `path.join(documents, 'My Games', folder, name)`, one per name, in order |
| `GameSupport.MyGamesPathsBaseNames` | src/util/gameSupport.ts:5-27 | when the file names contain no separator, each path of a "My Games" entry has its file name as base name |
| `GameSupport.GameSupportTable` | src/util/gameSupport.ts:5-27 | exactly skyrim, skyrimse and fallout4 are listed, each with three files |
| `GameSupport.XboxGamePassSupportTable` | src/util/gameSupport.ts:29-44 | exactly skyrimse and fallout4 are listed, each with three files |
| `GameSupport.Lookup` | src/util/gameSupport.ts:52 | indexing a table is defined exactly for its games |
| `GameSupport.FindFragment` | src/util/gameSupport.ts:78-82 | `find` returns a fragment that occurs, or none when no fragment occurs |
| `GameSupport.IsXboxPath` | src/util/gameSupport.ts:78-82 | true exactly when one of the two fragments is included in the lower-cased path |
| `GameSupport.OnXboxPath` | src/util/gameSupport.ts:54 | true exactly when there is a discovery path and it is an Xbox path; the empty-path guard never changes the answer |
| `GameSupport.GetGameInis` | src/util/gameSupport.ts:46-58 | no game id gives `undefined`; a result on an Xbox path is the Xbox entry of skyrimse or fallout4; a result off it with no provider is the static table's entry of a known game |
| `GameSupport.GameHasIniFiles` | src/util/gameSupport.ts:60-75 | true exactly for the three known games, or for any other non-empty game id whose definition has `iniFiles` |
| `GameSupport.IsXboxPathIff` | src/util/gameSupport.ts:78-82 | a path is an Xbox path iff its lower-cased form contains "modifiablewindowsapps" or "3275kfvn8vcwc" |
| `GameSupport.IsXboxPathIgnoresCase` | src/util/gameSupport.ts:80 | a path and its lower-cased form are classified alike |
| `GameSupport.GetGameInisNoGame` | src/util/gameSupport.ts:47 | an empty or absent game id resolves to `undefined` |
| `GameSupport.GetGameInisProviderFirst` | src/util/gameSupport.ts:51-52 | off an Xbox path, a provider's result is used instead of the static table |
| `GameSupport.GetGameInisXboxOverride` | src/util/gameSupport.ts:54 | on an Xbox path the result is the Xbox table's entry, whatever the provider says; for "skyrim" it is `undefined` and nothing falls back |
| `GameSupport.GetGameInisStaticTable` | src/util/gameSupport.ts:5-56 | a known game with no provider, off an Xbox path, gets its table entry: three paths in table order, with base names such as Skyrim.ini, SkyrimPrefs.ini, SkyrimCustom.ini |
| `GameSupport.XboxVariantsRenameFolder` | src/util/gameSupport.ts:29-44 | each Xbox entry is the standard entry with the folder renamed to "<folder> MS", with the same file names |
| `GameSupport.XboxTableKeys` | src/util/gameSupport.ts:29-44 | only skyrimse and fallout4 have Xbox entries, and both are known games |
| `GameSupport.GameHasIniFilesCases` | src/util/gameSupport.ts:60-75 | false with no active game; true for the three known games; otherwise true iff the game defines `iniFiles` |
| `GameSupport.ResolvedImpliesHasIniFiles` | src/util/gameSupport.ts:46-75 | on any discovery path, a game that resolves to a file list is one `gameHasIniFiles` accepts |
| `IniUtil.GetSelectOptions` | src/util/util.ts:8-10 | one option per path, same length and order, value = the path, label = its base name |
| `IniUtil.SelectOptionLabels` | src/util/util.ts:9 | each label is the final path component of its value |
| `IniUtil.GetConfigFileData` | src/util/util.ts:23-32 | the file's text when it can be read, otherwise '' (missing file or any other error); never fails |
| `IniUtil.GetAllIniContent` | src/util/util.ts:13-21 | the keys are exactly the listed paths, and each holds `GetConfigFileData` of its file |
| `IniUtil.EnsureFile` | src/util/util.ts:34-43 | an existing file is left alone; a missing one is created empty; it fails (rethrown) only on a missing, unwritable path |
| `IniUtil.FileWatch.constructor` | src/util/util.ts:4-6 | initially nothing is watched and there is no updater |
| `IniUtil.FileWatch.WatchIniFile` | src/util/util.ts:45-48 | on an existing file: a new open watcher, `watchPath = path`, `updater = updateFunc`; a replaced watcher that was open counts as orphaned; on a missing file nothing changes |
| `IniUtil.FileWatch.StopWatchingFile` | src/util/util.ts:66-72 | the watcher is closed; without `keepUpdater` the updater and watched path are cleared, with it both are kept |
| `IniUtil.FileWatch.SaveIniContent` | src/util/util.ts:74-86 | after a successful write the file holds the data, the path is watched again and the earlier updater is kept; after a failed write (or an undefined path) nothing is written and the watch stays stopped |
| `IniUtil.FileWatch.Notification` | src/util/util.ts:50-63 | a closed watcher reports nothing; 'rename' calls the current updater with ''; a change calls it with the re-read content of `watchPath`, and a read error calls nothing |
| `IniEditorView.MapStateToProps` | src/views/IniEditor.tsx:442-453 | base files are the resolved list or `[]`; custom files are the game's stored list, `[]` for a game without an entry |
| `IniEditorView.Key` | src/views/IniEditor.tsx:281 | a path is its own key; `undefined` uses "undefined", a key it shares only with a path spelled "undefined" |
| `IniEditorView.CachedText` | src/views/IniEditor.tsx:281 | the cached text of a cached path, the string "undefined" otherwise |
| `IniEditorView.FirstOf` | src/views/IniEditor.tsx:417 | `[...][0]` is the first element, undefined on an empty list |
| `IniEditorView.PrepareActivation` | src/views/IniEditor.tsx:274-275 | `ensureFile` touches the disk only when the cached content is exactly '', and only by creating the missing file; an undefined path fails |
| `IniEditorView.Activation` | src/views/IniEditor.tsx:273-283 | the watch starts exactly when the file exists, or is cached as '' and `ensureFile` can create it; the disk changes only by that creation |
| `IniEditorView.LowerAll` | src/views/IniEditor.tsx:423 | each listed path lower-cased, in order |
| `IniEditorView.IniEditor.constructor` | src/views/IniEditor.tsx:239-246 | `bodyState` 'loading', `saving` false, nothing active or watched |
| `IniEditorView.IniEditor.BlockSave` | src/views/IniEditor.tsx:332-334 | with a buffer: true exactly when the active file's cache entry exists and equals it; without one: true exactly when there is no cache entry (loose equality of two `undefined`s) |
| `IniEditorView.IniEditor.SaveDisabled` | src/views/IniEditor.tsx:359 | disabled while saving; otherwise disabled exactly when `blockSave` holds |
| `IniEditorView.IniEditor.SetActiveIni` | src/views/IniEditor.tsx:273-283 | the previous watch is stopped; on success `activeIni = p`, the buffer is `iniData[p]` and only `p` is watched, with p's updater; on a throw nothing is watched and the active file is unchanged |
| `IniEditorView.IniEditor.Preload` | src/views/IniEditor.tsx:256-271 | the cache holds exactly the listed files' contents, the first listed path is activated, and the body shows the editor |
| `IniEditorView.IniEditor.WillReceiveProps` | src/views/IniEditor.tsx:248-254 | becoming visible reloads and activates; staying visible changes nothing; becoming or staying hidden stops the watch and clears the updater |
| `IniEditorView.IniEditor.UpdateEditable` | src/views/IniEditor.tsx:285-287 | the buffer becomes the text; Save is disabled exactly when a save is running or the cached text equals the buffer |
| `IniEditorView.IniEditor.OnFileEvent` | src/views/IniEditor.tsx:276-279 | a notification overwrites both the active file's cache entry and the buffer with the file's text, so an external change wins over unsaved edits |
| `IniEditorView.IniEditor.SaveIniEdits` | src/views/IniEditor.tsx:366-379 | `iniData[activeIni] = editableData`, `saving` ends false, `blockSave` holds and a deployment is requested; the disk and the watch follow `saveIniContent` |
| `IniEditorView.IniEditor.SaveIniEditsChecked` | src/views/IniEditor.tsx:366-379 | as SaveIniEdits on success; on a failed write the cache is unchanged, an "Unable to save INI: " error is set, no deployment is requested and Save stays enabled |
| `IniEditorView.IniEditor.DeleteIniPath` | src/views/IniEditor.tsx:413-419 | only when the deleted path is active, the first entry of the pre-deletion list is activated; the store then holds `RemoveFirst` of the game's list |
| `IniEditorView.IniEditor.BrowsePath` | src/views/IniEditor.tsx:421-439 | no pick, or a pick equal to a listed path ignoring case, changes nothing; otherwise the file's content is cached and the path is added for the game |
| `IniEditorView.IniEditor.OpenSettings` | src/views/IniEditor.tsx:351 | the body shows the settings page; nothing else changes |
| `IniEditorView.IniEditor.CloseSettings` | src/views/IniEditor.tsx:408 | the body shows the editor again; nothing else changes |
| `Scenarios.MissingFileScenario` | src/views/IniEditor.tsx:256-283 | opening on one missing file caches '' for it, creates it, and activates and watches it |
| `Scenarios.SelectTwiceScenario` | src/views/IniEditor.tsx:273-283 | after two selections only the last file is watched, and no watcher is left open |
| `Scenarios.SaveFailureScenario` | src/views/IniEditor.tsx:366-379 | a save to an unwritable file leaves the old text on disk, while the cache claims the edit and Save is disabled |
| `Scenarios.SaveFailureScenarioChecked` | src/views/IniEditor.tsx:366-379 | with the failure reported, the cache keeps the disk's text, an error is set and Save stays enabled |

## Findings

| source | as written | input that shows it | evidently intended | confidence | as-written member | corrected member |
|---|---|---|---|---|---|---|
| src/util/util.ts:74-86 | `saveIniContent` catches and logs every write error, so the `catch` in `saveIniEdits` (src/views/IniEditor.tsx:375-377) never runs. The cache takes the edit even when nothing was written. Save is then disabled, and the user cannot retry without changing the text. | a file "game.ini" holding "a=1" that cannot be written, edited to "a=2" and saved | the write error reaches `saveIniEdits`: the cache is unchanged, "Unable to save INI: ..." is shown and Save stays enabled | medium, not executed | `IniEditorView.IniEditor.SaveIniEdits` (shown by `Scenarios.SaveFailureScenario`) | `IniEditorView.IniEditor.SaveIniEditsChecked` (shown by `Scenarios.SaveFailureScenarioChecked`) |

## Left out

- Rendering: the React markup, Modal/Select/Button, translation, the stylesheet and `renderLoading` / `renderSettings` / `render`. It is UI only. Of `renderEditor`, only the `blockSave` rule is modelled (`BlockSave`, `SaveDisabled`).
- `IniEditorF`, the exported function component. It relies on `this` and cannot work. Its save also builds `{ [activeIni]: editableData, ...iniData }`, which keeps the old cached value. The class is modelled instead.
- `src/index.ts` (registration with the host) and `src/actions/actions.ts` (action creators). Their payload is the `Payload` datatype.
- Host calls (`getVortexPath`, `getGame`, `selectFile`, `opn`, `log`, `setDeploymentNecessary`). Their results are parameters. The deployment request is an out-parameter. Logging is dropped.
- Asynchrony: every operation runs to completion, and a single disk value stands for the file system during a call. `preload` completes before it returns, so 'loading' is replaced by 'editor' at once. An unawaited `setActiveIni` is treated as finished before the next step. Event interleavings and writes racing with reads are not modelled.
- React's `state` and `nextState` are one state here.
- `iniData` is `undefined` until the first load. It is modelled as the empty map: no editor operation is offered before the first load.
- The reducer fetches the stored array and mutates it in place before writing it back, so the previous state's array is changed too. The model works on values and does not capture that aliasing.
- `toLowerCase` is modelled on ASCII letters only.
- `path.join` normalisation (collapsing `..` and doubled separators) is not modelled. `path.basename` drive-letter prefixes (`C:name`) are not modelled either.
- `Object.keys` lists integer-like keys first. `Preload` assumes insertion order, which holds for file paths.
- The file picker's extension filters belong to the host dialog and are not modelled.
- `fs.watch` event delivery itself: the watch is recorded state, and `OnFileEvent` delivers an event on demand.
- SaveIniEdits requires a defined edit buffer. The source's Save button is enabled with no buffer only if the cache holds a file whose path is literally "undefined".
