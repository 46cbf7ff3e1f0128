/**
 * The editor dialog's session (class `IniEditor`): the cached content of every listed file,
 * the active file, its edit buffer and the save flag, driven by the dialog's visibility, the
 * file selector, the watch, the Save button and the settings page.
 */
module IniEditorView {
  import opened Wrappers
  import opened PathUtil
  import opened CustomPaths
  import opened GameSupport
  import opened IniUtil

  /** `'loading' | 'editor' | 'settings'`. */
  datatype BodyState = Loading | Editor | Settings

  /** The connected props: the active game, its base INI files and its custom paths. */
  datatype Props = Props(gameId: string, baseInis: seq<string>, customInis: seq<string>) {
    /** `[...baseInis, ...customInis]`. */
    function AllInis(): seq<string> {
      baseInis + customInis
    }
  }

  /** `mapStateToProps`: the base files are the resolved list, none for an unresolved game;
      the custom files are the game's stored list, none for a game without an entry. */
  function MapStateToProps(store: CustomPathStore, activeGameId: string, documents: string,
                           discoveryPath: Option<string>, provider: IniProvider): (props: Props)
    reads store
    ensures props.gameId == activeGameId
    ensures activeGameId == "" ==> props.baseInis == []
    ensures GetGameInis(activeGameId, documents, discoveryPath, provider).None? ==> props.baseInis == []
    ensures GetGameInis(activeGameId, documents, discoveryPath, provider).Some? ==>
              props.baseInis == GetGameInis(activeGameId, documents, discoveryPath, provider).value.filePaths
    ensures props.customInis == store.Paths(activeGameId)
    ensures activeGameId !in store.filePaths ==> props.customInis == []
    ensures activeGameId in store.filePaths ==> props.customInis == store.filePaths[activeGameId]
  {
    var gameInis := GetGameInis(activeGameId, documents, discoveryPath, provider);
    Props(activeGameId, if gameInis.Some? then gameInis.value.filePaths else [], store.Paths(activeGameId))
  }

  /** The property name JavaScript uses for a possibly undefined key: the path itself, and
      "undefined" for `undefined`, which so shares its key with a path spelled "undefined". */
  function Key(path: Option<string>): (r: string)
    ensures path.Some? ==> r == path.value
    ensures r == "undefined" <==> (path.None? || path == Some("undefined"))
  {
    if path.Some? then path.value else "undefined"
  }

  /** `` `${iniData[filePath]}` ``: the cached text, or the string "undefined" when absent. */
  function CachedText(iniData: map<string, string>, filePath: string): (r: string)
    ensures filePath in iniData ==> r == iniData[filePath]
    ensures filePath !in iniData ==> r == "undefined"
  {
    if filePath in iniData then iniData[filePath] else "undefined"
  }

  /** `[...][0]`. */
  function FirstOf(list: seq<string>): (r: Option<string>)
    ensures r.Some? <==> list != []
    ensures r.Some? ==> r.value == list[0]
  {
    if list == [] then None else Some(list[0])
  }

  /** The part of `setActiveIni` before the watch starts: `ensureFile` when the cached content
      is exactly '' (it may fail); an undefined path makes the activation throw. */
  function PrepareActivation(iniData: map<string, string>, disk: Disk, filePath: Option<string>)
    : (r: Result<Disk, FsError>)
    ensures filePath.None? ==> r.Failure?
    ensures filePath.Some? && (filePath.value !in iniData || iniData[filePath.value] != "") ==> r == Success(disk)
    ensures r.Success? && r.value != disk ==>
              filePath.Some? && filePath.value in iniData && iniData[filePath.value] == "" &&
              filePath.value !in disk.files && r.value.files == disk.files[filePath.value := ""]
    ensures r.Failure? && filePath.Some? ==> filePath.value !in disk.files && filePath.value in disk.unwritable
  {
    if filePath.None? then Failure(FsError("ERR_INVALID_ARG_TYPE", "The \"filename\" argument must be of type string. Received undefined"))
    else if filePath.value in iniData && iniData[filePath.value] == "" then EnsureFile(disk, filePath.value)
    else Success(disk)
  }

  /** The disk after `setActiveIni(filePath)` and whether its watch started. The watch starts
      exactly when the file exists, or when it is cached as '' and `ensureFile` can create it.
      Only that creation changes the disk. */
  function Activation(iniData: map<string, string>, disk: Disk, filePath: Option<string>): (r: (Disk, bool))
    ensures r.1 <==> filePath.Some? &&
                     (filePath.value in disk.files ||
                      (filePath.value in iniData && iniData[filePath.value] == "" && filePath.value !in disk.unwritable))
    ensures r.0 == disk || (filePath.Some? && filePath.value !in disk.files &&
                            r.0 == disk.(files := disk.files[filePath.value := ""]))
  {
    var prep := PrepareActivation(iniData, disk, filePath);
    if prep.Success? then (prep.value, filePath.value in prep.value.files) else (disk, false)
  }

  /** A path is listed ignoring case. */
  predicate ListedIgnoringCase(list: seq<string>, p: string) {
    exists i :: 0 <= i < |list| && ToLower(list[i]) == ToLower(p)
  }

  function LowerAll(list: seq<string>): (r: seq<string>)
    ensures |r| == |list| && forall i :: 0 <= i < |list| ==> r[i] == ToLower(list[i])
  {
    seq(|list|, i requires 0 <= i < |list| => ToLower(list[i]))
  }

  class IniEditor {
    var visible: bool
    var bodyState: BodyState
    var iniData: map<string, string>
    var activeIni: Option<string>
    var editableData: Option<string>
    var saving: bool
    var error: Option<string>
    /** The module state of util.ts, which only this dialog uses. */
    const watch: FileWatch
    /** The host's settings store, written through the two actions. */
    const store: CustomPathStore

    /** No watcher was ever left open, and a registered updater belongs to the active file,
        which is also the watched path. */
    ghost predicate Valid()
      reads this, watch
    {
      watch.Valid() && watch.orphaned == 0 &&
      (watch.updater.Some? ==> activeIni == Some(watch.updater.value.filePath) && watch.watchPath == activeIni)
    }

    /** `iniData[activeIni]`. */
    function Cached(): Option<string>
      reads this
    {
      if Key(activeIni) in iniData then Some(iniData[Key(activeIni)]) else None
    }

    /** `blockSave`: the buffer holds what the cache holds (loose equality, so two undefined
        values are equal). */
    predicate BlockSave(): (r: bool)
      reads this
      ensures editableData.Some? ==>
                (r <==> Key(activeIni) in iniData && iniData[Key(activeIni)] == editableData.value)
      ensures editableData.None? ==> (r <==> Key(activeIni) !in iniData)
    {
      Cached() == editableData
    }

    /** The Save button's `disabled`. */
    predicate SaveDisabled(): (r: bool)
      reads this
      ensures saving ==> r
      ensures !saving ==> (r <==> BlockSave())
    {
      BlockSave() || saving
    }

    /** What `setActiveIni(filePath)` leaves in the dialog and the watch, given `activated`
        from `Activation`: when it completes, `filePath` alone is watched and its cached text
        is in the buffer. When it throws, nothing is watched, and the active file and buffer
        keep the values they had before (`prevActive`, `prevEditable`). */
    predicate ActivatedState(cache: map<string, string>, filePath: Option<string>, activated: bool,
                             prevActive: Option<string>, prevEditable: Option<string>)
      reads this`activeIni, this`editableData, watch
    {
      && (activated ==>
            && filePath.Some?
            && activeIni == filePath
            && editableData == Some(CachedText(cache, filePath.value))
            && watch.watcher == Some(Watcher(filePath.value, true))
            && watch.watchPath == filePath
            && watch.updater == Some(CacheUpdater(filePath.value)))
      && (!activated ==>
            && activeIni == prevActive
            && editableData == prevEditable
            && !watch.Live() && watch.watchPath.None? && watch.updater.None?)
    }

    /** What `preload` leaves: the cache holds exactly the listed files' contents, and the first
        listed path was activated on it. */
    predicate Preloaded(allInis: seq<string>, disk: Disk, disk': Disk, activated: bool,
                        prevActive: Option<string>, prevEditable: Option<string>)
      reads this`iniData, this`activeIni, this`editableData, watch
    {
      && iniData.Keys == (set p | p in allInis)
      && (forall p :: p in iniData ==> iniData[p] == GetConfigFileData(disk, p))
      && (disk', activated) == Activation(iniData, disk, FirstOf(allInis))
      && ActivatedState(iniData, FirstOf(allInis), activated, prevActive, prevEditable)
    }

    /** `initState({ bodyState: 'loading', saving: false })`; the cache starts empty. */
    constructor (store: CustomPathStore, visible: bool)
      ensures this.store == store && this.visible == visible && fresh(watch)
      ensures bodyState == Loading && !saving && iniData == map[]
      ensures activeIni.None? && editableData.None? && error.None?
      ensures Valid() && !watch.Live()
    {
      this.store := store;
      this.visible := visible;
      bodyState := Loading;
      saving := false;
      iniData := map[];
      activeIni, editableData, error := None, None, None;
      watch := new FileWatch();
    }

    /** `setActiveIni`. */
    method SetActiveIni(filePath: Option<string>, disk: Disk) returns (disk': Disk, activated: bool)
      requires Valid()
      modifies this, watch
      ensures Valid()
      ensures iniData == old(iniData) && (disk', activated) == Activation(iniData, disk, filePath)
      ensures ActivatedState(iniData, filePath, activated, old(activeIni), old(editableData))
      ensures bodyState == old(bodyState) && saving == old(saving) && error == old(error)
      ensures visible == old(visible)
    {
      watch.StopWatchingFile(false);
      var prep := PrepareActivation(iniData, disk, filePath);
      if prep.Failure? {
        disk', activated := disk, false;
        return;
      }
      disk' := prep.value;
      activated := watch.WatchIniFile(disk', filePath.value, Some(CacheUpdater(filePath.value)));
      if activated {
        activeIni := filePath;
        editableData := Some(CachedText(iniData, filePath.value));
      }
    }

    /** `preload`: load every file of `allInis` (the props' `[...baseInis, ...customInis]`)
        into the cache, activate the first key of the loaded map (the first listed path, or
        undefined when there is none) and show the editor. */
    method Preload(allInis: seq<string>, disk: Disk) returns (disk': Disk, activated: bool)
      requires Valid()
      modifies this, watch
      ensures Valid()
      ensures Preloaded(allInis, disk, disk', activated, old(activeIni), old(editableData))
      ensures bodyState == Editor && saving == old(saving) && error == old(error) && visible == old(visible)
    {
      var loaded := GetAllIniContent(disk, allInis);
      iniData := loaded;
      disk', activated := SetActiveIni(FirstOf(allInis), disk);
      bodyState := Editor;
    }

    /** `UNSAFE_componentWillReceiveProps`: becoming visible reloads (through 'loading', which
        the completed load replaces by 'editor'); becoming or staying hidden stops the watch
        and forgets the updater. `preload` runs before React installs the new props, so it
        reads the current ones: `props` here. */
    method WillReceiveProps(newVisible: bool, props: Props, disk: Disk) returns (disk': Disk, activated: bool)
      requires Valid()
      modifies this, watch
      ensures Valid() && visible == newVisible
      ensures !old(visible) && newVisible ==>
                && Preloaded(props.AllInis(), disk, disk', activated, old(activeIni), old(editableData))
                && bodyState == Editor
      ensures old(visible) && newVisible ==>
                && disk' == disk && !activated && iniData == old(iniData) && activeIni == old(activeIni)
                && editableData == old(editableData) && bodyState == old(bodyState)
                && watch.watcher == old(watch.watcher) && watch.watchPath == old(watch.watchPath)
                && watch.updater == old(watch.updater)
      ensures !newVisible ==>
                && disk' == disk && !activated && iniData == old(iniData) && activeIni == old(activeIni)
                && editableData == old(editableData) && bodyState == old(bodyState)
                && !watch.Live() && watch.watchPath.None? && watch.updater.None?
      ensures saving == old(saving) && error == old(error)
    {
      disk', activated := disk, false;
      var wasVisible := visible;
      visible := newVisible;
      if !wasVisible && newVisible {
        bodyState := Loading;
        disk', activated := Preload(props.AllInis(), disk);
      } else if !newVisible {
        watch.StopWatchingFile(false);
      }
    }

    /** `updateEditable`: the text area's content becomes the buffer; Save is then enabled
        exactly when it differs from the cached text and no save is running. */
    method UpdateEditable(text: string)
      modifies this
      ensures editableData == Some(text)
      ensures SaveDisabled() <==> (saving || Cached() == Some(text))
      ensures iniData == old(iniData) && activeIni == old(activeIni) && saving == old(saving)
      ensures bodyState == old(bodyState) && error == old(error) && visible == old(visible)
    {
      editableData := Some(text);
    }

    /** The watch callback `(data) => { iniData[filePath] = data; editableData = data }` run for
        the handler's event: the cache entry of the active file and the buffer both take the
        file's new text, so an external change wins over unsaved edits. */
    method OnFileEvent(event: WatchEvent, disk: Disk)
      requires Valid()
      modifies this
      ensures Valid()
      ensures old(watch.Notification(event, disk)).Some? ==>
                var data := old(watch.Notification(event, disk)).value.data;
                && activeIni.Some?
                && iniData == old(iniData)[activeIni.value := data]
                && editableData == Some(data)
                && BlockSave()
      ensures old(watch.Notification(event, disk)).None? ==>
                iniData == old(iniData) && editableData == old(editableData)
      ensures activeIni == old(activeIni) && saving == old(saving) && bodyState == old(bodyState)
      ensures error == old(error) && visible == old(visible)
    {
      var call := watch.Notification(event, disk);
      if call.Some? {
        iniData := iniData[call.value.updater.filePath := call.value.data];
        editableData := Some(call.value.data);
      }
    }

    /** `saveIniEdits` as written: `saveIniContent` never throws, so the cache takes the buffer
        and a deployment is requested whether or not the write succeeded; Save is then
        disabled. */
    method SaveIniEdits(disk: Disk) returns (disk': Disk, deploymentRequired: bool)
      requires Valid() && editableData.Some?
      modifies this, watch
      ensures Valid()
      ensures activeIni == old(activeIni) && editableData == old(editableData)
      ensures iniData == old(iniData)[Key(activeIni) := editableData.value]
      ensures !saving && BlockSave() && SaveDisabled() && deploymentRequired
      ensures bodyState == old(bodyState) && error == old(error) && visible == old(visible)
      ensures (activeIni.Some? && activeIni.value !in disk.unwritable) ==>
                && disk' == disk.(files := disk.files[activeIni.value := editableData.value])
                && watch.watcher == Some(Watcher(activeIni.value, true)) && watch.watchPath == activeIni
                && watch.updater == old(watch.updater)
      ensures !(activeIni.Some? && activeIni.value !in disk.unwritable) ==>
                disk' == disk && !watch.Live() && watch.updater == old(watch.updater)
    {
      saving := true;
      var failure;
      disk', failure := watch.SaveIniContent(disk, activeIni, editableData.value);
      iniData := iniData[Key(activeIni) := editableData.value];
      deploymentRequired := true;
      saving := false;
    }

    /** `saveIniEdits` as its `catch` intends: a failed write leaves the cache alone, records
        "Unable to save INI: ..." and requests no deployment, so Save stays enabled for a
        retry. */
    method SaveIniEditsChecked(disk: Disk) returns (disk': Disk, deploymentRequired: bool)
      requires Valid() && editableData.Some?
      modifies this, watch
      ensures Valid()
      ensures !saving && activeIni == old(activeIni) && editableData == old(editableData)
      ensures bodyState == old(bodyState) && visible == old(visible)
      ensures (activeIni.Some? && activeIni.value !in disk.unwritable) ==>
                && disk' == disk.(files := disk.files[activeIni.value := editableData.value])
                && iniData == old(iniData)[activeIni.value := editableData.value]
                && BlockSave() && deploymentRequired && error == old(error)
                && watch.watcher == Some(Watcher(activeIni.value, true)) && watch.watchPath == activeIni
                && watch.updater == old(watch.updater)
      ensures !(activeIni.Some? && activeIni.value !in disk.unwritable) ==>
                && disk' == disk && iniData == old(iniData) && !deploymentRequired
                && error.Some? && |error.value| >= 20 && error.value[..20] == "Unable to save INI: "
                && (old(!BlockSave()) ==> !SaveDisabled())
                && !watch.Live() && watch.updater == old(watch.updater)
    {
      saving := true;
      var failure;
      disk', failure := watch.SaveIniContent(disk, activeIni, editableData.value);
      if failure.None? {
        iniData := iniData[Key(activeIni) := editableData.value];
        deploymentRequired := true;
      } else {
        error := Some("Unable to save INI: " + failure.value.message);
        deploymentRequired := false;
      }
      saving := false;
    }

    /** `deleteIniPath`: when the deleted path is active, first activate the first entry of the
        combined list taken before the deletion (which may be the deleted path itself); then
        dispatch the deletion. */
    method DeleteIniPath(gameId: string, path: string, props: Props, disk: Disk)
      returns (disk': Disk, activated: bool)
      requires Valid()
      modifies this, watch, store
      ensures Valid()
      ensures store.filePaths == old(store.filePaths)[gameId := RemoveFirst(old(store.Paths(gameId)), path)]
      ensures old(activeIni) == Some(path) ==>
                && iniData == old(iniData) && (disk', activated) == Activation(iniData, disk, FirstOf(props.AllInis()))
                && ActivatedState(iniData, FirstOf(props.AllInis()), activated, old(activeIni), old(editableData))
      ensures old(activeIni) != Some(path) ==>
                && disk' == disk && !activated && iniData == old(iniData) && activeIni == old(activeIni)
                && editableData == old(editableData)
                && watch.watcher == old(watch.watcher) && watch.watchPath == old(watch.watchPath)
                && watch.updater == old(watch.updater)
      ensures saving == old(saving) && bodyState == old(bodyState) && error == old(error)
      ensures visible == old(visible)
    {
      disk', activated := disk, false;
      if activeIni == Some(path) {
        disk', activated := SetActiveIni(FirstOf(props.AllInis()), disk);
      }
      store.DeleteCustomConfigPath(Payload(gameId, path));
    }

    /** `browsePath`: nothing happens when no file is picked or the pick matches a listed path
        ignoring case; otherwise the file's content is cached and the path added for the game. */
    method BrowsePath(picked: Option<string>, props: Props, disk: Disk)
      requires Valid()
      modifies this, store
      ensures Valid()
      ensures (picked.None? || picked.value == "" || ListedIgnoringCase(props.AllInis(), picked.value)) ==>
                iniData == old(iniData) && store.filePaths == old(store.filePaths)
      ensures !(picked.None? || picked.value == "" || ListedIgnoringCase(props.AllInis(), picked.value)) ==>
                && iniData == old(iniData)[picked.value := GetConfigFileData(disk, picked.value)]
                && store.filePaths == old(store.filePaths)[props.gameId := Added(old(store.Paths(props.gameId)), picked.value)]
      ensures activeIni == old(activeIni) && editableData == old(editableData) && saving == old(saving)
      ensures bodyState == old(bodyState) && error == old(error) && visible == old(visible)
    {
      var allInis := LowerAll(props.AllInis());
      if picked.None? || picked.value == "" || ToLower(picked.value) in allInis {
        return;
      }
      iniData := iniData[picked.value := GetConfigFileData(disk, picked.value)];
      store.AddCustomConfigPath(Payload(props.gameId, picked.value));
    }

    /** The Settings button. */
    method OpenSettings()
      modifies this
      ensures bodyState == Settings
      ensures iniData == old(iniData) && activeIni == old(activeIni) && editableData == old(editableData)
      ensures saving == old(saving) && error == old(error) && visible == old(visible)
    {
      bodyState := Settings;
    }

    /** The Back button of the settings page. */
    method CloseSettings()
      modifies this
      ensures bodyState == Editor
      ensures iniData == old(iniData) && activeIni == old(activeIni) && editableData == old(editableData)
      ensures saving == old(saving) && error == old(error) && visible == old(visible)
    {
      bodyState := Editor;
    }
  }
}
