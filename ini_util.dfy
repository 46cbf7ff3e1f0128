/**
 * File helpers and the single file watch. The file system is a value: the text of every
 * existing file, the files that exist but cannot be read, and the paths a write fails on.
 * The watch is the module-level state `watcher` / `watchPath` / `updater`.
 */
module IniUtil {
  import opened Wrappers
  import opened PathUtil

  datatype FsError = FsError(code: string, message: string)

  datatype Disk = Disk(files: map<string, string>, unreadable: set<string>, unwritable: set<string>)

  /** `fs.readFileAsync(p, 'utf8')`. */
  function ReadFile(disk: Disk, p: string): Result<string, FsError> {
    if p !in disk.files then Failure(FsError("ENOENT", "ENOENT: no such file or directory, open '" + p + "'"))
    else if p in disk.unreadable then Failure(FsError("EACCES", "EACCES: permission denied, open '" + p + "'"))
    else Success(disk.files[p])
  }

  /** `fs.writeFileAsync(p, data, 'utf8')`. */
  function WriteFile(disk: Disk, p: string, data: string): Result<Disk, FsError> {
    if p in disk.unwritable then Failure(FsError("EPERM", "EPERM: operation not permitted, open '" + p + "'"))
    else Success(disk.(files := disk.files[p := data]))
  }

  // ---------------------------------------------------------- select options

  /** A `{ value, label }` option of the file selector (`label` is a Dafny keyword). */
  datatype SelectOption = SelectOption(value: string, caption: string)

  /** `getSelectOptions`: one option per path, in order, valued by the path and labelled by
      its base name. */
  function GetSelectOptions(iniList: seq<string>): (r: seq<SelectOption>)
    ensures |r| == |iniList|
    ensures forall i :: 0 <= i < |r| ==> r[i].value == iniList[i] && r[i].caption == BaseName(iniList[i])
  {
    seq(|iniList|, i requires 0 <= i < |iniList| => SelectOption(iniList[i], BaseName(iniList[i])))
  }

  /** Each label is the final component of its path: it contains no separator and ends the
      path, trailing separators aside. */
  lemma SelectOptionLabels(iniList: seq<string>, i: nat)
    requires i < |iniList|
    ensures var o := GetSelectOptions(iniList)[i];
      HasNoSeparator(o.caption) &&
      exists dir :: TrimTrailingSeparators(o.value) == dir + o.caption && (dir == [] || IsSeparator(dir[|dir| - 1]))
  {
    BaseNameIsFinalComponent(iniList[i]);
  }

  // ------------------------------------------------------------ file content

  /** `getConfigFileData`: the file's text, or '' on any read failure (a missing file or any
      other error); it never fails. */
  function GetConfigFileData(disk: Disk, filePath: string): (r: string)
    ensures filePath in disk.files && filePath !in disk.unreadable ==> r == disk.files[filePath]
    ensures filePath !in disk.files || filePath in disk.unreadable ==> r == ""
  {
    match ReadFile(disk, filePath)
    case Success(data) => data
    case Failure(_) => ""
  }

  /** `getAllIniContent`: a map whose keys are exactly the listed paths, each holding that
      file's content as `getConfigFileData` reads it. */
  method GetAllIniContent(disk: Disk, iniList: seq<string>) returns (result: map<string, string>)
    ensures result.Keys == set p | p in iniList
    ensures forall p :: p in result ==> result[p] == GetConfigFileData(disk, p)
  {
    result := map[];
    var k := 0;
    while k < |iniList|
      invariant 0 <= k <= |iniList|
      invariant result.Keys == set p | p in iniList[..k]
      invariant forall p :: p in result ==> result[p] == GetConfigFileData(disk, p)
    {
      var ini := iniList[k];
      result := result[ini := GetConfigFileData(disk, ini)];
      assert iniList[..k + 1] == iniList[..k] + [ini];
      k := k + 1;
    }
    assert iniList[..k] == iniList;
  }

  /** `ensureFile`: create an empty file if none exists; a failure is rethrown. */
  function EnsureFile(disk: Disk, p: string): (r: Result<Disk, FsError>)
    ensures r.Failure? <==> p !in disk.files && p in disk.unwritable
    ensures r.Success? ==> p in r.value.files
    ensures r.Success? && p in disk.files ==> r.value == disk
    ensures r.Success? && p !in disk.files ==> r.value == disk.(files := disk.files[p := ""])
  {
    if p in disk.files then Success(disk)
    else if p in disk.unwritable then Failure(FsError("EPERM", "EPERM: operation not permitted, open '" + p + "'"))
    else Success(disk.(files := disk.files[p := ""]))
  }

  // ------------------------------------------------------------------- watch

  /** The callback a watch reports to. The only one the plugin registers is the editor's
      closure over the path it activated, so a callback is named by that path. */
  datatype Updater = CacheUpdater(filePath: string)

  /** An `fs.FSWatcher` on a path, open until closed. */
  datatype Watcher = Watcher(path: string, open: bool)

  /** The event types `fs.watch` reports. */
  datatype WatchEvent = Change | Rename

  /** A call `updater(data)` the change handler makes. */
  datatype Invocation = Invocation(updater: Updater, data: string)

  /** The module state of util.ts. */
  class FileWatch {
    var watcher: Option<Watcher>
    var watchPath: Option<string>
    var updater: Option<Updater>
    /** Watchers left open when `watcher` was overwritten: they can never be closed again. */
    ghost var orphaned: nat

    /** A watch is live: the module's watcher is open. */
    predicate Live()
      reads this
    {
      watcher.Some? && watcher.value.open
    }

    /** A live watcher watches `watchPath`. */
    ghost predicate Valid()
      reads this
    {
      Live() ==> watchPath == Some(watcher.value.path)
    }

    /** The module's initial state: nothing watched. */
    constructor ()
      ensures watcher.None? && watchPath.None? && updater.None? && orphaned == 0
      ensures Valid() && !Live()
    {
      watcher, watchPath, updater := None, None, None;
      orphaned := 0;
    }

    /** `watchIniFile`: watch `path` and report to `updateFunc`. `fs.watch` throws on a missing
        file before anything is assigned. A watcher that is still open when replaced is
        orphaned. */
    method WatchIniFile(disk: Disk, path: string, updateFunc: Option<Updater>) returns (ok: bool)
      requires Valid()
      modifies this
      ensures Valid()
      ensures ok == (path in disk.files)
      ensures ok ==> watcher == Some(Watcher(path, true)) && watchPath == Some(path) && updater == updateFunc
      ensures ok ==> orphaned == old(orphaned) + (if old(Live()) then 1 else 0)
      ensures !ok ==> watcher == old(watcher) && watchPath == old(watchPath) && updater == old(updater)
                      && orphaned == old(orphaned)
    {
      ok := path in disk.files;
      if !ok {
        return;
      }
      if Live() {
        orphaned := orphaned + 1;
      }
      watcher := Some(Watcher(path, true));
      watchPath := Some(path);
      updater := updateFunc;
    }

    /** `stopWatchingFile(keepUpdater)`: close the watcher; unless asked to keep them, forget
        the updater and the watched path. */
    method StopWatchingFile(keepUpdater: bool)
      requires Valid()
      modifies this
      ensures Valid() && !Live()
      ensures watcher == if old(watcher).Some? then Some(old(watcher).value.(open := false)) else None
      ensures keepUpdater ==> watchPath == old(watchPath) && updater == old(updater)
      ensures !keepUpdater ==> watchPath.None? && updater.None?
      ensures orphaned == old(orphaned)
    {
      if watcher.Some? {
        watcher := Some(watcher.value.(open := false));
      }
      if !keepUpdater {
        updater := None;
        watchPath := None;
      }
    }

    /** `saveIniContent`: stop the watch keeping the updater, write, and watch the path again.
        A failed write (an `undefined` path among them) is logged and swallowed in the source;
        here it is returned as `failure` for callers that want to see it, and the watch stays
        stopped. */
    method SaveIniContent(disk: Disk, path: Option<string>, data: string)
      returns (disk': Disk, failure: Option<FsError>)
      requires Valid()
      modifies this
      ensures Valid()
      ensures failure.None? <==> path.Some? && path.value !in disk.unwritable
      ensures failure.None? ==> disk' == disk.(files := disk.files[path.value := data])
                                && disk'.files[path.value] == data
                                && watcher == Some(Watcher(path.value, true)) && watchPath == path
                                && updater == old(updater)
      ensures failure.Some? ==> disk' == disk && !Live() && watchPath == old(watchPath) && updater == old(updater)
      ensures orphaned == old(orphaned)
    {
      StopWatchingFile(true);
      if path.None? {
        disk', failure := disk, Some(FsError("ERR_INVALID_ARG_TYPE", "The \"path\" argument must be of type string. Received undefined"));
        return;
      }
      var written := WriteFile(disk, path.value, data);
      if written.Failure? {
        disk', failure := disk, Some(written.error);
        return;
      }
      disk', failure := written.value, None;
      var restarted := WatchIniFile(disk', path.value, updater);
      assert restarted;
    }

    /** The change handler: nothing while the watcher is closed; on 'rename' (the file is
        gone) the updater gets ''; on a change it gets the re-read content of `watchPath`, and
        a read error is only logged. */
    function Notification(event: WatchEvent, disk: Disk): (call: Option<Invocation>)
      reads this
      ensures call.Some? ==> Live() && updater == Some(call.value.updater)
      ensures Live() && updater.Some? && event == Rename ==> call == Some(Invocation(updater.value, ""))
      ensures call.Some? && event == Change ==>
                watchPath.Some? && ReadFile(disk, watchPath.value) == Success(call.value.data)
      ensures (Live() && updater.Some? && event == Change && watchPath.Some? &&
               ReadFile(disk, watchPath.value).Success?) ==> call.Some?
    {
      if !Live() || updater.None? then None
      else if event == Rename then Some(Invocation(updater.value, ""))
      else if watchPath.None? then None
      else match ReadFile(disk, watchPath.value)
        case Success(data) => Some(Invocation(updater.value, data))
        case Failure(_) => None
    }
  }
}
