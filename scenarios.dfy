/** Concrete sessions of the editor, verified against the contracts alone. */
module Scenarios {
  import opened Wrappers
  import opened CustomPaths
  import opened IniUtil
  import opened IniEditorView

  /** Opening the dialog on a single file that does not exist: the cache holds '' for it, the
      empty file is created so it can be watched, and it becomes the active file. */
  method MissingFileScenario() returns (cache: map<string, string>, active: Option<string>,
                                        created: bool, watching: Option<string>)
    ensures cache == map["a.ini" := ""]
    ensures active == Some("a.ini") && watching == Some("a.ini")
    ensures created
  {
    var store := new CustomPathStore();
    var editor := new IniEditor(store, false);
    var disk := Disk(map[], {}, {});
    var disk', activated := editor.WillReceiveProps(true, Props("skyrim", ["a.ini"], []), disk);
    assert "a.ini" in (set p | p in ["a.ini"]);
    assert editor.iniData.Keys == {"a.ini"};
    cache, active := editor.iniData, editor.activeIni;
    created := "a.ini" in disk'.files && disk'.files["a.ini"] == "";
    watching := editor.watch.watchPath;
  }

  /** Selecting two files one after the other: only the second is watched, and no watcher of
      the first is left open. */
  method SelectTwiceScenario() returns (watched: Option<Watcher>, active: Option<string>, ghost orphaned: nat)
    ensures watched == Some(Watcher("b.ini", true)) && active == Some("b.ini")
    ensures orphaned == 0
  {
    var store := new CustomPathStore();
    var editor := new IniEditor(store, false);
    var disk := Disk(map["a.ini" := "x=1", "b.ini" := "y=2"], {}, {});
    var _, _ := editor.WillReceiveProps(true, Props("skyrim", ["a.ini", "b.ini"], []), disk);
    var _, _ := editor.SetActiveIni(Some("a.ini"), disk);
    var _, _ := editor.SetActiveIni(Some("b.ini"), disk);
    watched, active := editor.watch.watcher, editor.activeIni;
    orphaned := editor.watch.orphaned;
  }

  /** The save of an edit to a file that cannot be written, as the source does it: the file
      keeps its old text, the cache claims the edit, and Save is disabled, so the edit can only
      be retried by changing it. */
  method SaveFailureScenario() returns (onDisk: string, cached: string, saveDisabled: bool)
    ensures onDisk == "a=1" && cached == "a=2" && saveDisabled
  {
    var store := new CustomPathStore();
    var editor := new IniEditor(store, false);
    var disk := Disk(map["game.ini" := "a=1"], {}, {"game.ini"});
    var _, _ := editor.WillReceiveProps(true, Props("skyrim", ["game.ini"], []), disk);
    editor.UpdateEditable("a=2");
    var disk', _ := editor.SaveIniEdits(disk);
    onDisk, cached, saveDisabled := disk'.files["game.ini"], editor.iniData["game.ini"], editor.SaveDisabled();
  }

  /** The same save with the failure reported: the cache keeps the file's text, an error is
      shown, and Save stays enabled. */
  method SaveFailureScenarioChecked() returns (onDisk: string, cached: string, saveDisabled: bool,
                                               error: Option<string>)
    ensures onDisk == "a=1" && cached == "a=1" && !saveDisabled && error.Some?
  {
    var store := new CustomPathStore();
    var editor := new IniEditor(store, false);
    var disk := Disk(map["game.ini" := "a=1"], {}, {"game.ini"});
    var _, _ := editor.WillReceiveProps(true, Props("skyrim", ["game.ini"], []), disk);
    editor.UpdateEditable("a=2");
    var disk', _ := editor.SaveIniEditsChecked(disk);
    onDisk, cached, saveDisabled := disk'.files["game.ini"], editor.iniData["game.ini"], editor.SaveDisabled();
    error := editor.error;
  }
}
