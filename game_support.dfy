/**
 * Which base INI files a game has: a static table of known games, an Xbox Game Pass table
 * used when the game was discovered in a Microsoft Store location, and an optional provider
 * on the host's game definition. The documents folder is a parameter.
 */
module GameSupport {
  import opened Wrappers
  import opened PathUtil

  /** `IniFileList`: an ordered list of file paths. */
  datatype IniFileList = IniFileList(filePaths: seq<string>)

  /** The `iniFiles` member of the host's game definition: absent, or a function of the host
      state, represented by what it returns for the current state (possibly `undefined`). */
  datatype IniProvider = NoProvider | Provider(result: Option<IniFileList>)

  /** `path.join(documents, 'My Games', folder, name)` for each name. */
  function MyGamesPaths(documents: string, folder: string, names: seq<string>): (r: seq<string>)
    ensures |r| == |names|
    ensures forall i :: 0 <= i < |names| ==> r[i] == Join([documents, "My Games", folder, names[i]])
  {
    seq(|names|, i requires 0 <= i < |names| => Join([documents, "My Games", folder, names[i]]))
  }

  const SkyrimNames: seq<string> := ["Skyrim.ini", "SkyrimPrefs.ini", "SkyrimCustom.ini"]
  const Fallout4Names: seq<string> := ["Fallout4.ini", "Fallout4Prefs.ini", "Fallout4Custom.ini"]

  /** `gameSupport`: the known games and their INI files. */
  function GameSupportTable(documents: string): (r: map<string, IniFileList>)
    ensures r.Keys == {"skyrim", "skyrimse", "fallout4"}
    ensures forall g :: g in r ==> |r[g].filePaths| == 3
  {
    map[
      "skyrim" := IniFileList(MyGamesPaths(documents, "Skyrim", SkyrimNames)),
      "skyrimse" := IniFileList(MyGamesPaths(documents, "Skyrim Special Edition", SkyrimNames)),
      "fallout4" := IniFileList(MyGamesPaths(documents, "Fallout 4", Fallout4Names))
    ]
  }

  /** `xboxGamePassSupport`: the same files under the Microsoft Store folder names. */
  function XboxGamePassSupportTable(documents: string): (r: map<string, IniFileList>)
    ensures r.Keys == {"skyrimse", "fallout4"}
    ensures forall g :: g in r ==> |r[g].filePaths| == 3
  {
    map[
      "skyrimse" := IniFileList(MyGamesPaths(documents, "Skyrim Special Edition MS", SkyrimNames)),
      "fallout4" := IniFileList(MyGamesPaths(documents, "Fallout 4 MS", Fallout4Names))
    ]
  }

  /** Indexing a table: a missing game yields `undefined`. */
  function Lookup(table: map<string, IniFileList>, gameId: string): (r: Option<IniFileList>)
    ensures r.Some? <==> gameId in table
  {
    if gameId in table then Some(table[gameId]) else None
  }

  // ------------------------------------------------------------- isXboxPath

  /** The path fragments of a Microsoft Store installation. */
  const XboxPathFragments: seq<string> := ["modifiablewindowsapps", "3275kfvn8vcwc"]

  /** `fragments.find(f => lowered.includes(f))`. */
  function FindFragment(fragments: seq<string>, lowered: string): (r: Option<string>)
    ensures r.Some? ==> r.value in fragments && Includes(lowered, r.value)
    ensures r.None? ==> forall k :: 0 <= k < |fragments| ==> !Includes(lowered, fragments[k])
    decreases |fragments|
  {
    if fragments == [] then None
    else if Includes(lowered, fragments[0]) then Some(fragments[0])
    else FindFragment(fragments[1..], lowered)
  }

  /** `isXboxPath`: one of the fragments occurs in the lower-cased path. */
  predicate IsXboxPath(discoveryPath: string): (r: bool)
    ensures r <==> exists k :: 0 <= k < |XboxPathFragments| && Includes(ToLower(discoveryPath), XboxPathFragments[k])
  {
    FindFragment(XboxPathFragments, ToLower(discoveryPath)).Some?
  }

  /** A path is an Xbox path exactly when its lower-cased form contains one of the two
      fragments somewhere. */
  lemma IsXboxPathIff(p: string)
    ensures IsXboxPath(p) <==>
      (exists i :: OccursAt(ToLower(p), "modifiablewindowsapps", i)) ||
      (exists i :: OccursAt(ToLower(p), "3275kfvn8vcwc", i))
  {
    IncludesIff(ToLower(p), XboxPathFragments[0]);
    IncludesIff(ToLower(p), XboxPathFragments[1]);
  }

  /** The match ignores case: a path and its lower-cased form are classified alike. */
  lemma IsXboxPathIgnoresCase(p: string)
    ensures IsXboxPath(ToLower(p)) == IsXboxPath(p)
  {
    ToLowerIdempotent(p);
  }

  // ------------------------------------------------------------- getGameInis

  /** `discovery?.path && isXboxPath(discovery.path)`. An empty path is falsy, but the guard
      never changes the answer: no Xbox path is empty. */
  predicate OnXboxPath(discoveryPath: Option<string>): (r: bool)
    ensures r <==> discoveryPath.Some? && IsXboxPath(discoveryPath.value)
  {
    discoveryPath.Some? && discoveryPath.value != "" && IsXboxPath(discoveryPath.value)
  }

  /** `getGameInis`: an absent (or empty) game id gives `undefined`; otherwise the provider's
      result if the game has one, else the static table; an Xbox discovery path replaces either
      with the Xbox table's entry, which may be `undefined`. */
  function GetGameInis(gameId: string, documents: string, discoveryPath: Option<string>,
                       provider: IniProvider): (r: Option<IniFileList>)
    ensures gameId == "" ==> r.None?
    ensures r.Some? && OnXboxPath(discoveryPath) ==>
              gameId in {"skyrimse", "fallout4"} && r.value == XboxGamePassSupportTable(documents)[gameId]
    ensures r.Some? && !OnXboxPath(discoveryPath) && provider.NoProvider? ==>
              gameId in GameSupportTable(documents) && r.value == GameSupportTable(documents)[gameId]
  {
    if gameId == "" then None
    else
      var iniFiles := if provider.Provider? then provider.result
                      else Lookup(GameSupportTable(documents), gameId);
      if OnXboxPath(discoveryPath) then Lookup(XboxGamePassSupportTable(documents), gameId)
      else iniFiles
  }

  lemma GetGameInisNoGame(documents: string, discoveryPath: Option<string>, provider: IniProvider)
    ensures GetGameInis("", documents, discoveryPath, provider) == None
  {
  }

  /** A provider on the game definition wins over the static table. */
  lemma GetGameInisProviderFirst(gameId: string, documents: string, discoveryPath: Option<string>,
                                 result: Option<IniFileList>)
    requires gameId != "" && !OnXboxPath(discoveryPath)
    ensures GetGameInis(gameId, documents, discoveryPath, Provider(result)) == result
  {
  }

  /** On an Xbox path the Xbox table decides, with no fallback: for "skyrim", which has no
      Xbox entry, the result is `undefined` although the static table lists it. */
  lemma GetGameInisXboxOverride(gameId: string, documents: string, discoveryPath: string,
                                provider: IniProvider)
    requires gameId != "" && discoveryPath != "" && IsXboxPath(discoveryPath)
    ensures GetGameInis(gameId, documents, Some(discoveryPath), provider)
            == Lookup(XboxGamePassSupportTable(documents), gameId)
    ensures gameId == "skyrim" ==>
              GetGameInis(gameId, documents, Some(discoveryPath), provider) == None &&
              "skyrim" in GameSupportTable(documents)
  {
  }

  /** Without a provider or an Xbox path, a known game gets its three files, in table order,
      each under the game's folder in My Games with an `.ini` base name. */
  lemma GetGameInisStaticTable(gameId: string, documents: string, discoveryPath: Option<string>)
    requires gameId in GameSupportTable(documents) && !OnXboxPath(discoveryPath)
    ensures var r := GetGameInis(gameId, documents, discoveryPath, NoProvider);
      r.Some? && r == Some(GameSupportTable(documents)[gameId]) && |r.value.filePaths| == 3 &&
      forall i :: 0 <= i < 3 ==> BaseName(r.value.filePaths[i]) == GameFileNames(gameId)[i]
  {
    PlainFileNames();
    if gameId == "skyrim" {
      MyGamesPathsBaseNames(documents, "Skyrim", SkyrimNames);
    } else if gameId == "skyrimse" {
      MyGamesPathsBaseNames(documents, "Skyrim Special Edition", SkyrimNames);
    } else {
      MyGamesPathsBaseNames(documents, "Fallout 4", Fallout4Names);
    }
  }

  /** The known games' file names are plain names. */
  lemma PlainFileNames()
    ensures forall i :: 0 <= i < |SkyrimNames| ==> SkyrimNames[i] != [] && HasNoSeparator(SkyrimNames[i])
    ensures forall i :: 0 <= i < |Fallout4Names| ==> Fallout4Names[i] != [] && HasNoSeparator(Fallout4Names[i])
  {
  }

  /** Each path of a "My Games" entry names its file. */
  lemma MyGamesPathsBaseNames(documents: string, folder: string, names: seq<string>)
    requires forall i :: 0 <= i < |names| ==> names[i] != [] && HasNoSeparator(names[i])
    ensures forall i :: 0 <= i < |names| ==> BaseName(MyGamesPaths(documents, folder, names)[i]) == names[i]
  {
    forall i | 0 <= i < |names| ensures BaseName(MyGamesPaths(documents, folder, names)[i]) == names[i] {
      MyGamesPathBaseName(documents, folder, names[i]);
    }
  }

  lemma MyGamesPathBaseName(documents: string, folder: string, name: string)
    requires name != [] && HasNoSeparator(name)
    ensures BaseName(Join([documents, "My Games", folder, name])) == name
  {
    BaseNameOfJoin([documents, "My Games", folder, name]);
  }

  /** The file names each known game uses. */
  function GameFileNames(gameId: string): seq<string> {
    if gameId == "fallout4" then Fallout4Names else SkyrimNames
  }

  /** The Xbox entries are the standard entries of the same games with the folder renamed to
      carry a " MS" suffix, the file names kept. */
  lemma XboxVariantsRenameFolder(documents: string)
    ensures RenamedFolder(GameSupportTable(documents)["skyrimse"].filePaths,
                          XboxGamePassSupportTable(documents)["skyrimse"].filePaths, documents)
    ensures RenamedFolder(GameSupportTable(documents)["fallout4"].filePaths,
                          XboxGamePassSupportTable(documents)["fallout4"].filePaths, documents)
  {
    SkyrimSEVariant(documents);
    Fallout4Variant(documents);
  }

  lemma SkyrimSEVariant(documents: string)
    ensures RenamedFolder(GameSupportTable(documents)["skyrimse"].filePaths,
                          XboxGamePassSupportTable(documents)["skyrimse"].filePaths, documents)
  {
    assert "Skyrim Special Edition" + " MS" == "Skyrim Special Edition MS";
    FolderWitness(documents, "Skyrim Special Edition", SkyrimNames);
  }

  lemma Fallout4Variant(documents: string)
    ensures RenamedFolder(GameSupportTable(documents)["fallout4"].filePaths,
                          XboxGamePassSupportTable(documents)["fallout4"].filePaths, documents)
  {
    assert "Fallout 4" + " MS" == "Fallout 4 MS";
    FolderWitness(documents, "Fallout 4", Fallout4Names);
  }

  /** Only skyrimse and fallout4 have an Xbox variant. */
  lemma XboxTableKeys(documents: string)
    ensures XboxGamePassSupportTable(documents).Keys == {"skyrimse", "fallout4"}
    ensures XboxGamePassSupportTable(documents).Keys < GameSupportTable(documents).Keys
  {
    assert "skyrim" in GameSupportTable(documents);
  }

  /** `xbox` is `std` with the game folder renamed to carry a " MS" suffix. */
  ghost predicate RenamedFolder(std: seq<string>, xbox: seq<string>, documents: string) {
    |std| == |xbox| &&
    exists folder: string :: forall i :: 0 <= i < |std| ==>
      std[i] == Join([documents, "My Games", folder, BaseName(std[i])]) &&
      xbox[i] == Join([documents, "My Games", folder + " MS", BaseName(std[i])])
  }

  lemma FolderWitness(documents: string, folder: string, names: seq<string>)
    requires forall i :: 0 <= i < |names| ==> names[i] != [] && HasNoSeparator(names[i])
    ensures RenamedFolder(MyGamesPaths(documents, folder, names),
                          MyGamesPaths(documents, folder + " MS", names), documents)
  {
    var std := MyGamesPaths(documents, folder, names);
    var xbox := MyGamesPaths(documents, folder + " MS", names);
    forall i | 0 <= i < |names|
      ensures std[i] == Join([documents, "My Games", folder, BaseName(std[i])])
      ensures xbox[i] == Join([documents, "My Games", folder + " MS", BaseName(std[i])])
    {
      BaseNameOfJoin([documents, "My Games", folder, names[i]]);
    }
  }

  // ---------------------------------------------------------- gameHasIniFiles

  /** `gameHasIniFiles`: no active game, no files; a known game, yes; otherwise whether the
      game definition has an `iniFiles` member. */
  function GameHasIniFiles(activeGameId: string, documents: string, provider: IniProvider): (r: bool)
    ensures r <==> activeGameId in {"skyrim", "skyrimse", "fallout4"} || (activeGameId != "" && provider.Provider?)
  {
    if activeGameId == "" then false
    else if activeGameId in GameSupportTable(documents) then true
    else provider.Provider?
  }

  lemma GameHasIniFilesCases(activeGameId: string, documents: string, provider: IniProvider)
    ensures activeGameId == "" ==> !GameHasIniFiles(activeGameId, documents, provider)
    ensures activeGameId in {"skyrim", "skyrimse", "fallout4"} ==> GameHasIniFiles(activeGameId, documents, provider)
    ensures activeGameId != "" && activeGameId !in {"skyrim", "skyrimse", "fallout4"} ==>
              (GameHasIniFiles(activeGameId, documents, provider) <==> provider.Provider?)
  {
  }

  /** A game that resolves to a file list, on any discovery path, is one the action is
      offered for. */
  lemma ResolvedImpliesHasIniFiles(gameId: string, documents: string, discoveryPath: Option<string>,
                                   provider: IniProvider)
    requires GetGameInis(gameId, documents, discoveryPath, provider).Some?
    ensures GameHasIniFiles(gameId, documents, provider)
  {
    if OnXboxPath(discoveryPath) {
      XboxTableKeys(documents);
    }
  }
}
