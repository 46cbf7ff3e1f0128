/**
 * The settings reducer for user-added configuration paths: each game keeps an ordered list
 * of paths under `[gameId, 'filePaths']`, grown by ADD_CUSTOM_CONFIG_PATH and shrunk by
 * DELETE_CUSTOM_CONFIG_PATH.
 */
module CustomPaths {

  /** The payload both actions carry. */
  datatype Payload = Payload(gameId: string, path: string)

  /** No path occurs twice in the list. */
  predicate NoDuplicates(s: seq<string>) {
    forall i, j :: 0 <= i < j < |s| ==> s[i] != s[j]
  }

  /** The list after ADD: the path appended unless it is already present. */
  function Added(list: seq<string>, path: string): (r: seq<string>)
    ensures path in r
    ensures path in list ==> r == list
    ensures path !in list ==> |r| == |list| + 1 && r[..|list|] == list && r[|list|] == path
  {
    if path in list then list else list + [path]
  }

  /** The list after DELETE, as an independent definition: the first occurrence of the path
      removed, everything else kept in order. */
  function RemoveFirst(list: seq<string>, path: string): (r: seq<string>)
    ensures |r| == if path in list then |list| - 1 else |list|
    decreases |list|
  {
    if list == [] then []
    else if list[0] == path then list[1..]
    else [list[0]] + RemoveFirst(list[1..], path)
  }

  /** `Array.prototype.indexOf`: the index of the first occurrence, or -1. */
  method IndexOf(s: seq<string>, x: string) returns (index: int)
    ensures index == -1 <==> x !in s
    ensures index != -1 ==> 0 <= index < |s| && s[index] == x && x !in s[..index]
  {
    index := 0;
    while index < |s|
      invariant 0 <= index <= |s|
      invariant x !in s[..index]
    {
      if s[index] == x {
        return;
      }
      assert s[..index + 1] == s[..index] + [s[index]];
      index := index + 1;
    }
    assert s[..index] == s;
    index := -1;
  }

  // ------------------------------------------------------------ about Added

  /** Adding the same path a second time changes nothing. */
  lemma AddedIdempotent(list: seq<string>, path: string)
    ensures Added(Added(list, path), path) == Added(list, path)
  {
  }

  /** ADD keeps a duplicate-free list duplicate-free. */
  lemma AddedPreservesNoDuplicates(list: seq<string>, path: string)
    requires NoDuplicates(list)
    ensures NoDuplicates(Added(list, path))
  {
    if path !in list {
      var r := Added(list, path);
      forall i, j | 0 <= i < j < |r| ensures r[i] != r[j] {
        if j == |list| {
          assert r[i] == list[i];
        }
      }
    }
  }

  // ------------------------------------------------------- about RemoveFirst

  /** Deleting an absent path leaves the list as it is. */
  lemma {:induction false} RemoveFirstAbsent(list: seq<string>, path: string)
    requires path !in list
    ensures RemoveFirst(list, path) == list
    decreases |list|
  {
    if list != [] {
      RemoveFirstAbsent(list[1..], path);
      assert list == [list[0]] + list[1..];
    }
  }

  /** Deleting a present path cuts out exactly its first occurrence. */
  lemma {:induction false} RemoveFirstAt(list: seq<string>, path: string, index: nat)
    requires index < |list| && list[index] == path && path !in list[..index]
    ensures RemoveFirst(list, path) == list[..index] + list[index + 1..]
    decreases index
  {
    if index > 0 {
      assert list[0] in list[..index];
      assert list[1..][..index - 1] == list[1..index];
      RemoveFirstAt(list[1..], path, index - 1);
      assert list[..index] == [list[0]] + list[1..index];
      assert list[1..][index..] == list[index + 1..];
    }
  }

  /** DELETE takes away one copy of a present path and nothing else. */
  lemma {:induction false} RemoveFirstMultiset(list: seq<string>, path: string)
    ensures multiset(RemoveFirst(list, path)) == multiset(list) - multiset{path}
    decreases |list|
  {
    if list != [] {
      assert list == [list[0]] + list[1..];
      assert multiset(list) == multiset{list[0]} + multiset(list[1..]);
      if list[0] != path {
        RemoveFirstMultiset(list[1..], path);
        assert RemoveFirst(list, path) == [list[0]] + RemoveFirst(list[1..], path);
      }
    }
  }

  /** DELETE keeps a duplicate-free list duplicate-free, and the path is gone afterwards. */
  lemma RemoveFirstPreservesNoDuplicates(list: seq<string>, path: string)
    requires NoDuplicates(list)
    ensures NoDuplicates(RemoveFirst(list, path))
    ensures path !in RemoveFirst(list, path)
  {
    var r := RemoveFirst(list, path);
    RemoveFirstMultiset(list, path);
    if path in list {
      var index :| 0 <= index < |list| && list[index] == path;
      assert path !in list[..index];
      RemoveFirstAt(list, path, index);
      forall i, j | 0 <= i < j < |r| ensures r[i] != r[j] {
        var i' := if i < index then i else i + 1;
        var j' := if j < index then j else j + 1;
        assert r[i] == list[i'] && r[j] == list[j'];
      }
    } else {
      RemoveFirstAbsent(list, path);
    }
  }

  /** Deleting a path just added restores the list. */
  lemma AddThenDelete(list: seq<string>, path: string)
    requires path !in list
    ensures RemoveFirst(Added(list, path), path) == list
  {
    var r := Added(list, path);
    assert r[|list|] == path && path !in r[..|list|];
    RemoveFirstAt(r, path, |list|);
    assert r[|list| + 1..] == [];
  }

  // ------------------------------------------------------------ the reducer

  /** The `settings.ini-editor` slice of the host store: game id to custom path list. */
  class CustomPathStore {
    var filePaths: map<string, seq<string>>

    /** `getSafe(state, [gameId, 'filePaths'], [])`. */
    function Paths(gameId: string): (r: seq<string>)
      reads this
      ensures gameId !in filePaths ==> r == []
    {
      if gameId in filePaths then filePaths[gameId] else []
    }

    /** Every game's list is duplicate-free. */
    ghost predicate Valid()
      reads this
    {
      forall g :: g in filePaths ==> NoDuplicates(filePaths[g])
    }

    /** The reducer's default state, `{}`. */
    constructor ()
      ensures filePaths == map[] && Valid()
    {
      filePaths := map[];
    }

    /** ADD_CUSTOM_CONFIG_PATH: append the path unless it is already listed, then write the
        list back; other games keep their lists. */
    method AddCustomConfigPath(payload: Payload)
      modifies this
      ensures filePaths == old(filePaths)[payload.gameId := Added(old(Paths(payload.gameId)), payload.path)]
      ensures payload.path in Paths(payload.gameId)
      ensures forall g :: g != payload.gameId ==> Paths(g) == old(Paths(g))
      ensures old(Valid()) ==> Valid()
    {
      var current := Paths(payload.gameId);
      if payload.path !in current {
        current := current + [payload.path];
      }
      if old(Valid()) {
        AddedPreservesNoDuplicates(Paths(payload.gameId), payload.path);
      }
      filePaths := filePaths[payload.gameId := current];
    }

    /** DELETE_CUSTOM_CONFIG_PATH: remove the first occurrence of the path, if any, then write
        the list back; other games keep their lists. */
    method DeleteCustomConfigPath(payload: Payload)
      modifies this
      ensures filePaths == old(filePaths)[payload.gameId := RemoveFirst(old(Paths(payload.gameId)), payload.path)]
      ensures forall g :: g != payload.gameId ==> Paths(g) == old(Paths(g))
      ensures old(Valid()) ==> Valid() && payload.path !in Paths(payload.gameId)
    {
      var current := Paths(payload.gameId);
      var index := IndexOf(current, payload.path);
      if index > -1 {
        RemoveFirstAt(current, payload.path, index);
        current := current[..index] + current[index + 1..];
      } else {
        RemoveFirstAbsent(current, payload.path);
      }
      if old(Valid()) {
        RemoveFirstPreservesNoDuplicates(Paths(payload.gameId), payload.path);
      }
      filePaths := filePaths[payload.gameId := current];
    }
  }
}
