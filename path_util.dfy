/**
 * The string and path primitives the plugin relies on: `String.prototype.toLowerCase`,
 * `String.prototype.includes`, and Node's Windows `path.join` and `path.basename`.
 */
module PathUtil {

  /** The separator `path.join` writes on Windows. */
  const Sep: char := '\\'

  /** Both separators Node's Windows path functions accept. */
  predicate IsSeparator(c: char) {
    c == '\\' || c == '/'
  }

  predicate HasNoSeparator(s: string) {
    forall i :: 0 <= i < |s| ==> !IsSeparator(s[i])
  }

  // ---------------------------------------------------------------- lower case

  function LowerChar(c: char): char {
    if 'A' <= c <= 'Z' then (c as int + 32) as char else c
  }

  /** `toLowerCase`, on the ASCII letters: no upper-case letter is left, and every other
      character is kept. */
  function ToLower(s: string): (r: string)
    ensures |r| == |s|
    ensures forall i :: 0 <= i < |r| ==> !('A' <= r[i] <= 'Z')
    ensures forall i :: 0 <= i < |s| && !('A' <= s[i] <= 'Z') ==> r[i] == s[i]
  {
    seq(|s|, i requires 0 <= i < |s| => LowerChar(s[i]))
  }

  /** Lower-casing twice is lower-casing once. */
  lemma ToLowerIdempotent(s: string)
    ensures ToLower(ToLower(s)) == ToLower(s)
  {
    var once := ToLower(s);
    assert |ToLower(once)| == |once|;
    forall i | 0 <= i < |once|
      ensures ToLower(once)[i] == once[i]
    {
      assert LowerChar(LowerChar(s[i])) == LowerChar(s[i]);
    }
  }

  // ------------------------------------------------------------------ includes

  /** `sub` occurs in `s` starting at index `i`. */
  predicate OccursAt(s: string, sub: string, i: int) {
    0 <= i && i + |sub| <= |s| && s[i..i + |sub|] == sub
  }

  /** `s.includes(sub)`, scanning from the left. The empty string is included in every
      string, and nothing longer than `s` is. */
  function Includes(s: string, sub: string): (r: bool)
    ensures sub == [] ==> r
    ensures r ==> |sub| <= |s|
    decreases |s|
  {
    if |sub| > |s| then false
    else if s[..|sub|] == sub then true
    else Includes(s[1..], sub)
  }

  /** The scan finds `sub` exactly when it occurs somewhere in `s`. */
  lemma {:induction false} IncludesIff(s: string, sub: string)
    ensures Includes(s, sub) <==> exists i :: OccursAt(s, sub, i)
    decreases |s|
  {
    if |sub| > |s| {
      forall i | OccursAt(s, sub, i) ensures false {}
    } else if s[..|sub|] == sub {
      assert OccursAt(s, sub, 0);
    } else {
      IncludesIff(s[1..], sub);
      if Includes(s[1..], sub) {
        var k :| OccursAt(s[1..], sub, k);
        assert s[k + 1..k + 1 + |sub|] == s[1..][k..k + |sub|];
        assert OccursAt(s, sub, k + 1);
      } else {
        forall i | OccursAt(s, sub, i) ensures false {
          if i != 0 {
            assert s[1..][i - 1..i - 1 + |sub|] == s[i..i + |sub|];
            assert OccursAt(s[1..], sub, i - 1);
          }
        }
      }
    }
  }

  // ---------------------------------------------------------------------- join

  /** `path.join` of already normalised segments: the segments separated by `Sep`. The
      result starts with the first segment, followed by a separator when more come. */
  function Join(parts: seq<string>): (r: string)
    ensures |parts| >= 1 ==> parts[0] <= r
    ensures |parts| >= 2 ==> |r| > |parts[0]| && r[|parts[0]|] == Sep
    decreases |parts|
  {
    if |parts| == 0 then ""
    else if |parts| == 1 then parts[0]
    else parts[0] + [Sep] + Join(parts[1..])
  }

  /** Joining a directory part with a last segment ends in a separator followed by that segment. */
  lemma {:induction false} JoinEndsWith(parts: seq<string>)
    requires |parts| >= 2
    ensures exists dir :: Join(parts) == dir + [Sep] + parts[|parts| - 1]
    decreases |parts|
  {
    if |parts| == 2 {
      assert Join(parts) == parts[0] + [Sep] + Join(parts[1..]);
      assert Join(parts[1..]) == parts[1];
    } else {
      JoinEndsWith(parts[1..]);
      var dir :| Join(parts[1..]) == dir + [Sep] + parts[1..][|parts| - 2];
      assert Join(parts) == (parts[0] + [Sep] + dir) + [Sep] + parts[|parts| - 1];
    }
  }

  // ------------------------------------------------------------------ basename

  /** The path with every trailing separator removed. */
  function TrimTrailingSeparators(p: string): (r: string)
    ensures |r| <= |p| && r == p[..|r|]
    ensures r == [] || !IsSeparator(r[|r| - 1])
    ensures forall i :: |r| <= i < |p| ==> IsSeparator(p[i])
    decreases |p|
  {
    if p != [] && IsSeparator(p[|p| - 1]) then TrimTrailingSeparators(p[..|p| - 1]) else p
  }

  /** The longest separator-free suffix of `p`. */
  function LastComponent(p: string): (r: string)
    ensures |r| <= |p| && r == p[|p| - |r|..]
    ensures HasNoSeparator(r)
    ensures |r| < |p| ==> IsSeparator(p[|p| - |r| - 1])
    decreases |p|
  {
    if p == [] || IsSeparator(p[|p| - 1]) then []
    else LastComponent(p[..|p| - 1]) + [p[|p| - 1]]
  }

  /** `path.basename`: the final component, trailing separators ignored. It holds no
      separator and is a suffix of the path without its trailing separators. */
  function BaseName(p: string): (r: string)
    ensures HasNoSeparator(r)
    ensures |r| <= |TrimTrailingSeparators(p)| &&
            r == TrimTrailingSeparators(p)[|TrimTrailingSeparators(p)| - |r|..]
  {
    LastComponent(TrimTrailingSeparators(p))
  }

  /** The base name is the final component of `p`: it holds no separator, and what precedes it
      (trailing separators aside) is empty or ends in a separator. */
  lemma BaseNameIsFinalComponent(p: string)
    ensures HasNoSeparator(BaseName(p))
    ensures exists dir :: TrimTrailingSeparators(p) == dir + BaseName(p)
                       && (dir == [] || IsSeparator(dir[|dir| - 1]))
  {
    var t := TrimTrailingSeparators(p);
    var b := BaseName(p);
    var dir := t[..|t| - |b|];
    assert t == dir + b;
  }

  /** The base name of `dir` + separator + `name` is `name`, for a separator-free `name`. */
  lemma {:induction false} BaseNameAfterSeparator(dir: string, name: string)
    requires name != [] && HasNoSeparator(name)
    ensures BaseName(dir + [Sep] + name) == name
  {
    var p := dir + [Sep] + name;
    assert p[|p| - 1] == name[|name| - 1];
    assert TrimTrailingSeparators(p) == p;
    var r := LastComponent(p);
    assert p[|p| - |name| - 1] == Sep;
    assert r == p[|p| - |name|..] == name;
  }

  /** The base name of a joined path is its last segment. */
  lemma BaseNameOfJoin(parts: seq<string>)
    requires |parts| >= 2
    requires parts[|parts| - 1] != [] && HasNoSeparator(parts[|parts| - 1])
    ensures BaseName(Join(parts)) == parts[|parts| - 1]
  {
    JoinEndsWith(parts);
    var dir :| Join(parts) == dir + [Sep] + parts[|parts| - 1];
    BaseNameAfterSeparator(dir, parts[|parts| - 1]);
  }
}
