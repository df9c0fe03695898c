/**
 * The destination path of `prepFs`: `path.replace('~', home)` replaces the
 * first `~`, wherever it stands, by the home directory. Creating, checking
 * and entering the directory are file-system effects outside this model.
 */
module Paths {

  /** The index of the first `c` in `s`, or `|s|` when there is none. */
  function FirstIndexOf(s: string, c: char): (i: nat)
    ensures i <= |s| && c !in s[..i]
    ensures i < |s| ==> s[i] == c
    ensures i == |s| <==> c !in s
  {
    if s == [] || s[0] == c then 0 else 1 + FirstIndexOf(s[1..], c)
  }

  /** `path.replace('~', home)`: the path with its first `~` replaced by `home`. */
  function ExpandHome(path: string, home: string): string {
    if path == [] then []
    else if path[0] == '~' then home + path[1..]
    else [path[0]] + ExpandHome(path[1..], home)
  }

  /** The text before the first `~` is kept, the `~` becomes `home`, the rest is kept; a path without `~` is unchanged. */
  lemma {:induction false} ExpandHomeSplits(path: string, home: string)
    ensures var i := FirstIndexOf(path, '~');
      ExpandHome(path, home) == if i == |path| then path else path[..i] + home + path[i + 1..]
  {
    if path != [] && path[0] != '~' {
      var tail := path[1..];
      ExpandHomeSplits(tail, home);
      var j := FirstIndexOf(tail, '~');
      assert FirstIndexOf(path, '~') == j + 1;
      assert path == [path[0]] + tail;
      if j < |tail| {
        assert path[..j + 1] == [path[0]] + tail[..j];
        assert path[j + 2..] == tail[j + 1..];
      }
    }
  }

  /** Only one `~` goes: when `home` holds none, the result has one `~` fewer than a path that had one. */
  lemma ExpandHomeReplacesOne(path: string, home: string)
    requires '~' in path && '~' !in home
    ensures multiset(ExpandHome(path, home))['~'] == multiset(path)['~'] - 1
  {
    ExpandHomeSplits(path, home);
    var i := FirstIndexOf(path, '~');
    var before, after := path[..i], path[i + 1..];
    assert path == before + ['~'] + after;
    assert multiset(path) == multiset(before) + multiset{'~'} + multiset(after);
    assert multiset(ExpandHome(path, home)) == multiset(before) + multiset(home) + multiset(after);
    assert multiset(home)['~'] == 0;
  }
}
