/** Creating the directories above a log file, one mkdir per slash. */
module LogDirectory {
  // A path's complete components so far, and the one being read. Empty components do not count.
  function Split(path: string): (seq<string>, string) {
    if path == "" then ([], "") else
      var (done, current) := Split(path[..|path| - 1]);
      var c := path[|path| - 1];
      if c != '/' then (done, current + [c])
      else (if current == "" then done else done + [current], "")
  }

  /** The directory a path names, as components below its starting directory. */
  function Components(path: string): seq<string> {
    var (done, current) := Split(path);
    if current == "" then done else done + [current]
  }

  /** The components of the directory that should hold the file. */
  function ParentComponents(path: string): seq<string> {
    Split(path).0
  }

  type Tree = set<seq<string>>

  /** mkdir: adds the directory when its parent exists, and leaves an existing one alone. */
  function Mkdir(tree: Tree, path: string): Tree {
    var c := Components(path);
    if c == [] || c[..|c| - 1] !in tree then tree else tree + {c}
  }

  /** The prefixes of a path that end just before one of its first n characters that is a slash, not the first. */
  function SlashPrefixes(path: string, n: nat): seq<string>
    requires n <= |path|
  {
    if n <= 1 then []
    else SlashPrefixes(path, n - 1) + if path[n - 1] == '/' then [path[..n - 1]] else []
  }

  /** The tree after calling mkdir on those prefixes in order. */
  function TreeAfter(tree: Tree, path: string, n: nat): Tree
    requires n <= |path|
  {
    if n <= 1 then tree
    else if path[n - 1] == '/' then Mkdir(TreeAfter(tree, path, n - 1), path[..n - 1])
    else TreeAfter(tree, path, n - 1)
  }

  // Shortest first, each prefix once.
  lemma {:induction false} PrefixesGrow(path: string, n: nat)
    requires n <= |path|
    ensures var calls := SlashPrefixes(path, n);
            && (forall c :: c in calls ==> |c| < n)
            && (forall i, j :: 0 <= i < j < |calls| ==> |calls[i]| < |calls[j]|)
  {
    if n > 0 {
      PrefixesGrow(path, n - 1);
    }
  }

  ghost function Ancestors(c: seq<string>): Tree {
    set k: nat | k <= |c| :: c[..k]
  }

  lemma AncestorsSnoc(c: seq<string>, x: string)
    ensures Ancestors(c + [x]) == Ancestors(c) + {c + [x]}
  {
    assert forall k: nat :: k <= |c| ==> (c + [x])[..k] == c[..k];
    assert (c + [x])[..|c| + 1] == c + [x];
    forall d | d in Ancestors(c) + {c + [x]}
      ensures d in Ancestors(c + [x])
    {
      if d in Ancestors(c) {
        var k: nat :| k <= |c| && d == c[..k];
        assert d == (c + [x])[..k];
      } else {
        assert d == (c + [x])[..|c| + 1];
      }
    }
  }

  lemma AncestorsSelf(c: seq<string>)
    ensures c in Ancestors(c) && (c != [] ==> c[..|c| - 1] in Ancestors(c))
  {
    assert c == c[..|c|];
  }

  // One call: the directory named so far joins its existing ancestors.
  lemma MkdirAdds(tree: Tree, prefix: string)
    requires Ancestors(Split(prefix).0) <= tree
    ensures Mkdir(tree, prefix) == tree + Ancestors(Components(prefix))
  {
    var (done, current) := Split(prefix);
    AncestorsSelf(done);
    if current != "" {
      AncestorsSnoc(done, current);
      assert (done + [current])[..|done|] == done;
    }
  }

  lemma {:induction false} CreatesUpTo(tree: Tree, path: string, n: nat)
    requires [] in tree && n <= |path|
    ensures TreeAfter(tree, path, n) == tree + Ancestors(Split(path[..n]).0)
  {
    if n <= 1 {
      var none: seq<string> := [];
      assert none[..0] == none && Split("") == (none, "");
      assert n == 1 ==> path[..n][..0] == "";
      AncestorsSelf(none);
      assert forall d :: d in Ancestors(none) ==> d == none;
    } else {
      CreatesUpTo(tree, path, n - 1);
      var prefix := path[..n - 1];
      assert path[..n][..n - 1] == prefix;
      if path[n - 1] == '/' {
        MkdirAdds(TreeAfter(tree, path, n - 1), prefix);
        Widen(tree, prefix);
      }
    }
  }

  lemma Widen(tree: Tree, prefix: string)
    ensures tree + Ancestors(Split(prefix).0) + Ancestors(Components(prefix)) == tree + Ancestors(Components(prefix))
  {
    var (done, current) := Split(prefix);
    if current != "" {
      AncestorsSnoc(done, current);
    }
  }

  /**
   * After the calls, exactly the file's directory and its ancestors have been added to the tree, for
   * every path whose components are ordinary names.
   */
  lemma ParentsCreated(tree: Tree, path: string)
    requires [] in tree
    ensures TreeAfter(tree, path, |path|) == tree + Ancestors(ParentComponents(path))
    ensures ParentComponents(path) in TreeAfter(tree, path, |path|)
  {
    CreatesUpTo(tree, path, |path|);
    assert path[..|path|] == path;
    AncestorsSelf(ParentComponents(path));
  }

  class FileSystem {
    var tree: Tree
    ghost var calls: seq<string>

    method MakeDirectory(path: string)
      modifies this
      ensures tree == Mkdir(old(tree), path) && calls == old(calls) + [path]
    {
      tree := Mkdir(tree, path);
      calls := calls + [path];
    }
  }

  // std::string::find: the first slash at or after `from`, or the length.
  method FindSlash(s: string, from: nat) returns (k: nat)
    requires from <= |s| + 1
    ensures k <= |s| && (k < |s| ==> from <= k && s[k] == '/')
    ensures forall j :: from <= j < k ==> s[j] != '/'
  {
    k := if from <= |s| then from else |s|;
    while k < |s| && s[k] != '/'
      invariant k <= |s| && (k < |s| ==> from <= k) && forall j :: from <= j < k ==> s[j] != '/'
    {
      k := k + 1;
    }
  }

  // std::string::find_last_of: one past the last slash, or 0.
  method AfterLastSlash(s: string) returns (k: nat)
    ensures k <= |s| && (k > 0 ==> s[k - 1] == '/')
    ensures forall j :: k <= j < |s| ==> s[j] != '/'
  {
    k := |s|;
    while k > 0 && s[k - 1] != '/'
      invariant k <= |s| && forall j :: k <= j < |s| ==> s[j] != '/'
    {
      k := k - 1;
    }
  }

  /** What the calls for the first n characters have done to a file system. */
  ghost predicate Done(calls0: seq<string>, tree0: Tree, path: string, n: nat, calls: seq<string>, tree: Tree)
    requires n <= |path|
  {
    calls == calls0 + SlashPrefixes(path, n) && tree == TreeAfter(tree0, path, n)
  }

  /** Characters that are not slashes ask for no call. */
  lemma {:induction false} SkipTo(calls0: seq<string>, tree0: Tree, path: string, from: nat, to: nat,
                                  calls: seq<string>, tree: Tree)
    requires from <= to <= |path| && forall j :: from <= j < to ==> path[j] != '/'
    requires Done(calls0, tree0, path, from, calls, tree)
    ensures Done(calls0, tree0, path, to, calls, tree)
  {
    if from < to {
      SkipTo(calls0, tree0, path, from, to - 1, calls, tree);
    }
  }

  lemma OneMore(calls0: seq<string>, tree0: Tree, path: string, n: nat, calls: seq<string>, tree: Tree)
    requires 1 <= n < |path| && path[n] == '/' && Done(calls0, tree0, path, n, calls, tree)
    ensures Done(calls0, tree0, path, n + 1, calls + [path[..n]], Mkdir(tree, path[..n]))
  {
  }

  /** Makes one call per slash prefix, shortest first, so the file's directory exists afterwards. */
  method MkdirForFile(path: string, fs: FileSystem)
    modifies fs
    ensures fs.calls == old(fs.calls) + SlashPrefixes(path, |path|)
    ensures fs.tree == TreeAfter(old(fs.tree), path, |path|)
  {
    ghost var calls0, tree0 := fs.calls, fs.tree;
    var end := AfterLastSlash(path);
    if end == 0 || end == 1 {
      SkipTo(calls0, tree0, path, end, |path|, calls0, tree0);
      return;
    }
    var dir := path[..end - 1];
    var pos := FindSlash(dir, 1);
    SkipTo(calls0, tree0, path, 1, pos, calls0, tree0);
    while pos < |dir|
      invariant 1 <= pos <= |dir| && (pos < |dir| ==> dir[pos] == '/')
      invariant Done(calls0, tree0, path, pos, fs.calls, fs.tree)
      decreases |dir| - pos
    {
      OneMore(calls0, tree0, path, pos, fs.calls, fs.tree);
      assert dir[..pos] == path[..pos];
      fs.MakeDirectory(dir[..pos]);
      var next := FindSlash(dir, pos + 1);
      SkipTo(calls0, tree0, path, pos + 1, next, fs.calls, fs.tree);
      pos := next;
    }
    OneMore(calls0, tree0, path, pos, fs.calls, fs.tree);
    fs.MakeDirectory(dir);
    SkipTo(calls0, tree0, path, end, |path|, fs.calls, fs.tree);
  }
}
