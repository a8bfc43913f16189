/** Relative paths of asr/manifest.rs: a textual test, and the tree of components it stands for. */
module ManifestPaths {

  /** The components of a path that starts with c and goes on with these. */
  function Prepend(c: char, components: seq<string>): seq<string>
    requires |components| > 0
  {
    if c == '/' then [""] + components else [[c] + components[0]] + components[1..]
  }

  /** str::split('/'): never empty. */
  function Split(path: string): (components: seq<string>)
    ensures |components| > 0
  {
    if path == "" then [""] else Prepend(path[0], Split(path[1..]))
  }

  function Join(components: seq<string>): string
    requires |components| > 0
  {
    if |components| == 1 then components[0] else components[0] + "/" + Join(components[1..])
  }

  /** char::is_control: general category Cc. */
  predicate IsControl(c: char) {
    c as int <= 0x1F || 0x7F <= c as int <= 0x9F
  }

  predicate ValidRelativePath(path: string) {
    && path != "" && path[0] != '/' && path[|path| - 1] != '/'
    && '\\' !in path
    && (forall i :: 0 <= i < |path| ==> !IsControl(path[i]))
    && var components := Split(path);
       forall i :: 0 <= i < |components| ==> components[i] != "" && components[i] != "." && components[i] != ".."
  }

  /** strip_prefix(left) leaves something that starts with a slash. */
  predicate ContinuesBelow(left: string, right: string) {
    left <= right && |left| < |right| && right[|left|] == '/'
  }

  predicate PathsOverlap(left: string, right: string) {
    left == right || ContinuesBelow(left, right) || ContinuesBelow(right, left)
  }

  lemma PrependConcat(c: char, front: seq<string>, back: seq<string>)
    requires |front| > 0
    ensures Prepend(c, front + back) == Prepend(c, front) + back
  {
    assert (front + back)[1..] == front[1..] + back;
  }

  lemma {:induction false} SplitConcat(left: string, rest: string)
    ensures Split(left + ['/'] + rest) == Split(left) + Split(rest)
  {
    var path := left + ['/'] + rest;
    if left == "" {
      assert path[1..] == rest;
    } else {
      SplitConcat(left[1..], rest);
      assert path[1..] == left[1..] + ['/'] + rest;
      PrependConcat(left[0], Split(left[1..]), Split(rest));
    }
  }

  lemma {:induction false} JoinSplit(path: string)
    ensures Join(Split(path)) == path
  {
    if path != "" {
      JoinSplit(path[1..]);
      var rest := Split(path[1..]);
      if path[0] == '/' {
        assert Split(path)[1..] == rest;
      } else {
        assert Split(path)[1..] == rest[1..];
      }
    }
  }

  lemma {:induction false} JoinConcat(front: seq<string>, back: seq<string>)
    requires |front| > 0 && |back| > 0
    ensures Join(front + back) == Join(front) + "/" + Join(back)
  {
    if |front| == 1 {
      assert (front + back)[1..] == back;
    } else {
      JoinConcat(front[1..], back);
      assert (front + back)[1..] == front[1..] + back;
    }
  }

  lemma BelowHasPrefix(left: string, right: string)
    requires ContinuesBelow(left, right)
    ensures Split(left) <= Split(right)
  {
    SplitConcat(left, right[|left| + 1..]);
    assert right == left + ['/'] + right[|left| + 1..];
  }

  lemma JoinOfPrefix(front: seq<string>, components: seq<string>)
    requires |front| > 0 && front <= components
    ensures Join(front) == Join(components) || ContinuesBelow(Join(front), Join(components))
  {
    var back := components[|front|..];
    assert components == front + back;
    if back == [] {
      assert components == front;
    } else {
      JoinConcat(front, back);
    }
  }

  lemma PrefixIsBelow(left: string, right: string)
    requires Split(left) <= Split(right)
    ensures left == right || ContinuesBelow(left, right)
  {
    JoinSplit(left);
    JoinSplit(right);
    JoinOfPrefix(Split(left), Split(right));
  }

  /** One path is another, or lies below it, exactly when its components start with the other's. */
  lemma BelowIsComponentPrefix(left: string, right: string)
    ensures left == right || ContinuesBelow(left, right) <==> Split(left) <= Split(right)
  {
    if ContinuesBelow(left, right) {
      BelowHasPrefix(left, right);
    }
    if Split(left) <= Split(right) {
      PrefixIsBelow(left, right);
    }
  }

  /** paths_overlap is the prefix order on component lists, for any two texts at all. */
  lemma OverlapIsComponentPrefix(left: string, right: string)
    ensures PathsOverlap(left, right) <==> Split(left) <= Split(right) || Split(right) <= Split(left)
  {
    BelowIsComponentPrefix(left, right);
    BelowIsComponentPrefix(right, left);
  }

  // Where an installer ends up

  /** Opening a name from a directory, given as the list of names above it; the root is its own parent. */
  function Enter(at: seq<string>, name: string): seq<string> {
    if name == "" || name == "." then at
    else if name == ".." then (if at == [] then at else at[..|at| - 1])
    else at + [name]
  }

  function Walk(at: seq<string>, names: seq<string>): seq<string>
    decreases |names|
  {
    if names == [] then at else Walk(Enter(at, names[0]), names[1..])
  }

  predicate Printable(c: char) {
    0x20 <= c as int < 0x7F || c as int > 0x9F
  }

  predicate Ordinary(name: string) {
    name != "" && name != "." && name != ".."
  }

  lemma {:induction false} OrdinaryNamesAreEntered(at: seq<string>, names: seq<string>)
    requires forall i :: 0 <= i < |names| ==> Ordinary(names[i])
    ensures Walk(at, names) == at + names
    decreases |names|
  {
    if names != [] {
      OrdinaryNamesAreEntered(at + [names[0]], names[1..]);
    }
  }

  /** No walk gets further than its names, and one that gets that far has entered each of them. */
  lemma {:induction false} OnlyOrdinaryNamesLeadDown(at: seq<string>, names: seq<string>)
    ensures |Walk(at, names)| <= |at| + |names|
    ensures |Walk(at, names)| == |at| + |names| ==> forall i :: 0 <= i < |names| ==> Ordinary(names[i])
    decreases |names|
  {
    if names != [] {
      OnlyOrdinaryNamesLeadDown(Enter(at, names[0]), names[1..]);
      assert forall i :: 1 <= i < |names| ==> names[i] == names[1..][i - 1];
    }
  }

  lemma EmptyAfterLastSlash(path: string)
    requires path != "" && path[|path| - 1] == '/'
    ensures Split(path)[|Split(path)| - 1] == ""
  {
    var front := path[..|path| - 1];
    assert path == front + ['/'] + "";
    SplitConcat(front, "");
  }

  /** A path whose components all name something is not empty and has no slash at either end. */
  lemma OrdinaryComponentsNeedNoSlashAtTheEnds(path: string)
    requires forall i :: 0 <= i < |Split(path)| ==> Ordinary(Split(path)[i])
    ensures path != "" && path[0] != '/' && path[|path| - 1] != '/'
  {
    var names := Split(path);
    assert Ordinary(names[0]) && Ordinary(names[|names| - 1]);
    if path[|path| - 1] == '/' {
      EmptyAfterLastSlash(path);
      assert false;
    }
  }

  /** From any root the walk ends one level deeper for each name, at that name. */
  ghost predicate LeadsDown(names: seq<string>) {
    forall root :: Walk(root, names) == root + names
  }

  lemma LeadsDownExactly(names: seq<string>)
    ensures LeadsDown(names)
        <==> forall i :: 0 <= i < |names| ==> Ordinary(names[i])
  {
    if forall i :: 0 <= i < |names| ==> Ordinary(names[i]) {
      forall root
        ensures Walk(root, names) == root + names
      {
        OrdinaryNamesAreEntered(root, names);
      }
    } else {
      OnlyOrdinaryNamesLeadDown([], names);
      assert Walk([], names) != [] + names;
    }
  }

  /** A path is valid exactly when it is plain text that leads, from any root, down through each of its components. */
  lemma ValidPathsLeadDown(path: string)
    ensures ValidRelativePath(path) <==>
            && '\\' !in path && (forall i :: 0 <= i < |path| ==> Printable(path[i]))
            && LeadsDown(Split(path))
  {
    var names := Split(path);
    LeadsDownExactly(names);
    assert forall i :: 0 <= i < |path| ==> (Printable(path[i]) <==> !IsControl(path[i]));
    assert forall i :: 0 <= i < |names| ==>
        (Ordinary(names[i]) <==> names[i] != "" && names[i] != "." && names[i] != "..");
    if forall i :: 0 <= i < |names| ==> Ordinary(names[i]) {
      OrdinaryComponentsNeedNoSlashAtTheEnds(path);
    }
  }

  /** No component holds a slash, and the components joined give the path: nothing else splits it. */
  lemma {:induction false} SplitIsTheOnlyOne(path: string, names: seq<string>)
    requires |names| > 0
    ensures Split(path) == names
        <==> Join(names) == path && forall i :: 0 <= i < |names| ==> '/' !in names[i]
  {
    JoinSplit(path);
    NoSlashInside(path);
    if Join(names) == path && forall i :: 0 <= i < |names| ==> '/' !in names[i] {
      SplitJoin(names);
    }
  }

  lemma {:induction false} NoSlashInside(path: string)
    ensures forall i :: 0 <= i < |Split(path)| ==> '/' !in Split(path)[i]
  {
    if path != "" {
      NoSlashInside(path[1..]);
    }
  }

  lemma {:induction false} SplitName(name: string)
    requires '/' !in name
    ensures Split(name) == [name]
  {
    if name != "" {
      SplitName(name[1..]);
      assert [name[0]] + name[1..] == name;
    }
  }

  lemma {:induction false} SplitJoin(names: seq<string>)
    requires |names| > 0 && forall i :: 0 <= i < |names| ==> '/' !in names[i]
    ensures Split(Join(names)) == names
  {
    SplitName(names[0]);
    if |names| > 1 {
      SplitJoin(names[1..]);
      SplitConcat(names[0], Join(names[1..]));
      assert Join(names) == names[0] + ['/'] + Join(names[1..]);
    }
  }
}
