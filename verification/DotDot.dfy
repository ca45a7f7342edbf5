/**
 What `..` means in the paths of workspaces: how it is cleaned away, that a path that leaves the root by it is
 outside, and that a link below the root that leaves it by `..` is an escape.
 */
module DotDot {
  import opened Domain
  import opened Paths

  // ----- cleaning -----

  /** Down to a name and up again is nowhere. */
  lemma DownAndUp(base: Place, name: string, rest: seq<string>)
    requires name != "" && name != "." && name != ".."
    ensures CleanFrom(base, [name, ".."] + rest) == CleanFrom(base, rest)
  {
    assert ([name, ".."] + rest)[1..] == [".."] + rest && ([".."] + rest)[1..] == rest;
    assert CleanFrom(base, [name, ".."] + rest) == CleanFrom(base + [name], [".."] + rest);
    assert (base + [name])[..|base|] == base;
  }

  /** Up from a place is where it stands. */
  lemma UpFrom(base: Place, name: string, rest: seq<string>)
    ensures CleanFrom(base + [name], [".."] + rest) == CleanFrom(base, rest)
  {
    assert ([".."] + rest)[1..] == rest && (base + [name])[..|base|] == base;
  }

  /** There is nothing above the root of the file system. */
  lemma UpFromTop(rest: seq<string>)
    ensures CleanFrom([], [".."] + rest) == CleanFrom([], rest)
  {
    assert ([".."] + rest)[1..] == rest;
  }

  /** A full stop or an empty segment goes nowhere, a name goes down. */
  lemma StayOrGoDown(base: Place, part: string, rest: seq<string>)
    ensures part == "" || part == "." ==> CleanFrom(base, [part] + rest) == CleanFrom(base, rest)
    ensures part != "" && part != "." && part != ".." ==> CleanFrom(base, [part] + rest) == CleanFrom(base + [part], rest)
  {
    assert ([part] + rest)[1..] == rest;
  }

  function Ups(n: nat): seq<string> {
    if n == 0 then [] else [".."] + Ups(n - 1)
  }

  /** Up n times and then down the names: the place without its last n segments, followed by the names. */
  lemma {:induction false} UpAndDown(base: Place, n: nat, names: seq<string>)
    requires n <= |base| && AllNames(names)
    ensures CleanFrom(base, Ups(n) + names) == base[..|base| - n] + names
    decreases n
  {
    if n == 0 {
      assert Ups(0) + names == names && base[..|base|] == base;
      CleanOfNames(base, names);
    } else {
      var up := base[..|base| - 1];
      assert base == up + [base[|base| - 1]];
      assert Ups(n) + names == [".."] + (Ups(n - 1) + names);
      UpFrom(up, base[|base| - 1], Ups(n - 1) + names);
      UpAndDown(up, n - 1, names);
      assert up[..|up| - (n - 1)] == base[..|base| - n];
    }
  }

  // ----- paths that leave the root -----

  /** No place is a link, or cannot be looked at. */
  ghost predicate LinkFree(tree: Tree) {
    forall place: Place :: tree.lookup(place).Plain? || tree.lookup(place).Missing?
  }

  lemma PlaceIsCanonical(tree: Tree, rank: Place -> nat, limit: nat, parts: seq<string>, place: Place)
    requires CleanFrom([], parts) == place && Settled(tree, place)
    ensures Canonical(tree, rank, limit, None, Raw(true, parts)) == Some(place)
    ensures Abs(None, Raw(true, parts)) == Some(place)
  {
    assert [] + place == place;
    SettledMeansItself(tree, rank, [], place, limit);
  }

  /**
   Without links, the root followed by `..` steps and names is judged by the place that is reached: accepted
   only if it lies strictly below the root, and outside unless it is the root or below it.
   */
  lemma LeavingTheRoot(
    tree: Tree, rank: Place -> nat, limit: nat, root: Place, n: nat, names: seq<string>)
    requires LinkFree(tree) && AllNames(root) && AllNames(names) && n <= |root|
    ensures var place, workspace := root[..|root| - n] + names, Raw(true, root + Ups(n) + names);
            VerdictOn(tree, rank, limit, None, Raw(true, root), workspace)
            == if root < place then Accepted(place) else if root == place then EqualsRoot(place)
               else OutsideRoot(place, root)
  {
    var place := root[..|root| - n] + names;
    CleanOfNames([], root);
    assert [] + root == root && root + Ups(n) + names == root + (Ups(n) + names);
    CleanAppend([], root, Ups(n) + names);
    UpAndDown(root, n, names);
    PlaceIsCanonical(tree, rank, limit, root, root);
    PlaceIsCanonical(tree, rank, limit, root + Ups(n) + names, place);
    ProperPrefix(root, place);
  }

  /** In particular a sibling of the root, written as root/../name, is never accepted. */
  lemma SiblingIsOutside(tree: Tree, rank: Place -> nat, limit: nat, root: Place, name: string)
    requires LinkFree(tree) && AllNames(root) && IsName(name) && root != [] && name != root[|root| - 1]
    ensures VerdictOn(tree, rank, limit, None, Raw(true, root), Raw(true, root + ["..", name]))
            == OutsideRoot(root[..|root| - 1] + [name], root)
  {
    var place := root[..|root| - 1] + [name];
    assert Ups(1) == [".."] + Ups(0) == [".."];
    assert root + Ups(1) + [name] == root + ["..", name];
    LeavingTheRoot(tree, rank, limit, root, 1, [name]);
    assert |place| == |root| && place[|root| - 1] != root[|root| - 1];
  }

  // ----- links that leave the root -----

  lemma LinkIsFollowed(
    tree: Tree, rank: Place -> nat, limit: nat, root: Place, name: string, target: Raw, place: Place)
    requires Settled(tree, root) && tree.lookup(root + [name]) == Link(target) && rank(root + [name]) < limit
    requires Target(root, target) == place && Settled(tree, place)
    ensures Resolve(tree, rank, root, [name], limit) == At(place)
  {
    assert [] + place == place && [name][1..] == [];
    SettledMeansItself(tree, rank, [], place, rank(root + [name]));
  }

  lemma LinkIsCanonical(
    tree: Tree, rank: Place -> nat, limit: nat, root: Place, name: string, target: Raw, place: Place)
    requires Rooted(tree) && Acyclic(tree, rank, limit) && AllNames(root) && IsName(name)
    requires Settled(tree, root) && tree.lookup(root + [name]) == Link(target)
    requires Target(root, target) == place && Settled(tree, place)
    ensures Canonical(tree, rank, limit, None, Raw(true, root + [name])) == Some(place)
    ensures Abs(None, Raw(true, root + [name])) == Some(root + [name])
  {
    CleanOfNames([], root + [name]);
    assert [] + (root + [name]) == root + [name] && [] + root == root;
    SettledMeansItself(tree, rank, [], root, limit);
    assert Settled(tree, []);
    ResolveAppend(tree, rank, [], root, [name], limit);
    assert LinkRanked(tree, rank, limit, root, name);
    LinkIsFollowed(tree, rank, limit, root, name, target, place);
  }

  /** A link below the root to a settled place outside it is an escape, however the link is written. */
  lemma LinkOutsideEscapes(
    tree: Tree, rank: Place -> nat, limit: nat, root: Place, name: string, target: Raw, place: Place)
    requires Rooted(tree) && Acyclic(tree, rank, limit) && AllNames(root) && IsName(name)
    requires Settled(tree, root) && tree.lookup(root + [name]) == Link(target)
    requires Target(root, target) == place && Settled(tree, place) && !(root <= place)
    ensures VerdictOn(tree, rank, limit, None, Raw(true, root), Raw(true, root + [name]))
            == SymlinkEscape(root + [name], root)
  {
    CleanOfNames([], root);
    assert [] + root == root;
    PlaceIsCanonical(tree, rank, limit, root, root);
    LinkIsCanonical(tree, rank, limit, root, name, target, place);
    assert !(root < place) && root <= root + [name];
  }

  /** Such as one that goes up n times and then down the names. */
  lemma ClimbingLinkEscapes(
    tree: Tree, rank: Place -> nat, limit: nat, root: Place, name: string, n: nat, names: seq<string>)
    requires Rooted(tree) && Acyclic(tree, rank, limit) && AllNames(root) && IsName(name) && Settled(tree, root)
    requires n <= |root| && AllNames(names) && tree.lookup(root + [name]) == Link(Raw(false, Ups(n) + names))
    requires var place := root[..|root| - n] + names; Settled(tree, place) && !(root <= place)
    ensures VerdictOn(tree, rank, limit, None, Raw(true, root), Raw(true, root + [name]))
            == SymlinkEscape(root + [name], root)
  {
    UpAndDown(root, n, names);
    LinkOutsideEscapes(tree, rank, limit, root, name, Raw(false, Ups(n) + names), root[..|root| - n] + names);
  }

  /** And one that is absolute. */
  lemma AbsoluteLinkEscapes(
    tree: Tree, rank: Place -> nat, limit: nat, root: Place, name: string, place: Place)
    requires Rooted(tree) && Acyclic(tree, rank, limit) && AllNames(root) && IsName(name) && Settled(tree, root)
    requires AllNames(place) && tree.lookup(root + [name]) == Link(Raw(true, place))
    requires Settled(tree, place) && !(root <= place)
    ensures VerdictOn(tree, rank, limit, None, Raw(true, root), Raw(true, root + [name]))
            == SymlinkEscape(root + [name], root)
  {
    CleanOfNames([], place);
    assert [] + place == place;
    LinkOutsideEscapes(tree, rank, limit, root, name, Raw(true, place), place);
  }

  /** While a link that stays below the root is followed, and its target accepted. */
  lemma LinkInsideIsAccepted(
    tree: Tree, rank: Place -> nat, limit: nat, root: Place, name: string, n: nat, names: seq<string>)
    requires Rooted(tree) && Acyclic(tree, rank, limit) && AllNames(root) && IsName(name) && Settled(tree, root)
    requires n <= |root| && AllNames(names) && tree.lookup(root + [name]) == Link(Raw(false, Ups(n) + names))
    requires var place := root[..|root| - n] + names; Settled(tree, place) && root < place
    ensures VerdictOn(tree, rank, limit, None, Raw(true, root), Raw(true, root + [name]))
            == Accepted(root[..|root| - n] + names)
  {
    var place := root[..|root| - n] + names;
    UpAndDown(root, n, names);
    CleanOfNames([], root);
    assert [] + root == root;
    PlaceIsCanonical(tree, rank, limit, root, root);
    LinkIsCanonical(tree, rank, limit, root, name, Raw(false, Ups(n) + names), place);
  }

  // ----- relative paths -----

  /** A relative path starts at the working directory and means nothing without one; an absolute one needs none. */
  lemma FromWorkingDirectory(cwd: Place, names: seq<string>)
    requires AllNames(names)
    ensures Abs(Some(cwd), Raw(false, names)) == Some(cwd + names) && Abs(None, Raw(false, names)) == None
    ensures Abs(None, Raw(true, names)) == Abs(Some(cwd), Raw(true, names)) == Some(names)
  {
    CleanOfNames(cwd, names);
    CleanOfNames([], names);
    assert [] + names == names;
  }

  // ----- paths that cannot be read -----

  /** Where something on the way cannot be looked at, or a link cannot be read, there is no canonical path. */
  lemma UnreadableFails(tree: Tree, rank: Place -> nat, base: Place, name: string, rest: seq<string>, bound: nat)
    requires tree.lookup(base + [name]).Fault? || tree.lookup(base + [name]).DeadLink?
    ensures Resolve(tree, rank, base, [name] + rest, bound) == Failed
  {
    assert ([name] + rest)[0] == name;
  }

  /** A path without a canonical one is reported as unreadable, the workspace before the root. */
  lemma UnreadableIsNamed(tree: Tree, rank: Place -> nat, limit: nat, cwd: Option<Place>, root: Raw, workspace: Raw)
    ensures Canonical(tree, rank, limit, cwd, workspace).None? ==>
              VerdictOn(tree, rank, limit, cwd, root, workspace) == Unreadable(workspace)
    ensures Canonical(tree, rank, limit, cwd, workspace).Some? && Canonical(tree, rank, limit, cwd, root).None? ==>
              VerdictOn(tree, rank, limit, cwd, root, workspace) == Unreadable(root)
  {
  }
}
