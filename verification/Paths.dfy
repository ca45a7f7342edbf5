/**
 Workspace paths of internal/workspace/manager.go: canonical paths over a file tree with symbolic links,
 and the check that a workspace lies strictly below the workspace root.

 Paths are modelled after splitting at the separator. The tree does not change during a call.
 */
module Paths {
  import opened Text
  import opened Domain

  /** The segments of an absolute path without empty, `.` and `..` segments. */
  type Place = seq<string>

  /** A path as given: its segments may be empty, `.` or `..`. */
  datatype Raw = Raw(absolute: bool, parts: seq<string>)

  /** What Lstat and Readlink report: `DeadLink` is a link Readlink fails on, `Fault` an error other than not-exist. */
  datatype Entry = Missing | Plain | Link(target: Raw) | DeadLink | Fault

  datatype Tree = Tree(lookup: Place -> Entry)

  predicate IsName(part: string) {
    part != "" && part != "." && part != ".."
  }

  predicate AllNames(parts: seq<string>) {
    forall i :: 0 <= i < |parts| ==> IsName(parts[i])
  }

  // ----- filepath.Clean, Join, Abs -----

  function PushPart(base: Place, part: string): Place {
    if part == "" || part == "." then base
    else if part == ".." then (if base == [] then [] else base[..|base| - 1])
    else base + [part]
  }

  /** The absolute path base followed by parts, cleaned. */
  function CleanFrom(base: Place, parts: seq<string>): Place
    decreases |parts|
  {
    if parts == [] then base else CleanFrom(PushPart(base, parts[0]), parts[1..])
  }

  function Abs(cwd: Option<Place>, path: Raw): Option<Place> {
    if path.absolute then Some(CleanFrom([], path.parts))
    else if cwd.None? then None
    else Some(CleanFrom(cwd.value, path.parts))
  }

  lemma {:induction false} CleanAppend(base: Place, a: seq<string>, b: seq<string>)
    ensures CleanFrom(base, a + b) == CleanFrom(CleanFrom(base, a), b)
    decreases |a|
  {
    if a == [] {
      assert a + b == b;
    } else {
      assert (a + b)[1..] == a[1..] + b;
      CleanAppend(PushPart(base, a[0]), a[1..], b);
    }
  }

  lemma {:induction false} CleanOfNames(base: Place, names: seq<string>)
    requires AllNames(names)
    ensures CleanFrom(base, names) == base + names
    decreases |names|
  {
    if names != [] {
      assert AllNames(names[1..]) && IsName(names[0]);
      CleanOfNames(base + [names[0]], names[1..]);
      assert base + names == (base + [names[0]]) + names[1..];
    } else {
      assert base + names == base;
    }
  }

  lemma {:induction false} CleanIsNames(base: Place, parts: seq<string>)
    requires AllNames(base)
    ensures AllNames(CleanFrom(base, parts))
    decreases |parts|
  {
    if parts != [] {
      CleanIsNames(PushPart(base, parts[0]), parts[1..]);
    }
  }

  // ----- what a path means -----

  datatype Outcome = At(place: Place) | Failed | Looping

  /** Where the target of a link in `dir` points, `..` taken lexically. */
  function Target(dir: Place, target: Raw): Place {
    CleanFrom(if target.absolute then [] else dir, target.parts)
  }

  /**
   The meaning of segs below the resolved place `base`, one component at a time: a link means what its target
   means, and everything below a missing entry is left as written. Only links ranked below `bound` are followed.
   */
  function Resolve(tree: Tree, rank: Place -> nat, base: Place, segs: seq<string>, bound: nat): Outcome
    decreases bound, |segs|
  {
    if segs == [] then At(base)
    else
      var at := base + [segs[0]];
      match tree.lookup(at)
      case Missing => At(base + segs)
      case Plain => Resolve(tree, rank, at, segs[1..], bound)
      case Link(target) =>
        if rank(at) >= bound then Looping
        else
          var pointed := Resolve(tree, rank, [], Target(base, target), rank(at));
          if pointed.At? then Resolve(tree, rank, pointed.place, segs[1..], bound) else pointed
      case _ => Failed
  }

  /** How many links that takes. */
  function Follows(tree: Tree, rank: Place -> nat, base: Place, segs: seq<string>, bound: nat): nat
    decreases bound, |segs|
  {
    if segs == [] then 0
    else
      var at := base + [segs[0]];
      match tree.lookup(at)
      case Plain => Follows(tree, rank, at, segs[1..], bound)
      case Link(target) =>
        if rank(at) >= bound then 0
        else
          var pointed := Resolve(tree, rank, [], Target(base, target), rank(at));
          1 + Follows(tree, rank, [], Target(base, target), rank(at))
          + (if pointed.At? then Follows(tree, rank, pointed.place, segs[1..], bound) else 0)
      case _ => 0
  }

  /** No prefix is a link or unreadable. */
  ghost predicate Settled(tree: Tree, place: Place) {
    forall i :: 0 < i <= |place| ==> SettledAt(tree, place, i)
  }

  predicate SettledAt(tree: Tree, place: Place, i: nat)
    requires i <= |place|
  {
    tree.lookup(place[..i]).Plain? || tree.lookup(place[..i]).Missing?
  }

  /** Nothing exists below a missing entry. */
  ghost predicate Rooted(tree: Tree) {
    forall dir: Place, name: string :: tree.lookup(dir).Missing? && dir != [] ==> tree.lookup(dir + [name]).Missing?
  }

  /** An acyclic ranking: resolving the target of a link meets no link of the same or a higher rank. */
  ghost predicate Acyclic(tree: Tree, rank: Place -> nat, limit: nat) {
    forall dir: Place, name: string :: Settled(tree, dir) ==> LinkRanked(tree, rank, limit, dir, name)
  }

  predicate LinkRanked(tree: Tree, rank: Place -> nat, limit: nat, dir: Place, name: string) {
    var at := dir + [name];
    tree.lookup(at).Link? ==>
      rank(at) < limit && !Resolve(tree, rank, [], Target(dir, tree.lookup(at).target), rank(at)).Looping?
  }

  /** Where every link points at a place without links, any ranking serves. */
  lemma DirectLinksAreAcyclic(tree: Tree, rank: Place -> nat, limit: nat)
    requires forall at :: tree.lookup(at).Link? ==> rank(at) < limit
    requires forall dir: Place, name: string ::
               Settled(tree, dir) && tree.lookup(dir + [name]).Link? ==>
                 Settled(tree, Target(dir, tree.lookup(dir + [name]).target))
    ensures Acyclic(tree, rank, limit)
  {
    forall dir: Place, name: string | Settled(tree, dir) ensures LinkRanked(tree, rank, limit, dir, name) {
      var at := dir + [name];
      if tree.lookup(at).Link? {
        var pointed := Target(dir, tree.lookup(at).target);
        assert [] + pointed == pointed;
        SettledMeansItself(tree, rank, [], pointed, rank(at));
      }
    }
  }

  /** A link to itself has no acyclic ranking. */
  lemma SelfLinkIsCyclic(tree: Tree, rank: Place -> nat, limit: nat, name: string)
    requires IsName(name) && tree.lookup([name]) == Link(Raw(true, [name]))
    ensures !Acyclic(tree, rank, limit)
  {
    assert Settled(tree, []) && [] + [name] == [name];
    CleanOfNames([], [name]);
    assert Resolve(tree, rank, [], [name], rank([name])).Looping?;
    assert !LinkRanked(tree, rank, limit, [], name);
  }

  // ----- properties of the meaning -----

  lemma SettledExtends(tree: Tree, base: Place, name: string)
    requires Settled(tree, base) && SettledAt(tree, base + [name], |base| + 1)
    ensures Settled(tree, base + [name])
  {
    var at := base + [name];
    forall i | 0 < i <= |at| ensures SettledAt(tree, at, i) {
      if i <= |base| {
        assert at[..i] == base[..i];
        assert SettledAt(tree, base, i);
      }
    }
  }

  /** Below a missing entry every path means itself. */
  lemma {:induction false} BelowMissing(tree: Tree, rank: Place -> nat, base: Place, segs: seq<string>, bound: nat)
    requires Rooted(tree) && base != [] && tree.lookup(base).Missing? && Settled(tree, base)
    ensures Resolve(tree, rank, base, segs, bound) == At(base + segs)
    ensures Follows(tree, rank, base, segs, bound) == 0
    ensures Settled(tree, base + segs) && (tree.lookup(base + segs).Missing?)
    decreases |segs|
  {
    if segs == [] {
      assert base + segs == base;
    } else {
      var at := base + [segs[0]];
      assert tree.lookup(at).Missing?;
      assert at[..|base| + 1] == at;
      SettledExtends(tree, base, segs[0]);
      BelowMissing(tree, rank, at, segs[1..], bound);
      assert at + segs[1..] == base + segs;
    }
  }

  /** The result has no link among its prefixes. */
  lemma {:induction false} ResolvedIsSettled(tree: Tree, rank: Place -> nat, base: Place, segs: seq<string>, bound: nat)
    requires Rooted(tree) && Settled(tree, base)
    ensures var result := Resolve(tree, rank, base, segs, bound); result.At? ==> Settled(tree, result.place)
    decreases bound, |segs|
  {
    if segs != [] {
      var at := base + [segs[0]];
      assert at[..|base| + 1] == at;
      match tree.lookup(at)
      case Missing =>
        SettledExtends(tree, base, segs[0]);
        BelowMissing(tree, rank, at, segs[1..], bound);
        assert at + segs[1..] == base + segs;
      case Plain =>
        SettledExtends(tree, base, segs[0]);
        ResolvedIsSettled(tree, rank, at, segs[1..], bound);
      case Link(target) =>
        if rank(at) < bound {
          ResolvedIsSettled(tree, rank, [], Target(base, target), rank(at));
          var pointed := Resolve(tree, rank, [], Target(base, target), rank(at));
          if pointed.At? { ResolvedIsSettled(tree, rank, pointed.place, segs[1..], bound); }
        }
      case _ =>
    }
  }

  /** A settled place means itself. */
  lemma {:induction false} SettledMeansItself(tree: Tree, rank: Place -> nat, base: Place, segs: seq<string>, bound: nat)
    requires Settled(tree, base + segs)
    ensures Resolve(tree, rank, base, segs, bound) == At(base + segs)
    decreases |segs|
  {
    if segs == [] {
      assert base + segs == base;
    } else {
      var at := base + [segs[0]];
      assert (base + segs)[..|base| + 1] == at;
      assert SettledAt(tree, base + segs, |base| + 1);
      assert at + segs[1..] == base + segs;
      if tree.lookup(at).Plain? {
        SettledMeansItself(tree, rank, at, segs[1..], bound);
      }
    }
  }

  /** Raising the bound changes nothing for a path that resolves. */
  lemma {:induction false} BoundIrrelevant(
    tree: Tree, rank: Place -> nat, base: Place, segs: seq<string>, bound: nat, higher: nat)
    requires bound <= higher && !Resolve(tree, rank, base, segs, bound).Looping?
    ensures Resolve(tree, rank, base, segs, higher) == Resolve(tree, rank, base, segs, bound)
    ensures Follows(tree, rank, base, segs, higher) == Follows(tree, rank, base, segs, bound)
    decreases |segs|
  {
    if segs != [] {
      var at := base + [segs[0]];
      match tree.lookup(at)
      case Plain => BoundIrrelevant(tree, rank, at, segs[1..], bound, higher);
      case Link(target) =>
        var pointed := Resolve(tree, rank, [], Target(base, target), rank(at));
        if pointed.At? { BoundIrrelevant(tree, rank, pointed.place, segs[1..], bound, higher); }
      case _ =>
    }
  }

  /** With an acyclic ranking every path resolves or fails. */
  lemma {:induction false} NeverLoops(tree: Tree, rank: Place -> nat, limit: nat, base: Place, segs: seq<string>)
    requires Rooted(tree) && Acyclic(tree, rank, limit) && Settled(tree, base)
    ensures !Resolve(tree, rank, base, segs, limit).Looping?
    decreases |segs|
  {
    if segs != [] {
      var at := base + [segs[0]];
      assert at[..|base| + 1] == at;
      assert LinkRanked(tree, rank, limit, base, segs[0]);
      match tree.lookup(at)
      case Plain =>
        SettledExtends(tree, base, segs[0]);
        NeverLoops(tree, rank, limit, at, segs[1..]);
      case Link(target) =>
        ResolvedIsSettled(tree, rank, [], Target(base, target), rank(at));
        var pointed := Resolve(tree, rank, [], Target(base, target), rank(at));
        if pointed.At? { NeverLoops(tree, rank, limit, pointed.place, segs[1..]); }
      case _ =>
    }
  }

  function Then(tree: Tree, rank: Place -> nat, first: Outcome, segs: seq<string>, bound: nat): Outcome {
    if first.At? then Resolve(tree, rank, first.place, segs, bound) else first
  }

  function ThenFollows(tree: Tree, rank: Place -> nat, first: Outcome, segs: seq<string>, bound: nat): nat {
    if first.At? then Follows(tree, rank, first.place, segs, bound) else 0
  }

  /** Resolving a path is resolving a prefix and then the rest from there. */
  lemma {:induction false} ResolveAppend(
    tree: Tree, rank: Place -> nat, base: Place, a: seq<string>, b: seq<string>, bound: nat)
    requires Rooted(tree) && Settled(tree, base)
    ensures var first := Resolve(tree, rank, base, a, bound);
            && Resolve(tree, rank, base, a + b, bound) == Then(tree, rank, first, b, bound)
            && Follows(tree, rank, base, a + b, bound)
               == Follows(tree, rank, base, a, bound) + ThenFollows(tree, rank, first, b, bound)
    decreases |a|
  {
    if a == [] {
      assert a + b == b;
    } else {
      var at := base + [a[0]];
      assert (a + b)[0] == a[0] && (a + b)[1..] == a[1..] + b;
      assert at[..|base| + 1] == at;
      match tree.lookup(at)
      case Missing =>
        SettledExtends(tree, base, a[0]);
        BelowMissing(tree, rank, at, a[1..], bound);
        assert at + a[1..] == base + a;
        BelowMissing(tree, rank, base + a, b, bound);
        assert base + (a + b) == (base + a) + b;
      case Plain =>
        SettledExtends(tree, base, a[0]);
        ResolveAppend(tree, rank, at, a[1..], b, bound);
      case Link(target) =>
        if rank(at) < bound {
          ResolvedIsSettled(tree, rank, [], Target(base, target), rank(at));
          var pointed := Resolve(tree, rank, [], Target(base, target), rank(at));
          if pointed.At? { ResolveAppend(tree, rank, pointed.place, a[1..], b, bound); }
        }
      case _ =>
    }
  }

  /** Restarting on the target followed by the rest, as the code does, keeps the meaning and follows one link less. */
  lemma RestartAtLink(tree: Tree, rank: Place -> nat, limit: nat, base: Place, segs: seq<string>)
    requires Rooted(tree) && Acyclic(tree, rank, limit) && Settled(tree, base)
    requires segs != [] && tree.lookup(base + [segs[0]]).Link?
    ensures var again := Target(base, tree.lookup(base + [segs[0]]).target) + segs[1..];
            && Resolve(tree, rank, [], again, limit) == Resolve(tree, rank, base, segs, limit)
            && Follows(tree, rank, [], again, limit) < Follows(tree, rank, base, segs, limit)
  {
    var at := base + [segs[0]];
    var target := Target(base, tree.lookup(at).target);
    assert LinkRanked(tree, rank, limit, base, segs[0]);
    BoundIrrelevant(tree, rank, [], target, rank(at), limit);
    ResolveAppend(tree, rank, [], target, segs[1..], limit);
  }

  // ----- the code -----

  /** The meaning of a path under an acyclic ranking. */
  ghost function Canonical(tree: Tree, rank: Place -> nat, limit: nat, cwd: Option<Place>, path: Raw): Option<Place> {
    var absolute := Abs(cwd, path);
    if absolute.None? then None
    else
      var result := Resolve(tree, rank, [], absolute.value, limit);
      if result.At? then Some(result.place) else None
  }

  ghost function LinksToFollow(tree: Tree, rank: Place -> nat, limit: nat, cwd: Option<Place>, path: Raw): nat {
    var absolute := Abs(cwd, path);
    if absolute.None? then 0 else Follows(tree, rank, [], absolute.value, limit)
  }

  /** canonicalizePath: walk the segments; at a link start over on its target. It terminates and computes the meaning. */
  method CanonicalizePath(tree: Tree, ghost rank: Place -> nat, ghost limit: nat, cwd: Option<Place>, path: Raw)
    returns (result: Option<Place>)
    requires Rooted(tree) && Acyclic(tree, rank, limit) && (cwd.Some? ==> AllNames(cwd.value))
    ensures result == Canonical(tree, rank, limit, cwd, path)
    decreases LinksToFollow(tree, rank, limit, cwd, path)
  {
    var absolute := Abs(cwd, path);
    if absolute.None? {
      return None;
    }
    var segments, current := absolute.value, [];
    CleanIsNames(if path.absolute then [] else cwd.value, path.parts);
    for index := 0 to |segments|
      invariant Settled(tree, current) && AllNames(current)
      invariant Resolve(tree, rank, current, segments[index..], limit) == Resolve(tree, rank, [], segments, limit)
      invariant Follows(tree, rank, current, segments[index..], limit) == Follows(tree, rank, [], segments, limit)
    {
      var candidate := current + [segments[index]];
      var rest := segments[index..];
      assert rest[0] == segments[index] && rest[1..] == segments[index + 1..];
      assert candidate[..|current| + 1] == candidate;
      match tree.lookup(candidate) {
        case Link(target) =>
          var next := if target.absolute then target else Raw(true, CleanFrom(current, target.parts));
          RestartsOn(current, target, next, segments[index + 1..]);
          RestartAtLink(tree, rank, limit, current, rest);
          NeverLoops(tree, rank, limit, current, rest);
          result := CanonicalizePath(tree, rank, limit, cwd, Join(next, segments[index + 1..]));
          return;
        case Plain =>
          SettledExtends(tree, current, segments[index]);
          current := candidate;
        case Missing =>
          CleanOfNames(current, rest);
          return Some(CleanFrom(current, rest));
        case _ =>
          return None;
      }
    }
    return Some(current);
  }

  /** filepath.Join of an absolute path and clean segments, where there are any. */
  function Join(path: Raw, segs: seq<string>): Raw {
    if segs == [] then path else Raw(true, CleanFrom([], path.parts + segs))
  }

  lemma RestartsOn(dir: Place, target: Raw, next: Raw, segs: seq<string>)
    requires AllNames(segs) && AllNames(dir)
    requires next == if target.absolute then target else Raw(true, CleanFrom(dir, target.parts))
    ensures Abs(None, Join(next, segs)) == Some(Target(dir, target) + segs)
    ensures Join(next, segs).absolute
  {
    CleanIsNames(dir, target.parts);
    CleanIsNames([], target.parts);
    CleanOfNames([], CleanFrom(dir, target.parts));
    assert [] + CleanFrom(dir, target.parts) == CleanFrom(dir, target.parts);
    CleanAppend([], next.parts, segs);
    CleanOfNames(Target(dir, target), segs);
    if segs != [] {
      CleanOfNames([], Target(dir, target) + segs);
      assert [] + (Target(dir, target) + segs) == Target(dir, target) + segs;
    } else {
      assert Target(dir, target) + segs == Target(dir, target);
    }
  }

  /** The result has no link among its prefixes and is its own canonical path. */
  lemma CanonicalIsIdempotent(tree: Tree, rank: Place -> nat, limit: nat, cwd: Option<Place>, path: Raw)
    requires Rooted(tree) && Acyclic(tree, rank, limit) && (cwd.Some? ==> AllNames(cwd.value))
    requires Canonical(tree, rank, limit, cwd, path).Some?
    ensures var place := Canonical(tree, rank, limit, cwd, path).value;
            Settled(tree, place) && AllNames(place) && Canonical(tree, rank, limit, cwd, Raw(true, place)) == Some(place)
  {
    var absolute := Abs(cwd, path).value;
    CleanIsNames(if path.absolute then [] else cwd.value, path.parts);
    ResolvedIsSettled(tree, rank, [], absolute, limit);
    ResolvedIsNames(tree, rank, [], absolute, limit);
    var place := Canonical(tree, rank, limit, cwd, path).value;
    CleanOfNames([], place);
    assert [] + place == place;
    SettledMeansItself(tree, rank, [], place, limit);
  }

  lemma {:induction false} ResolvedIsNames(tree: Tree, rank: Place -> nat, base: Place, segs: seq<string>, bound: nat)
    requires AllNames(base) && AllNames(segs)
    ensures var result := Resolve(tree, rank, base, segs, bound); result.At? ==> AllNames(result.place)
    decreases bound, |segs|
  {
    if segs != [] {
      var at := base + [segs[0]];
      match tree.lookup(at)
      case Plain => ResolvedIsNames(tree, rank, at, segs[1..], bound);
      case Link(target) =>
        if rank(at) < bound {
          CleanIsNames(if target.absolute then [] else base, target.parts);
          ResolvedIsNames(tree, rank, [], Target(base, target), rank(at));
          var pointed := Resolve(tree, rank, [], Target(base, target), rank(at));
          if pointed.At? { ResolvedIsNames(tree, rank, pointed.place, segs[1..], bound); }
        }
      case _ =>
    }
  }

  // ----- containment -----

  function Common(a: Place, b: Place): nat
    ensures Common(a, b) <= |a| && Common(a, b) <= |b|
  {
    if a != [] && b != [] && a[0] == b[0] then 1 + Common(a[1..], b[1..]) else 0
  }

  /** filepath.Rel for absolute clean paths; [] stands for ".". */
  function Rel(root: Place, path: Place): seq<string> {
    var c := Common(root, path);
    seq(|root| - c, i => "..") + path[c..]
  }

  predicate IsWithinRoot(path: Place, root: Place) {
    var relative := Rel(root, path);
    relative == [] || relative[0] != ".."
  }

  lemma {:induction false} CommonIsPrefix(a: Place, b: Place)
    ensures Common(a, b) == |a| <==> a <= b
  {
    if a != [] && b != [] && a[0] == b[0] {
      CommonIsPrefix(a[1..], b[1..]);
      assert a == [a[0]] + a[1..] && b == [b[0]] + b[1..];
    }
  }

  lemma WithinIsPrefix(path: Place, root: Place)
    requires AllNames(path)
    ensures IsWithinRoot(path, root) <==> root <= path
  {
    CommonIsPrefix(root, path);
    var c := Common(root, path);
    if c == |root| && c < |path| {
      assert Rel(root, path)[0] == path[c];
      assert IsName(path[c]);
    } else if c < |root| {
      assert Rel(root, path)[0] == "..";
    }
  }

  lemma ProperPrefix(a: Place, b: Place)
    ensures a < b <==> a <= b && a != b
  {
    if a <= b && |a| == |b| {
      assert a == b[..|a|] == b;
    }
  }

  datatype Verdict =
    | Accepted(place: Place)
    | Unreadable(path: Raw)
    | EqualsRoot(place: Place)
    | SymlinkEscape(place: Place, root: Place)
    | OutsideRoot(place: Place, root: Place)

  /**
   A path is accepted exactly when the canonical root is a proper prefix of its canonical path, segment by
   segment; a rejected one is an escape exactly when it looks as if it were inside.
   */
  function Judge(
    base: Option<Place>, place: Option<Place>, rootAbs: Option<Place>, workAbs: Option<Place>,
    root: Raw, workspace: Raw): Verdict
  {
    if place.None? || workAbs.None? then Unreadable(workspace)
    else if base.None? || rootAbs.None? then Unreadable(root)
    else if base.value < place.value then Accepted(place.value)
    else if base.value <= place.value then EqualsRoot(place.value)
    else if rootAbs.value <= workAbs.value then SymlinkEscape(workAbs.value, base.value)
    else OutsideRoot(place.value, base.value)
  }

  /** The judgement of a workspace path under a root. */
  ghost function VerdictOn(
    tree: Tree, rank: Place -> nat, limit: nat, cwd: Option<Place>, root: Raw, workspace: Raw): Verdict
  {
    Judge(Canonical(tree, rank, limit, cwd, root), Canonical(tree, rank, limit, cwd, workspace),
          Abs(cwd, root), Abs(cwd, workspace), root, workspace)
  }

  method ValidateLocalPath(
    tree: Tree, ghost rank: Place -> nat, ghost limit: nat, cwd: Option<Place>, root: Raw, workspace: Raw)
    returns (verdict: Verdict)
    requires Rooted(tree) && Acyclic(tree, rank, limit) && (cwd.Some? ==> AllNames(cwd.value))
    ensures verdict == VerdictOn(tree, rank, limit, cwd, root, workspace)
  {
    var place := CanonicalizePath(tree, rank, limit, cwd, workspace);
    if place.None? {
      return Unreadable(workspace);
    }
    var base := CanonicalizePath(tree, rank, limit, cwd, root);
    if base.None? {
      return Unreadable(root);
    }
    CanonicalIsIdempotent(tree, rank, limit, cwd, workspace);
    WithinIsPrefix(place.value, base.value);
    if place == base {
      return EqualsRoot(place.value);
    }
    ProperPrefix(base.value, place.value);
    if IsWithinRoot(place.value, base.value) {
      return Accepted(place.value);
    }
    CleanIsNames(if workspace.absolute then [] else cwd.value, workspace.parts);
    WithinIsPrefix(Abs(cwd, workspace).value, Abs(cwd, root).value);
    if IsWithinRoot(Abs(cwd, workspace).value, Abs(cwd, root).value) {
      return SymlinkEscape(Abs(cwd, workspace).value, base.value);
    }
    return OutsideRoot(place.value, base.value);
  }

  // ----- identifiers -----

  predicate IsSafeChar(c: char) {
    c == '.' || c == '_' || c == '-' || 'a' <= c <= 'z' || 'A' <= c <= 'Z' || '0' <= c <= '9'
  }

  /** Digits, letters, and hyphen, full stop and underscore, by their code points. */
  lemma SafeCharacters(c: char)
    ensures IsSafeChar(c) <==>
              || 48 <= c as int <= 57 || 65 <= c as int <= 90 || 97 <= c as int <= 122
              || c as int == 45 || c as int == 46 || c as int == 95
  {
  }

  /** Safe characters are kept, all others become underscores; a blank identifier becomes a fixed word. */
  ghost predicate IsSafeFor(identifier: string, safe: string) {
    if IsBlank(identifier) then safe == "issue"
    else
      && |safe| == |identifier|
      && forall i :: 0 <= i < |safe| ==> safe[i] == if IsSafeChar(identifier[i]) then identifier[i] else '_'
  }

  /** One path segment of safe characters for every identifier. */
  method SafeIdentifier(identifier: string) returns (safe: string)
    ensures safe != "" && forall i :: 0 <= i < |safe| ==> IsSafeChar(safe[i])
    ensures IsSafeFor(identifier, safe)
  {
    if IsBlank(identifier) {
      return "issue";
    }
    safe := "";
    for i := 0 to |identifier|
      invariant |safe| == i
      invariant forall k :: 0 <= k < i ==> safe[k] == if IsSafeChar(identifier[k]) then identifier[k] else '_'
    {
      safe := safe + [if IsSafeChar(identifier[i]) then identifier[i] else '_'];
    }
    if safe == "" {
      return "issue";
    }
  }

  /** PathForIdentifier without a worker host. */
  method PathForIdentifier(
    tree: Tree, ghost rank: Place -> nat, ghost limit: nat, cwd: Option<Place>, root: Raw, identifier: string)
    returns (verdict: Verdict, safe: string)
    requires Rooted(tree) && Acyclic(tree, rank, limit) && (cwd.Some? ==> AllNames(cwd.value))
    ensures IsSafeFor(identifier, safe)
    ensures verdict == VerdictOn(tree, rank, limit, cwd, root, Raw(root.absolute, root.parts + [safe]))
    ensures var base := Canonical(tree, rank, limit, cwd, root);
            && (verdict.Accepted? ==> base.Some? && base.value < verdict.place)
            && (base.Some? && IsName(safe) && SettledAt(tree, base.value + [safe], |base.value| + 1) ==>
                  verdict == Accepted(base.value + [safe]))
            && (IsName(safe) ==> !verdict.OutsideRoot?)
  {
    safe := SafeIdentifier(identifier);
    var workspace := Raw(root.absolute, root.parts + [safe]);
    verdict := ValidateLocalPath(tree, rank, limit, cwd, root, workspace);
    if IsName(safe) && Abs(cwd, root).Some? {
      ChildOfRoot(tree, rank, limit, cwd, root, safe);
    }
  }

  lemma ChildOfRoot(tree: Tree, rank: Place -> nat, limit: nat, cwd: Option<Place>, root: Raw, name: string)
    requires Rooted(tree) && IsName(name) && Abs(cwd, root).Some?
    ensures var base, child := Canonical(tree, rank, limit, cwd, root), Raw(root.absolute, root.parts + [name]);
            && Abs(cwd, child) == Some(Abs(cwd, root).value + [name])
            && (base.Some? && SettledAt(tree, base.value + [name], |base.value| + 1) ==>
                  Canonical(tree, rank, limit, cwd, child) == Some(base.value + [name]))
  {
    var start := if root.absolute then [] else cwd.value;
    CleanAppend(start, root.parts, [name]);
    CleanOfNames(CleanFrom(start, root.parts), [name]);
    ResolveAppend(tree, rank, [], Abs(cwd, root).value, [name], limit);
    var base := Canonical(tree, rank, limit, cwd, root);
    if base.Some? && SettledAt(tree, base.value + [name], |base.value| + 1) {
      SettledStep(tree, rank, base.value, name, limit);
    }
  }

  lemma SettledStep(tree: Tree, rank: Place -> nat, base: Place, name: string, bound: nat)
    requires SettledAt(tree, base + [name], |base| + 1)
    ensures Resolve(tree, rank, base, [name], bound) == At(base + [name])
  {
    assert (base + [name])[..|base| + 1] == base + [name];
    assert [name][1..] == [];
  }
}
