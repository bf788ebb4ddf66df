/** One retention sweep of a directory tree: stale files go in a first pass, then the directories that
    were already stale and are empty, deepest first. */
module RetentionSweep {
  import opened Sorting

  type Name = string
  // The names below the swept root; the root itself, [], is not an entry.
  type Path = seq<Name>

  // What is_dir and is_file say, links followed. A DirLink is a link to a directory: rmdir refuses it. A
  // Broken link cannot be statted. Other is a socket, a device.
  datatype Kind = File | Dir | DirLink | Other | Broken

  // `target` is the entry's resolved, absolute path; `size` is what its stat says.
  datatype Node = Node(kind: Kind, mtime: int, size: nat, target: Path)

  type Tree = map<Path, Node>

  function Parent(path: Path): Path
    requires path != []
  {
    path[..|path| - 1]
  }

  /** Every entry lies in the root or in a directory of the tree. */
  predicate IsTree(nodes: Tree) {
    && (forall path | path in nodes :: path != [])
    && (forall path {:trigger HasHome(nodes, path)} | path in nodes :: HasHome(nodes, path))
  }

  predicate HasHome(nodes: Tree, path: Path) {
    |path| > 1 ==> Parent(path) in nodes && nodes[Parent(path)].kind == Dir
  }

  predicate IsEmptyDir(nodes: Tree, path: Path) {
    forall other | other in nodes :: other != [] && Parent(other) != path
  }

  /** Removing an entry refreshes the time of the directory it was in. */
  function Removed(nodes: Tree, path: Path, now: int): Tree
    requires path != []
  {
    var rest := nodes - {path};
    if Parent(path) in rest then rest[Parent(path) := rest[Parent(path)].(mtime := now)] else rest
  }

  class Volume {
    var nodes: Tree
    // The time removals are stamped with: after the sweep began, so not before its cutoff.
    const now: int

    constructor (nodes: Tree, now: int)
      ensures this.nodes == nodes && this.now == now
    {
      this.nodes, this.now := nodes, now;
    }

    method Unlink(path: Path)
      requires path in nodes && path != []
      modifies this
      ensures nodes == Removed(old(nodes), path, now)
      ensures path !in nodes && (Parent(path) in nodes ==> nodes[Parent(path)].mtime == now)
    {
      var rest := nodes - {path};
      nodes := if Parent(path) in rest then rest[Parent(path) := rest[Parent(path)].(mtime := now)] else rest;
    }

    /** rmdir refuses what is not a directory and what is not empty. */
    method Rmdir(path: Path, fails: bool) returns (ok: bool)
      requires path in nodes && IsTree(nodes)
      modifies this
      ensures ok <==> !fails && old(nodes)[path].kind == Dir && IsEmptyDir(old(nodes), path)
      ensures nodes == if ok then Removed(old(nodes), path, now) else old(nodes)
    {
      ok := !fails && nodes[path].kind == Dir && IsEmptyDir(nodes, path);
      if ok {
        Unlink(path);
      }
    }

    /** rglob: every entry once, in no promised order. */
    method Rglob() returns (listed: seq<Path>)
      ensures NoRepeats(listed)
      ensures forall path :: path in listed <==> path in nodes
    {
      listed := [];
      var rest := nodes.Keys;
      while rest != {}
        invariant NoRepeats(listed)
        invariant forall path :: path in nodes.Keys <==> path in listed || path in rest
        invariant forall path | path in listed :: path !in rest
        decreases rest
      {
        var path :| path in rest;
        listed, rest := listed + [path], rest - {path};
      }
    }
  }

  // ---- What may go --------------------------------------------------------------------------------------

  datatype Policy = Policy(cutoff: int, protectedRoots: seq<Path>)

  // Where the file system raises: listing an entry, judging it (resolving or statting it), unlinking it,
  // and in the second pass listing, resolving and removing a directory.
  datatype Faults = Faults(
    listing: set<Path>, judging: set<Path>, unlinking: set<Path>,
    relisting: set<Path>, resolving: set<Path>, removing: set<Path>)

  function Faulty(faults: Faults): set<Path> {
    faults.listing + faults.judging + faults.unlinking + faults.relisting + faults.resolving + faults.removing
  }

  datatype Stats = Stats(
    deletedFiles: nat, deletedDirs: nat, bytesReclaimed: nat, skippedRecent: nat, skippedProtected: nat, errors: nat)

  const NO_STATS := Stats(0, 0, 0, 0, 0, 0)

  predicate Protected(policy: Policy, node: Node) {
    exists root | root in policy.protectedRoots :: root <= node.target
  }

  function Last(path: Path): Name
    requires path != []
  {
    path[|path| - 1]
  }

  /** Old enough, outside every protected root, and not the marker that keeps a directory. */
  predicate Expendable(policy: Policy, path: Path, node: Node) {
    path != [] && Last(path) != ".gitkeep" && !Protected(policy, node) && node.mtime < policy.cutoff
  }

  /** After: some entries gone, and nothing else changed but directories' times. */
  predicate OnlyRemoved(before: Tree, after: Tree) {
    && after.Keys <= before.Keys
    && forall path | path in after ::
         && after[path] == before[path].(mtime := after[path].mtime)
         && (after[path].mtime != before[path].mtime ==> before[path].kind == Dir)
  }

  // ---- What is counted ------------------------------------------------------------------------------------

  function Of(nodes: Tree, kind: Kind): set<Path> {
    set path | path in nodes && nodes[path].kind == kind
  }

  function Sizes(nodes: Tree): map<Path, nat> {
    map path | path in nodes && nodes[path].kind == File :: nodes[path].size
  }

  ghost function Total(sizes: map<Path, nat>): nat
    decreases |sizes|
  {
    if sizes == map[] then 0
    else
      var path :| path in sizes;
      sizes[path] + Total(sizes - {path})
  }

  lemma {:induction false} TotalWithout(sizes: map<Path, nat>, path: Path)
    requires path in sizes
    ensures Total(sizes) == sizes[path] + Total(sizes - {path})
    decreases |sizes|
  {
    var picked :| picked in sizes && Total(sizes) == sizes[picked] + Total(sizes - {picked});
    if picked == path {
    } else {
      TotalWithout(sizes - {picked}, path);
      TotalWithout(sizes - {path}, picked);
      assert sizes - {picked} - {path} == sizes - {path} - {picked};
    }
  }

  /** The counters are exactly what left the tree. */
  ghost predicate Accounted(before: Tree, after: Tree, stats: Stats) {
    && |Of(before, File)| == |Of(after, File)| + stats.deletedFiles
    && |Of(before, Dir)| == |Of(after, Dir)| + stats.deletedDirs
    && Total(Sizes(before)) == Total(Sizes(after)) + stats.bytesReclaimed
  }

  lemma CountersOnly(before: Tree, after: Tree, stats: Stats, stats': Stats)
    requires Accounted(before, after, stats)
    requires stats' == stats.(skippedRecent := stats'.skippedRecent, skippedProtected := stats'.skippedProtected, errors := stats'.errors)
    ensures Accounted(before, after, stats')
  {
  }

  lemma FileRemovalAccounted(before: Tree, nodes: Tree, path: Path, now: int, stats: Stats)
    requires IsTree(nodes) && path in nodes && nodes[path].kind == File && Accounted(before, nodes, stats)
    ensures
      Accounted(before, Removed(nodes, path, now),
                stats.(deletedFiles := stats.deletedFiles + 1, bytesReclaimed := stats.bytesReclaimed + nodes[path].size))
  {
    var after := Removed(nodes, path, now);
    assert Of(after, File) == Of(nodes, File) - {path};
    assert Of(after, Dir) == Of(nodes, Dir);
    TotalWithout(Sizes(nodes), path);
    assert Sizes(after) == Sizes(nodes) - {path};
  }

  lemma DirRemovalAccounted(before: Tree, nodes: Tree, path: Path, now: int, stats: Stats)
    requires IsTree(nodes) && path in nodes && nodes[path].kind == Dir && Accounted(before, nodes, stats)
    ensures Accounted(before, Removed(nodes, path, now), stats.(deletedDirs := stats.deletedDirs + 1))
  {
    DirRemovalMeasures(nodes, path, now);
  }

  lemma DirRemovalMeasures(nodes: Tree, path: Path, now: int)
    requires path in nodes && path != [] && nodes[path].kind == Dir
    ensures Of(Removed(nodes, path, now), File) == Of(nodes, File)
    ensures Of(Removed(nodes, path, now), Dir) == Of(nodes, Dir) - {path}
    ensures Sizes(Removed(nodes, path, now)) == Sizes(nodes)
  {
  }

  /** Removing a file, or an empty directory, leaves a tree. */
  lemma RemovalKeepsTree(before: Tree, nodes: Tree, path: Path, now: int)
    requires IsTree(nodes) && OnlyRemoved(before, nodes) && path in nodes
    requires nodes[path].kind == File || IsEmptyDir(nodes, path)
    ensures path != [] && IsTree(Removed(nodes, path, now)) && OnlyRemoved(before, Removed(nodes, path, now))
    ensures Removed(nodes, path, now).Keys == nodes.Keys - {path}
    ensures forall other | other in nodes && other != path ::
              nodes[other].kind == File ==> Removed(nodes, path, now)[other] == nodes[other]
  {
    var after := Removed(nodes, path, now);
    assert HasHome(nodes, path);
    forall other | other in after ensures HasHome(after, other) {
      assert HasHome(nodes, other);
    }
  }

  // ---- The first pass ---------------------------------------------------------------------------------------

  datatype Verdict = Raises | Skips | SkipsProtected | SkipsRecent | MarksStale | Deletes

  predicate IsFirstRoot(target: Path, roots: seq<Path>, root: Path) {
    exists k | 0 <= k < |roots| :: roots[k] == root && root <= target && forall j | 0 <= j < k :: !(roots[j] <= target)
  }

  /** When each verdict is given. */
  predicate IsVerdict(policy: Policy, faults: Faults, path: Path, node: Node, verdict: Verdict) {
    var judged := path !in faults.judging;
    var mayGo := judged && !Protected(policy, node) && node.mtime < policy.cutoff;
    && (verdict == SkipsProtected <==> judged && IsFirstRoot(node.target, policy.protectedRoots, node.target))
    && (verdict == SkipsRecent <==> judged && !Protected(policy, node) && node.kind != Broken && node.mtime >= policy.cutoff)
    && (verdict == MarksStale <==> mayGo && node.kind in {Dir, DirLink})
    && (verdict == Deletes <==> mayGo && node.kind == File && path !in faults.unlinking)
    && (verdict == Raises <==> !judged || (mayGo && node.kind == File && path in faults.unlinking))
  }

  /** What each verdict counts. */
  function Counting(stats: Stats, verdict: Verdict, node: Node): Stats {
    match verdict
    case SkipsProtected => stats.(skippedProtected := stats.skippedProtected + 1)
    case SkipsRecent => stats.(skippedRecent := stats.skippedRecent + 1)
    case Deletes => stats.(deletedFiles := stats.deletedFiles + 1, bytesReclaimed := stats.bytesReclaimed + node.size)
    case _ => stats
  }

  lemma FirstRootIsFound(target: Path, roots: seq<Path>, root: Path)
    requires IsFirstRoot(target, roots, root)
    ensures root in roots && root <= target
    ensures IsFirstRoot(target, roots, target) <==> root == target
  {
  }

  /** The protected root the entry is found under: the first that holds it. */
  method ProtectedMatch(target: Path, roots: seq<Path>) returns (found: bool, root: Path)
    ensures found <==> exists r | r in roots :: r <= target
    ensures found ==> IsFirstRoot(target, roots, root)
    ensures !found ==> forall r :: !IsFirstRoot(target, roots, r)
  {
    for i := 0 to |roots|
      invariant forall k | 0 <= k < i :: !(roots[k] <= target)
    {
      if roots[i] <= target {
        assert roots[i] in roots && IsFirstRoot(target, roots, roots[i]);
        return true, roots[i];
      }
    }
    forall r ensures !IsFirstRoot(target, roots, r) {
    }
    return false, [];
  }

  /** The errors counted are the entries at fault that were met, each once. */
  predicate Counted(stats: Stats, faults: Faults, seen: set<Path>) {
    stats.errors == |seen| && seen <= Faulty(faults)
  }

  lemma CountedStill(stats: Stats, stats': Stats, faults: Faults, seen: set<Path>)
    requires Counted(stats, faults, seen) && stats'.errors == stats.errors
    ensures Counted(stats', faults, seen)
  {
  }

  /** `seen` is a set, so an entry that fails again adds nothing. */
  method EntryError(stats: Stats, faults: Faults, path: Path, seen: set<Path>) returns (stats': Stats, seen': set<Path>)
    requires Counted(stats, faults, seen) && path in Faulty(faults)
    ensures seen' == seen + {path} && Counted(stats', faults, seen') && stats' == stats.(errors := |seen'|)
  {
    stats', seen' := stats, seen;
    if path !in seen {
      seen' := seen + {path};
      stats' := stats.(errors := stats.errors + 1);
    } else {
      assert seen + {path} == seen;
    }
  }

  /** The verdict on one entry, carried out and counted. */
  method SweepEntry(volume: Volume, policy: Policy, faults: Faults, path: Path, stats: Stats)
    returns (verdict: Verdict, stats': Stats)
    requires path in volume.nodes && path != []
    modifies volume
    ensures IsVerdict(policy, faults, path, old(volume.nodes)[path], verdict)
    ensures stats' == Counting(stats, verdict, old(volume.nodes)[path])
    ensures volume.nodes == if verdict == Deletes then Removed(old(volume.nodes), path, volume.now) else old(volume.nodes)
  {
    var node := volume.nodes[path];
    stats' := stats;
    if path in faults.judging {
      return Raises, stats';
    }
    var found, root := ProtectedMatch(node.target, policy.protectedRoots);
    if found {
      FirstRootIsFound(node.target, policy.protectedRoots, root);
      if node.target == root {
        stats' := stats.(skippedProtected := stats.skippedProtected + 1);
        return SkipsProtected, stats';
      }
      return Skips, stats';
    }
    assert !IsFirstRoot(node.target, policy.protectedRoots, node.target);
    if node.kind == Broken {
      return Skips, stats';
    }
    if node.mtime >= policy.cutoff {
      stats' := stats.(skippedRecent := stats.skippedRecent + 1);
      return SkipsRecent, stats';
    }
    if node.kind == Dir || node.kind == DirLink {
      return MarksStale, stats';
    }
    if node.kind == File {
      if path in faults.unlinking {
        return Raises, stats';
      }
      volume.Unlink(path);
      stats' := stats.(deletedFiles := stats.deletedFiles + 1, bytesReclaimed := stats.bytesReclaimed + node.size);
      return Deletes, stats';
    }
    return Skips, stats';
  }

  // An entry as it was listed: whether it is a file is read then.
  datatype Entry = Entry(isFile: bool, path: Path)

  /** Everything that is not a file first, then files; each by depth. */
  predicate EntryBefore(a: Entry, b: Entry) {
    if a.isFile == b.isFile then |a.path| <= |b.path| else b.isFile
  }

  predicate Deeper(a: Path, b: Path) {
    |a| >= |b|
  }

  /** What the first pass leaves. */
  ghost predicate FirstPassed(before: Tree, after: Tree, policy: Policy, staleDirs: set<Path>, stats: Stats) {
    && IsTree(after) && OnlyRemoved(before, after)
    && (forall path | path in before && path !in after :: before[path].kind == File && Expendable(policy, path, before[path]))
    && (forall path | path in staleDirs ::
          path in after && before[path].kind in {Dir, DirLink} && Expendable(policy, path, before[path]))
    && Accounted(before, after, stats)
  }

  /** The entry has been dealt with, if nothing stood in the way. */
  predicate DealtWith(before: Tree, after: Tree, policy: Policy, staleDirs: set<Path>, path: Path) {
    path in before && Expendable(policy, path, before[path]) ==>
      && (before[path].kind == File ==> path !in after)
      && (before[path].kind == Dir ==> path in staleDirs)
  }

  /** Every other entry is still there; files are untouched. */
  predicate OthersKept(nodes: Tree, after: Tree, path: Path) {
    && after.Keys <= nodes.Keys
    && forall other | other in nodes && other != path ::
         other in after && (nodes[other].kind == File ==> after[other] == nodes[other])
  }

  lemma VerdictMeans(policy: Policy, faults: Faults, path: Path, node: Node, verdict: Verdict, stats: Stats)
    requires IsVerdict(policy, faults, path, node, verdict) && path != []
    ensures Counting(stats, verdict, node).errors == stats.errors
    ensures verdict == Raises ==> path in Faulty(faults)
    ensures verdict in {Deletes, MarksStale} && Last(path) != ".gitkeep" ==> Expendable(policy, path, node)
    ensures verdict == MarksStale ==> node.kind in {Dir, DirLink}
    ensures verdict == Deletes ==>
              && node.kind == File
              && Counting(stats, verdict, node)
                 == stats.(deletedFiles := stats.deletedFiles + 1, bytesReclaimed := stats.bytesReclaimed + node.size)
    ensures
      var counted := Counting(stats, verdict, node);
      verdict != Deletes ==>
        counted == stats.(skippedRecent := counted.skippedRecent, skippedProtected := counted.skippedProtected)
    ensures path !in Faulty(faults) && Expendable(policy, path, node) ==>
              && (node.kind == File ==> verdict == Deletes)
              && (node.kind == Dir ==> verdict == MarksStale)
  {
    hide IsFirstRoot, Protected;
  }

  lemma Untouched(before: Tree, nodes: Tree, policy: Policy, staleDirs: set<Path>, path: Path)
    requires path in before && path != []
    ensures OthersKept(nodes, nodes, path)
    ensures Last(path) == ".gitkeep" ==> DealtWith(before, nodes, policy, staleDirs, path)
    ensures !Expendable(policy, path, before[path]) ==> DealtWith(before, nodes, policy, staleDirs, path)
    ensures before[path].kind !in {File, Dir} ==> DealtWith(before, nodes, policy, staleDirs, path)
    ensures before[path].kind != File ==> DealtWith(before, nodes, policy, staleDirs + {path}, path)
  {
  }

  lemma KeptInPass(before: Tree, nodes: Tree, policy: Policy, staleDirs: set<Path>, stats: Stats, path: Path,
                   staleDirs': set<Path>, stats': Stats)
    requires FirstPassed(before, nodes, policy, staleDirs, stats) && path in nodes
    requires staleDirs' == staleDirs
             || (staleDirs' == staleDirs + {path} && before[path].kind in {Dir, DirLink} && Expendable(policy, path, before[path]))
    requires stats' == stats.(skippedRecent := stats'.skippedRecent, skippedProtected := stats'.skippedProtected, errors := stats'.errors)
    ensures FirstPassed(before, nodes, policy, staleDirs', stats')
  {
  }

  lemma DeletedInPass(before: Tree, nodes: Tree, policy: Policy, staleDirs: set<Path>, stats: Stats, path: Path, now: int)
    requires FirstPassed(before, nodes, policy, staleDirs, stats)
    requires path in nodes && nodes[path] == before[path] && path !in staleDirs
    requires before[path].kind == File && Expendable(policy, path, before[path])
    ensures FirstPassed(before, Removed(nodes, path, now), policy, staleDirs,
                        stats.(deletedFiles := stats.deletedFiles + 1, bytesReclaimed := stats.bytesReclaimed + nodes[path].size))
    ensures OthersKept(nodes, Removed(nodes, path, now), path)
    ensures DealtWith(before, Removed(nodes, path, now), policy, staleDirs, path)
  {
    hide Removed, Accounted, IsTree, OnlyRemoved, Expendable;
    RemovalKeepsTree(before, nodes, path, now);
    FileRemovalAccounted(before, nodes, path, now, stats);
  }

  /** One entry of the first pass, with its name looked at and an error counted once. */
  method PassOver(volume: Volume, policy: Policy, faults: Faults, path: Path, staleDirs: set<Path>, stats: Stats,
                  failed: set<Path>, ghost before: Tree)
    returns (staleDirs': set<Path>, stats': Stats, failed': set<Path>)
    requires path in volume.nodes && path in before && volume.nodes[path] == before[path] && path != []
    requires FirstPassed(before, volume.nodes, policy, staleDirs, stats)
    requires path !in staleDirs && Counted(stats, faults, failed)
    modifies volume
    ensures FirstPassed(before, volume.nodes, policy, staleDirs', stats') && staleDirs <= staleDirs'
    ensures Counted(stats', faults, failed')
    ensures before[path].kind != File ==> volume.nodes == old(volume.nodes)
    ensures OthersKept(old(volume.nodes), volume.nodes, path)
    ensures staleDirs' <= staleDirs + {path}
    ensures Faulty(faults) == {} ==> DealtWith(before, volume.nodes, policy, staleDirs', path)
  {
    hide *;
    Untouched(before, volume.nodes, policy, staleDirs, path);
    staleDirs', stats', failed' := staleDirs, stats, failed;
    if Last(path) == ".gitkeep" {
      return;
    }
    var verdict: Verdict;
    verdict, stats' := SweepEntry(volume, policy, faults, path, stats);
    VerdictMeans(policy, faults, path, before[path], verdict, stats);
    CountedStill(stats, stats', faults, failed);
    if verdict == MarksStale {
      staleDirs' := staleDirs + {path};
    } else if verdict == Raises {
      stats', failed' := EntryError(stats', faults, path, failed);
    }
    if verdict != Deletes {
      KeptInPass(before, volume.nodes, policy, staleDirs, stats, path, staleDirs', stats');
    } else {
      DeletedInPass(before, old(volume.nodes), policy, staleDirs, stats, path, volume.now);
    }
  }

  /** As listed and sorted: every entry there once, with its kind, and no entry that is not a file after a file. */
  predicate Ready(nodes: Tree, entries: seq<Entry>) {
    && (forall e | e in entries :: e.path in nodes && e.isFile == (nodes[e.path].kind == File))
    && (forall k, j | 0 <= k < j < |entries| :: entries[k].path != entries[j].path && (entries[k].isFile ==> entries[j].isFile))
  }

  method FirstPass(volume: Volume, policy: Policy, faults: Faults, entries: seq<Entry>, stopAt: seq<nat>, checked: nat,
                   listed: Stats, failed: set<Path>)
    returns (staleDirs: set<Path>, stats: Stats, aborted: bool, checks: nat, failed': set<Path>)
    requires IsTree(volume.nodes) && Ready(volume.nodes, entries)
    requires listed == NO_STATS.(errors := |failed|) && Counted(listed, faults, failed)
    modifies volume
    ensures FirstPassed(old(volume.nodes), volume.nodes, policy, staleDirs, stats)
    ensures Counted(stats, faults, failed')
    ensures !aborted && Faulty(faults) == {} ==> Behind(old(volume.nodes), volume.nodes, policy, staleDirs, entries, |entries|)
    ensures stopAt == [] ==> !aborted
  {
    ghost var before := volume.nodes;
    NothingPassed(before, policy, listed);
    StartsAhead(before, entries);
    hide *;
    staleDirs, stats, aborted, checks, failed' := {}, listed, false, checked, failed;
    for i := 0 to |entries|
      invariant FirstPassed(before, volume.nodes, policy, staleDirs, stats)
      // No file has been removed while an entry that is not one is still to be judged: its time is its own.
      invariant NoFileYet(entries, i) ==> volume.nodes == before
      invariant Ahead(before, volume.nodes, staleDirs, entries, i)
      invariant Counted(stats, faults, failed')
      invariant Faulty(faults) == {} ==> Behind(before, volume.nodes, policy, staleDirs, entries, i)
    {
      if stopAt != [] && checks >= stopAt[0] {
        aborted := true;
        return;
      }
      checks := checks + 1;
      ghost var nodes, stale := volume.nodes, staleDirs;
      NextUp(before, nodes, stale, entries, i);
      staleDirs, stats, failed' := PassOver(volume, policy, faults, entries[i].path, staleDirs, stats, failed', before);
      StepsOn(before, nodes, volume.nodes, stale, staleDirs, entries, i);
      if Faulty(faults) == {} {
        StepsBehind(before, nodes, volume.nodes, policy, stale, staleDirs, entries, i);
      }
    }
  }

  lemma NothingPassed(nodes: Tree, policy: Policy, listed: Stats)
    requires IsTree(nodes) && listed == NO_STATS.(errors := listed.errors)
    ensures FirstPassed(nodes, nodes, policy, {}, listed)
  {
  }

  predicate NoFileYet(entries: seq<Entry>, i: nat) {
    i <= |entries| && forall k | 0 <= k < i :: !entries[k].isFile
  }

  lemma StartsAhead(before: Tree, entries: seq<Entry>)
    requires Ready(before, entries)
    ensures Ahead(before, before, {}, entries, 0)
    ensures forall nodes, policy, staleDirs :: Behind(before, nodes, policy, staleDirs, entries, 0)
  {
  }

  /** The entry whose turn it is is as it was before the sweep. */
  lemma NextUp(before: Tree, nodes: Tree, staleDirs: set<Path>, entries: seq<Entry>, i: nat)
    requires i < |entries| && Ready(before, entries) && Ahead(before, nodes, staleDirs, entries, i)
    requires NoFileYet(entries, i) ==> nodes == before
    ensures
      var path := entries[i].path;
      path in nodes && path in before && nodes[path] == before[path] && path !in staleDirs
  {
  }

  /** The entries still to come are there, untouched if they are files, and not marked. */
  predicate Ahead(before: Tree, nodes: Tree, staleDirs: set<Path>, entries: seq<Entry>, i: nat) {
    forall k | i <= k < |entries| ::
      && entries[k].path in nodes && entries[k].path in before && entries[k].path !in staleDirs
      && (entries[k].isFile ==> nodes[entries[k].path].kind == File && nodes[entries[k].path] == before[entries[k].path])
  }

  lemma StepsOn(before: Tree, nodes: Tree, after: Tree, stale: set<Path>, stale': set<Path>, entries: seq<Entry>, i: nat)
    requires i < |entries| && Ready(before, entries) && Ahead(before, nodes, stale, entries, i)
    requires NoFileYet(entries, i) ==> nodes == before
    requires entries[i].path in before && (before[entries[i].path].kind != File ==> after == nodes)
    requires stale' <= stale + {entries[i].path} && OthersKept(nodes, after, entries[i].path)
    ensures Ahead(before, after, stale', entries, i + 1)
    ensures NoFileYet(entries, i + 1) ==> after == before
  {
  }

  /** The entries passed have been dealt with. */
  predicate Behind(before: Tree, nodes: Tree, policy: Policy, staleDirs: set<Path>, entries: seq<Entry>, i: nat) {
    i <= |entries| && forall k | 0 <= k < i :: DealtWith(before, nodes, policy, staleDirs, entries[k].path)
  }

  lemma StepsBehind(before: Tree, nodes: Tree, after: Tree, policy: Policy, stale: set<Path>, stale': set<Path>,
                    entries: seq<Entry>, i: nat)
    requires i < |entries| && Behind(before, nodes, policy, stale, entries, i)
    requires DealtWith(before, after, policy, stale', entries[i].path)
    requires OthersKept(nodes, after, entries[i].path) && stale <= stale'
    ensures Behind(before, after, policy, stale', entries, i + 1)
  {
  }

  // ---- The two listings ---------------------------------------------------------------------------------

  /** Every entry with whether it is a file, between abort checks; one that cannot be statted is counted and left. */
  method ListEntries(volume: Volume, faults: Faults, stopAt: seq<nat>)
    returns (entries: seq<Entry>, stats: Stats, aborted: bool, checks: nat, failed: set<Path>)
    ensures NoRepeats(entries) && Listed(volume.nodes, entries)
    ensures !aborted && Faulty(faults) == {} ==> ListedAll(volume.nodes, entries)
    ensures stats == NO_STATS.(errors := |failed|) && Counted(stats, faults, failed)
    ensures stopAt == [] ==> !aborted
  {
    var found := volume.Rglob();
    entries, stats, aborted, checks, failed := [], NO_STATS, false, 0, {};
    for i := 0 to |found|
      invariant NoRepeats(entries) && Listed(volume.nodes, entries)
      invariant forall e | e in entries :: e.path in found[..i]
      invariant stats == NO_STATS.(errors := |failed|) && failed <= Faulty(faults)
      invariant Faulty(faults) == {} ==> EachListed(found, entries, i)
    {
      if stopAt != [] && checks >= stopAt[0] {
        aborted := true;
        return;
      }
      checks := checks + 1;
      if found[i] in faults.listing {
        stats, failed := EntryError(stats, faults, found[i], failed);
      } else {
        ListsOne(volume.nodes, found, entries, i);
        entries := entries + [Entry(volume.nodes[found[i]].kind == File, found[i])];
      }
    }
  }

  predicate Listed(nodes: Tree, entries: seq<Entry>) {
    forall e | e in entries :: e.path in nodes && e.isFile == (nodes[e.path].kind == File)
  }

  predicate ListedAll(nodes: Tree, entries: seq<Entry>) {
    forall path | path in nodes :: Entry(nodes[path].kind == File, path) in entries
  }

  predicate EachListed(found: seq<Path>, entries: seq<Entry>, i: nat) {
    i <= |found| && forall k | 0 <= k < i :: Entry(true, found[k]) in entries || Entry(false, found[k]) in entries
  }

  lemma ListsOne(nodes: Tree, found: seq<Path>, entries: seq<Entry>, i: nat)
    requires i < |found| && found[i] in nodes && NoRepeats(found)
    requires NoRepeats(entries) && Listed(nodes, entries) && forall e | e in entries :: e.path in found[..i]
    ensures
      var more := entries + [Entry(nodes[found[i]].kind == File, found[i])];
      && NoRepeats(more) && Listed(nodes, more)
      && (forall e | e in more :: e.path in found[..i + 1])
      && (EachListed(found, entries, i) ==> EachListed(found, more, i + 1))
  {
  }

  /** The directories left, links to directories among them. */
  method ListDirectories(volume: Volume, faults: Faults, stopAt: seq<nat>, checked: nat, passed: Stats, failed: set<Path>)
    returns (directories: seq<Path>, stats: Stats, aborted: bool, checks: nat, failed': set<Path>)
    requires Counted(passed, faults, failed)
    ensures NoRepeats(directories)
    ensures forall path | path in directories :: path in volume.nodes
    ensures !aborted && Faulty(faults) == {} ==>
              forall path | path in volume.nodes && volume.nodes[path].kind == Dir :: path in directories
    ensures stats == passed.(errors := |failed'|) && Counted(stats, faults, failed')
    ensures stopAt == [] ==> !aborted
  {
    var found := volume.Rglob();
    directories, stats, aborted, checks, failed' := [], passed, false, checked, failed;
    for i := 0 to |found|
      invariant NoRepeats(directories)
      invariant forall path | path in directories :: path in found[..i] && path in volume.nodes
      invariant stats == passed.(errors := |failed'|) && failed' <= Faulty(faults)
      invariant Faulty(faults) == {} ==> forall k | 0 <= k < i && volume.nodes[found[k]].kind == Dir :: found[k] in directories
    {
      if stopAt != [] && checks >= stopAt[0] {
        aborted := true;
        return;
      }
      checks := checks + 1;
      assert found[i] !in found[..i] && found[i] in found;
      if found[i] in faults.relisting {
        stats, failed' := EntryError(stats, faults, found[i], failed');
      } else if volume.nodes[found[i]].kind == Dir || volume.nodes[found[i]].kind == DirLink {
        directories := directories + [found[i]];
      }
    }
  }

  // ---- The second pass ------------------------------------------------------------------------------------

  /** What the sweep may leave at any point of it: only expendable files and directories are gone, and no more
      directories than the first pass marked. */
  ghost predicate Swept(before: Tree, after: Tree, policy: Policy, stats: Stats) {
    && IsTree(after) && OnlyRemoved(before, after)
    && (forall path | path in before && path !in after ::
          before[path].kind in {File, Dir} && Expendable(policy, path, before[path]))
    && Accounted(before, after, stats)
  }

  /** The entry and everything below it are files and directories that may go. */
  predicate Doomed(before: Tree, policy: Policy, path: Path) {
    forall other | other in before && path <= other ::
      before[other].kind in {File, Dir} && Expendable(policy, other, before[other])
  }

  /** Doomed files are gone and doomed directories are marked; of the directories listed, the first i have
      been judged, and those of them that were doomed are gone. */
  predicate Cleared(before: Tree, nodes: Tree, policy: Policy, staleDirs: set<Path>, directories: seq<Path>, i: nat) {
    && i <= |directories|
    && (forall path | path in nodes && Doomed(before, policy, path) ::
          nodes[path].kind == Dir && path in staleDirs && path in directories[i..])
  }

  predicate DeepestFirst(directories: seq<Path>) {
    forall k, j | 0 <= k < j < |directories| :: directories[k] != directories[j] && |directories[k]| >= |directories[j]|
  }

  /** A directory judged after everything deeper than it is empty if it was doomed. */
  lemma DoomedIsEmpty(before: Tree, nodes: Tree, policy: Policy, staleDirs: set<Path>, directories: seq<Path>, i: nat)
    requires i < |directories| && DeepestFirst(directories) && Cleared(before, nodes, policy, staleDirs, directories, i)
    requires IsTree(nodes) && Doomed(before, policy, directories[i])
    ensures IsEmptyDir(nodes, directories[i])
  {
  }

  /** When a directory goes in the second pass. */
  predicate Goes(policy: Policy, faults: Faults, staleDirs: set<Path>, nodes: Tree, path: Path) {
    && path in nodes && path in staleDirs && path !in faults.resolving + faults.removing
    && !Protected(policy, nodes[path]) && nodes[path].kind == Dir && IsEmptyDir(nodes, path)
  }

  /** One directory of the second pass. */
  method RemoveIfStale(volume: Volume, policy: Policy, faults: Faults, path: Path, staleDirs: set<Path>, stats: Stats,
                       failed: set<Path>, ghost before: Tree)
    returns (stats': Stats, failed': set<Path>)
    requires path in volume.nodes && path in before && Swept(before, volume.nodes, policy, stats)
    requires path in staleDirs ==> Expendable(policy, path, before[path])
    requires Counted(stats, faults, failed)
    modifies volume
    ensures Swept(before, volume.nodes, policy, stats')
    ensures || volume.nodes.Keys == old(volume.nodes).Keys
            || (path in staleDirs && volume.nodes.Keys == old(volume.nodes).Keys - {path})
    ensures path !in volume.nodes <==> Goes(policy, faults, staleDirs, old(volume.nodes), path)
    ensures IsTree(old(volume.nodes)) && OnlyRemoved(old(volume.nodes), volume.nodes)
    ensures Counted(stats', faults, failed')
    ensures Faulty(faults) == {} && path in staleDirs ==>
              (old(volume.nodes)[path].kind == Dir && IsEmptyDir(old(volume.nodes), path) ==> path !in volume.nodes)
  {
    hide Accounted;
    stats', failed' := stats, failed;
    if path !in staleDirs {
      return;
    }
    if path in faults.resolving {
      stats', failed' := EntryError(stats, faults, path, failed);
      CountersOnly(before, volume.nodes, stats, stats');
      return;
    }
    var found, root := ProtectedMatch(volume.nodes[path].target, policy.protectedRoots);
    if found {
      return;
    }
    var ok := volume.Rmdir(path, path in faults.removing);
    if ok {
      RemovalKeepsTree(before, old(volume.nodes), path, volume.now);
      DirRemovalAccounted(before, old(volume.nodes), path, volume.now, stats);
      stats' := stats.(deletedDirs := stats.deletedDirs + 1);
    }
  }

  /** What is gone since was marked in the first pass. */
  predicate MarkedGone(nodes: Tree, after: Tree, staleDirs: set<Path>) {
    && after.Keys <= nodes.Keys
    && forall path | path in nodes && path !in after :: path in staleDirs
  }

  predicate StillThere(nodes: Tree, directories: seq<Path>, i: nat) {
    forall k | i <= k < |directories| :: directories[k] in nodes
  }

  predicate MayAllGo(before: Tree, policy: Policy, staleDirs: set<Path>) {
    forall path | path in staleDirs :: path in before && Expendable(policy, path, before[path])
  }

  method SecondPass(volume: Volume, policy: Policy, faults: Faults, staleDirs: set<Path>, directories: seq<Path>,
                    stopAt: seq<nat>, checked: nat, passed: Stats, failed: set<Path>, ghost before: Tree)
    returns (stats: Stats, aborted: bool, failed': set<Path>)
    requires Swept(before, volume.nodes, policy, passed) && DeepestFirst(directories)
    requires StillThere(volume.nodes, directories, 0) && MayAllGo(before, policy, staleDirs)
    requires Counted(passed, faults, failed)
    requires Faulty(faults) == {} ==> Cleared(before, volume.nodes, policy, staleDirs, directories, 0)
    modifies volume
    ensures Swept(before, volume.nodes, policy, stats) && MarkedGone(old(volume.nodes), volume.nodes, staleDirs)
    ensures Counted(stats, faults, failed')
    ensures !aborted && Faulty(faults) == {} ==> Cleared(before, volume.nodes, policy, staleDirs, directories, |directories|)
    ensures stopAt == [] ==> !aborted
  {
    ghost var start := volume.nodes;
    assert MarkedGone(start, start, staleDirs);
    hide *;
    stats, aborted, failed' := passed, false, failed;
    var checks := checked;
    for i := 0 to |directories|
      invariant Swept(before, volume.nodes, policy, stats)
      invariant MarkedGone(start, volume.nodes, staleDirs)
      invariant StillThere(volume.nodes, directories, i)
      invariant Counted(stats, faults, failed')
      invariant Faulty(faults) == {} ==> Cleared(before, volume.nodes, policy, staleDirs, directories, i)
    {
      if stopAt != [] && checks >= stopAt[0] {
        aborted := true;
        return;
      }
      checks := checks + 1;
      ghost var nodes := volume.nodes;
      NextDirectory(before, nodes, policy, stats, staleDirs, directories, i);
      stats, failed' := RemoveIfStale(volume, policy, faults, directories[i], staleDirs, stats, failed', before);
      GoneOn(start, nodes, volume.nodes, staleDirs, directories, i);
      if Faulty(faults) == {} {
        ClearedOn(before, nodes, volume.nodes, policy, staleDirs, directories, i);
      }
    }
  }

  lemma NextDirectory(before: Tree, nodes: Tree, policy: Policy, stats: Stats, staleDirs: set<Path>, directories: seq<Path>, i: nat)
    requires i < |directories| && Swept(before, nodes, policy, stats)
    requires StillThere(nodes, directories, i) && MayAllGo(before, policy, staleDirs)
    ensures directories[i] in nodes && directories[i] in before
    ensures directories[i] in staleDirs ==> Expendable(policy, directories[i], before[directories[i]])
  {
  }

  lemma GoneOn(start: Tree, nodes: Tree, after: Tree, staleDirs: set<Path>, directories: seq<Path>, i: nat)
    requires i < |directories| && DeepestFirst(directories)
    requires StillThere(nodes, directories, i) && MarkedGone(start, nodes, staleDirs)
    requires after.Keys == nodes.Keys || (directories[i] in staleDirs && after.Keys == nodes.Keys - {directories[i]})
    ensures StillThere(after, directories, i + 1) && MarkedGone(start, after, staleDirs)
  {
  }

  lemma ClearedOn(before: Tree, nodes: Tree, after: Tree, policy: Policy, staleDirs: set<Path>, directories: seq<Path>, i: nat)
    requires i < |directories| && DeepestFirst(directories) && IsTree(nodes) && directories[i] in nodes
    requires Cleared(before, nodes, policy, staleDirs, directories, i)
    requires OnlyRemoved(nodes, after)
    requires directories[i] in staleDirs && nodes[directories[i]].kind == Dir && IsEmptyDir(nodes, directories[i]) ==>
               directories[i] !in after
    ensures Cleared(before, after, policy, staleDirs, directories, i + 1)
  {
  }

  // ---- The whole sweep --------------------------------------------------------------------------------------

  lemma OrdersSort()
    ensures IsOrder(EntryBefore) && IsOrder(Deeper)
  {
  }

  method SortEntries(nodes: Tree, listed: seq<Entry>) returns (entries: seq<Entry>)
    requires NoRepeats(listed) && Listed(nodes, listed)
    ensures Ready(nodes, entries)
    ensures forall e :: e in listed <==> e in entries
  {
    OrdersSort();
    SortSorts(EntryBefore, listed);
    SortKeepsApart(EntryBefore, listed);
    entries := Sort(EntryBefore, listed);
    forall k, j | 0 <= k < j < |entries|
      ensures entries[k].path != entries[j].path && (entries[k].isFile ==> entries[j].isFile)
    {
      assert entries[k] in listed && entries[j] in listed;
    }
  }

  method SortDirectories(listed: seq<Path>) returns (directories: seq<Path>)
    requires NoRepeats(listed)
    ensures DeepestFirst(directories)
    ensures forall path :: path in listed <==> path in directories
  {
    OrdersSort();
    SortSorts(Deeper, listed);
    SortKeepsApart(Deeper, listed);
    directories := Sort(Deeper, listed);
  }

  lemma SweptByTheFirstPass(before: Tree, nodes: Tree, policy: Policy, staleDirs: set<Path>, stats: Stats)
    requires FirstPassed(before, nodes, policy, staleDirs, stats)
    ensures Swept(before, nodes, policy, stats) && MayAllGo(before, policy, staleDirs)
  {
  }

  lemma ReadyToClear(before: Tree, nodes: Tree, policy: Policy, staleDirs: set<Path>, entries: seq<Entry>, directories: seq<Path>)
    requires OnlyRemoved(before, nodes) && ListedAll(before, entries)
    requires Behind(before, nodes, policy, staleDirs, entries, |entries|)
    requires forall path | path in nodes && nodes[path].kind == Dir :: path in directories
    ensures Cleared(before, nodes, policy, staleDirs, directories, 0)
  {
  }

  /** One sweep of a root: no entry goes that is protected, named .gitkeep or not older than the cutoff, none
      that is not a file or a directory, and no directory that still holds anything; the counters are exactly
      what left. Where nothing raises and nothing stops it, what goes is exactly what may go with all that is
      below it. A root that does not exist is a volume without entries. */
  method CleanupRoot(volume: Volume, protectedRoots: seq<Path>, started: int, retention: int, faults: Faults, stopAt: seq<nat>)
    returns (stats: Stats, ghost failed: set<Path>)
    requires IsTree(volume.nodes)
    modifies volume
    ensures retention <= 0 ==> volume.nodes == old(volume.nodes) && stats == NO_STATS
    ensures Swept(old(volume.nodes), volume.nodes, Policy(started - retention, protectedRoots), stats)
    ensures Counted(stats, faults, failed)
    ensures retention > 0 && stopAt == [] && Faulty(faults) == {} ==>
              forall path | path in old(volume.nodes) ::
                path !in volume.nodes <==> Doomed(old(volume.nodes), Policy(started - retention, protectedRoots), path)
  {
    ghost var before := volume.nodes;
    var policy := Policy(started - retention, protectedRoots);
    NothingPassed(before, policy, NO_STATS);
    SweptByTheFirstPass(before, before, policy, {}, NO_STATS);
    hide *;
    stats, failed := NO_STATS, {};
    if retention <= 0 {
      return;
    }
    var listed, listStats, aborted, checks, seen := ListEntries(volume, faults, stopAt);
    NothingPassed(before, policy, listStats);
    SweptByTheFirstPass(before, before, policy, {}, listStats);
    stats, failed := listStats, seen;
    if aborted {
      return;
    }
    var entries := SortEntries(volume.nodes, listed);
    var staleDirs: set<Path>;
    staleDirs, stats, aborted, checks, seen := FirstPass(volume, policy, faults, entries, stopAt, checks, stats, seen);
    SweptByTheFirstPass(before, volume.nodes, policy, staleDirs, stats);
    failed := seen;
    if aborted {
      return;
    }
    var found: seq<Path>;
    ghost var passed := stats;
    found, stats, aborted, checks, seen := ListDirectories(volume, faults, stopAt, checks, stats, seen);
    SweptStill(before, volume.nodes, policy, passed, stats);
    failed := seen;
    if aborted {
      return;
    }
    var directories := SortDirectories(found);
    ListedThere(volume.nodes, found, directories);
    if Faulty(faults) == {} {
      ListedAllSorted(before, listed, entries);
      SweptOnlyRemoves(before, volume.nodes, policy, stats);
      ReadyToClear(before, volume.nodes, policy, staleDirs, entries, directories);
    }
    stats, aborted, seen := SecondPass(volume, policy, faults, staleDirs, directories, stopAt, checks, stats, seen, before);
    failed := seen;
    if !aborted && Faulty(faults) == {} {
      GoneExactly(before, volume.nodes, policy, stats, staleDirs, directories);
    }
  }

  lemma SweptStill(before: Tree, nodes: Tree, policy: Policy, stats: Stats, stats': Stats)
    requires Swept(before, nodes, policy, stats) && stats' == stats.(errors := stats'.errors)
    ensures Swept(before, nodes, policy, stats')
  {
  }

  lemma SweptOnlyRemoves(before: Tree, nodes: Tree, policy: Policy, stats: Stats)
    requires Swept(before, nodes, policy, stats)
    ensures OnlyRemoved(before, nodes)
  {
  }

  lemma ListedThere(nodes: Tree, found: seq<Path>, directories: seq<Path>)
    requires forall path | path in found :: path in nodes
    requires forall path :: path in found <==> path in directories
    ensures StillThere(nodes, directories, 0)
  {
  }

  lemma ListedAllSorted(nodes: Tree, listed: seq<Entry>, entries: seq<Entry>)
    requires ListedAll(nodes, listed) && forall e :: e in listed <==> e in entries
    ensures ListedAll(nodes, entries)
  {
  }

  lemma {:induction false} HomesThere(nodes: Tree, path: Path, below: Path)
    requires IsTree(nodes) && below in nodes && path != [] && path <= below
    ensures path in nodes
    decreases |below|
  {
    if path == below {
    } else {
      assert HasHome(nodes, below);
      HomesThere(nodes, path, Parent(below));
    }
  }

  lemma GoneExactly(before: Tree, nodes: Tree, policy: Policy, stats: Stats, staleDirs: set<Path>, directories: seq<Path>)
    requires IsTree(before) && Swept(before, nodes, policy, stats)
    requires Cleared(before, nodes, policy, staleDirs, directories, |directories|)
    ensures forall path | path in before :: path !in nodes <==> Doomed(before, policy, path)
  {
    forall path | path in before && path !in nodes ensures Doomed(before, policy, path) {
      GoneIsDoomed(before, nodes, policy, stats, path);
    }
  }

  /** Nothing goes but what may go with all that is below it, faults or not. */
  lemma GoneIsDoomed(before: Tree, nodes: Tree, policy: Policy, stats: Stats, path: Path)
    requires IsTree(before) && Swept(before, nodes, policy, stats) && path in before && path !in nodes
    ensures Doomed(before, policy, path)
  {
    forall other | other in before && path <= other ensures other !in nodes {
      if other in nodes {
        HomesThere(nodes, path, other);
      }
    }
  }

  /** So what goes in a sweep, and all that was below it, is a file or a directory, not a marker, last changed longer ago
      than it is kept, and in no protected root. */
  lemma WhatGoesMayGo(before: Tree, nodes: Tree, started: int, retention: int, protectedRoots: seq<Path>, stats: Stats,
                      path: Path, other: Path)
    requires IsTree(before) && Swept(before, nodes, Policy(started - retention, protectedRoots), stats)
    requires path in before && path !in nodes && other in before && path <= other
    ensures before[other].kind == File || before[other].kind == Dir
    ensures before[other].mtime + retention < started
    ensures other != [] && other[|other| - 1] != ".gitkeep"
    ensures forall root | root in protectedRoots :: !(root <= before[other].target)
  {
    GoneIsDoomed(before, nodes, Policy(started - retention, protectedRoots), stats, path);
  }

  /** And without faults or a stop, what is kept is such an entry that may not go, or a directory with one below it. */
  lemma WhatStaysIsKeptFor(before: Tree, nodes: Tree, started: int, retention: int, protectedRoots: seq<Path>, path: Path)
    returns (other: Path)
    requires IsTree(before) && path in before && path in nodes
    requires path !in nodes <==> Doomed(before, Policy(started - retention, protectedRoots), path)
    ensures other in before && path <= other
    ensures || (before[other].kind != File && before[other].kind != Dir) || before[other].mtime + retention >= started
            || other[|other| - 1] == ".gitkeep"
            || exists root | root in protectedRoots :: root <= before[other].target
  {
    var policy := Policy(started - retention, protectedRoots);
    other :| other in before && path <= other && !(before[other].kind in {File, Dir} && Expendable(policy, other, before[other]));
    assert other != [];
  }

  /** A tree whose entries may all go is emptied, nested directories included. */
  lemma AllExpendableIsEmptied(before: Tree, nodes: Tree, policy: Policy, stats: Stats)
    requires Swept(before, nodes, policy, stats)
    requires forall path | path in before :: path !in nodes <==> Doomed(before, policy, path)
    requires forall path | path in before :: before[path].kind in {File, Dir} && Expendable(policy, path, before[path])
    ensures nodes == map[]
    ensures stats.deletedFiles == |Of(before, File)| && stats.deletedDirs == |Of(before, Dir)|
    ensures stats.bytesReclaimed == Total(Sizes(before))
  {
  }
}
