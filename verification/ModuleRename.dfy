/** The source-tree write oracle and the module rename it supervises
    (tools/check_jupyter_bsl_lsp.py). Paths and file contents are sequences of characters;
    a character stands for one byte, so a name and its encoding are the same text. */
module ModuleRename {
  import opened Wrappers
  import opened TextSearch
  import opened PathMoves

  datatype Node = Dir | File(content: string)
  type Tree = map<string, Node>
  type Digest = string -> string

  datatype OracleError = UnplannedChange | NothingAffected | NoSuchKey | OsFailure

  /** The fingerprint of every path: the content hash of a file, None for a directory. */
  function Fingerprints(h: Digest, tree: Tree): map<string, Option<string>> {
    map p | p in tree :: if tree[p].File? then Some(h(tree[p].content)) else None
  }

  lemma FingerprintsRelabel(h: Digest, tree: Tree, src: string, dst: string)
    ensures Fingerprints(h, Relabel(tree, src, dst)) == Relabel(Fingerprints(h, tree), src, dst)
  {
    hide Relabel;
    forall q ensures var a, b := Fingerprints(h, Relabel(tree, src, dst)), Relabel(Fingerprints(h, tree), src, dst);
                     (q in a <==> q in b) && (q in a ==> a[q] == b[q]) {
      RelabelAt(tree, src, dst, q);
      RelabelAt(Fingerprints(h, tree), src, dst, q);
    }
  }

  function LastIndex(s: string, c: char): (i: int)
    ensures -1 <= i < |s| && (i >= 0 ==> s[i] == c) && forall j :: i < j < |s| ==> s[j] != c
  {
    if s == "" then -1 else if s[|s| - 1] == c then |s| - 1 else LastIndex(s[..|s| - 1], c)
  }

  /** The scratch file of an atomic save: the path with its suffix replaced by ".tmp". */
  function Scratch(path: string): string {
    var slash, dot := LastIndex(path, '/'), LastIndex(path, '.');
    (if slash + 1 < dot < |path| - 1 then path[..dot] else path) + ".tmp"
  }

  lemma LastIndexIs(s: string, c: char, i: int)
    requires -1 <= i < |s| && (i >= 0 ==> s[i] == c) && forall j :: i < j < |s| ==> s[j] != c
    ensures LastIndex(s, c) == i
  {
    hide LastIndex;
  }

  ghost predicate Folder(dir: string) { dir == "" || dir[|dir| - 1] == '/' }

  /** The scratch file of a file with a suffix: the suffix is replaced. */
  lemma ScratchOfSuffixed(dir: string, stem: string, ext: string)
    requires Folder(dir) && stem != "" && '/' !in stem && ext != "" && '/' !in ext && '.' !in ext
    ensures Scratch(dir + stem + "." + ext) == dir + stem + ".tmp"
  {
    hide LastIndex;
    var path := dir + stem + "." + ext;
    var dot := |dir + stem|;
    assert forall j :: dot < j < |path| ==> path[j] == ext[j - dot - 1];
    LastIndexIs(path, '.', dot);
    assert forall j :: |dir| <= j < dot ==> path[j] == stem[j - |dir|];
    assert dir != "" ==> path[|dir| - 1] == dir[|dir| - 1];
    LastIndexIs(path, '/', |dir| - 1);
    assert path[..dot] == dir + stem;
  }

  /** Of a name without a dot after its first character: ".tmp" is appended. */
  lemma ScratchOfPlain(dir: string, name: string)
    requires Folder(dir) && name != "" && '/' !in name && '.' !in name[1..]
    ensures Scratch(dir + name) == dir + name + ".tmp"
  {
    hide LastIndex;
    var path := dir + name;
    assert dir != "" ==> path[|dir| - 1] == dir[|dir| - 1];
    LastIndexIs(path, '/', |dir| - 1);
    var dot := LastIndex(path, '.');
    assert forall j :: |dir| < j < |path| ==> path[j] == name[1..][j - |dir| - 1];
  }

  /** What a save leaves on disk. The atomic form writes the scratch file and moves it over the path. */
  function Written(tree: Tree, path: string, payload: string, atomic: bool): Tree {
    if atomic then (tree - {Scratch(path)})[path := File(payload)] else tree[path := File(payload)]
  }

  /** One planned operation, with the fate of its system calls. */
  datatype Operation =
    | SaveOp(path: string, payload: string, atomic: bool, os: bool)
    | DeleteOp(path: string, os: bool)
    | RenameOp(path: string, target: string, os: bool)

  /** The operation leaves the expectation out of step: it fails after changing it, or its scratch file
      overwrites another file. A failed save of what already stands there changes nothing. */
  ghost predicate Breaks(h: Digest, tree: Tree, op: Operation) {
    match op
    case SaveOp(path, payload, atomic, os) =>
      if os then atomic && Scratch(path) != path && Scratch(path) in tree
      else !(path in tree && tree[path].File? && h(tree[path].content) == h(payload))
    case DeleteOp(path, os) => path in tree && (tree[path].Dir? || !os)
    case RenameOp(path, target, os) => !Free(tree, path) && path != target && !(os && Apart(path, target))
  }

  /** What an operation does to the tree. */
  ghost function Effect(tree: Tree, op: Operation): Tree {
    match op
    case SaveOp(path, payload, atomic, os) => if os then Written(tree, path, payload, atomic) else tree
    case DeleteOp(path, os) => if os && path in tree && tree[path].File? then tree - {path} else tree
    case RenameOp(path, target, os) =>
      if os && !Free(tree, path) && Apart(path, target) then Relabel(tree, path, target) else tree
  }

  ghost function Effects(tree: Tree, ops: seq<Operation>): Tree {
    if ops == [] then tree else Effect(Effects(tree, ops[..|ops| - 1]), ops[|ops| - 1])
  }

  /** No operation of the run breaks the expectation. */
  ghost predicate StaysInStep(h: Digest, tree: Tree, ops: seq<Operation>) {
    ops == [] ||
    var n := |ops| - 1;
    StaysInStep(h, tree, ops[..n]) && !Breaks(h, Effects(tree, ops[..n]), ops[n])
  }

  /** The expectation of a save that was not carried out is true only of a file that already has its hash. */
  lemma SaveAhead(h: Digest, tree: Tree, path: string, payload: string)
    ensures Fingerprints(h, tree)[path := Some(h(payload))] == Fingerprints(h, tree) <==>
              path in tree && tree[path].File? && h(tree[path].content) == h(payload)
  {
    var a := Fingerprints(h, tree);
    var b := a[path := Some(h(payload))];
    assert path in b && b[path] == Some(h(payload));
    if path in tree && tree[path].File? && h(tree[path].content) == h(payload) {
      assert a[path] == Some(h(payload));
    }
  }

  /** The expectation of a save is the tree it leaves, unless the scratch file overwrote another file. */
  lemma SaveInStep(h: Digest, tree: Tree, path: string, payload: string, atomic: bool)
    ensures Fingerprints(h, tree)[path := Some(h(payload))] == Fingerprints(h, Written(tree, path, payload, atomic))
       <==> (atomic ==> Scratch(path) == path || Scratch(path) !in tree)
  {
    hide Scratch;
    var a, b := Fingerprints(h, tree)[path := Some(h(payload))], Fingerprints(h, Written(tree, path, payload, atomic));
    var scratch := Scratch(path);
    if atomic && scratch != path && scratch in tree { assert scratch in a && scratch !in b; }
  }

  lemma RebaseLength(p: string, src: string, dst: string)
    requires AtOrBelow(p, src)
    ensures |Rebase(p, src, dst)| == |p| + |dst| - |src|
  {
  }

  /** A shortest or a longest element. */
  lemma {:induction false} Extreme(all: set<string>, shortest: bool) returns (e: string)
    requires all != {}
    ensures e in all && forall p :: p in all ==> if shortest then |e| <= |p| else |p| <= |e|
    decreases |all|
  {
    e :| e in all;
    if all != {e} {
      var rest := Extreme(all - {e}, shortest);
      if (if shortest then |rest| < |e| else |e| < |rest|) { e := rest; }
    }
  }

  /** No key moves onto the shortest one when keys grow, or onto the longest one when they shrink. */
  lemma NeverExtreme(all: set<string>, last: string, name: string, src: string, dst: string)
    requires name in all && AtOrBelow(name, src) && |src| != |dst|
    requires forall p :: p in all ==> if |src| < |dst| then |last| <= |p| else |p| <= |last|
    ensures Rebase(name, src, dst) != last
  {
    RebaseLength(name, src, dst);
  }

  lemma MovedAll<V>(m: map<string, V>, all: set<string>, src: string, dst: string)
    requires all == set p | p in m && AtOrBelow(p, src)
    ensures all <= m.Keys && Moved(m, all, src, dst) == Relabel(m, src, dst)
  {
  }

  lemma RelabelSelf<V>(m: map<string, V>, src: string)
    ensures Relabel(m, src, src) == m
  {
    hide Relabel;
    forall q ensures (q in Relabel(m, src, src) <==> q in m) && (q in m ==> Relabel(m, src, src)[q] == m[q]) {
      RelabelAt(m, src, src, q);
      if AtOrBelow(q, src) { SelfRebase(q, src); }
    }
  }

  /** What a refused rename leaves of the expectation: the same map only if nothing was to move. */
  lemma RefusedRename<V>(m: map<string, V>, src: string, dst: string)
    requires exists p :: p in m && AtOrBelow(p, src)
    ensures src == dst ==> Relabel(m, src, dst) == m
    ensures Apart(src, dst) ==> Relabel(m, src, dst) != m
    ensures src != dst && !Apart(src, dst) ==> |src| != |dst|
  {
    hide Relabel;
    if src == dst { RelabelSelf(m, src); }
    if Apart(src, dst) {
      var p :| p in m && AtOrBelow(p, src);
      RelabelAt(m, src, dst, p);
      if AtOrBelow(p, dst) { BelowTwo(p, src, dst); }
    }
  }

  class SourceWriteOracle {
    const h: Digest
    var tree: Tree
    var expected: map<string, Option<string>>

    ghost predicate Synced()
      reads this
    {
      expected == Fingerprints(h, tree)
    }

    constructor (h: Digest, tree: Tree)
      ensures this.h == h && this.tree == tree && Synced()
    {
      this.h, this.tree := h, tree;
      expected := Fingerprints(h, tree);
    }

    method Check() returns (ok: bool)
      ensures ok == Synced()
    {
      ok := Fingerprints(h, tree) == expected;
    }

    /** `os` says whether the system calls succeed. The expectation is updated first, so a failed
        write leaves it ahead of the tree; otherwise a save stays in step with the tree exactly
        when its scratch file did not overwrite another file. */
    method Save(path: string, payload: string, atomic: bool, os: bool) returns (r: Result<(), OracleError>)
      modifies this
      ensures !old(Synced()) ==> r == Err(UnplannedChange) && tree == old(tree) && expected == old(expected)
      ensures old(Synced()) ==> expected == old(expected)[path := Some(h(payload))]
      ensures old(Synced()) && !os ==>
                && r == Err(OsFailure) && tree == old(tree)
                && (Synced() <==> path in tree && tree[path].File? && h(tree[path].content) == h(payload))
      ensures old(Synced()) && os ==>
                && tree == Written(old(tree), path, payload, atomic)
                && r == (if Synced() then Ok(()) else Err(UnplannedChange))
                && (Synced() <==> (atomic ==> Scratch(path) == path || Scratch(path) !in old(tree)))
    {
      hide Scratch, Fingerprints;
      var planned := Check();
      if !planned { return Err(UnplannedChange); }
      ghost var before := tree;
      expected := expected[path := Some(h(payload))];
      if !os {
        SaveAhead(h, tree, path, payload);
        return Err(OsFailure);
      }
      if atomic {
        var replacement := Scratch(path);
        tree := tree[replacement := File(payload)];
        var moved := tree[replacement];
        tree := (tree - {replacement})[path := moved];
        assert tree == Written(before, path, payload, atomic);
      } else {
        tree := tree[path := File(payload)];
      }
      SaveInStep(h, before, path, payload, atomic);
      planned := Check();
      r := if planned then Ok(()) else Err(UnplannedChange);
    }

    method Delete(path: string, os: bool) returns (r: Result<(), OracleError>)
      modifies this
      ensures !old(Synced()) ==> r == Err(UnplannedChange) && tree == old(tree) && expected == old(expected)
      ensures old(Synced()) && path !in old(tree) ==>
          r == Err(NoSuchKey) && tree == old(tree) && expected == old(expected)
      ensures old(Synced()) && path in old(tree) ==> expected == old(expected) - {path}
      ensures old(Synced()) && path in old(tree) && (old(tree)[path].Dir? || !os) ==>
                r == Err(OsFailure) && tree == old(tree) && !Synced()
      ensures old(Synced()) && path in old(tree) && old(tree)[path].File? && os ==>
                r == Ok(()) && tree == old(tree) - {path} && Synced()
    {
      var planned := Check();
      if !planned { return Err(UnplannedChange); }
      if path !in expected { return Err(NoSuchKey); }
      expected := expected - {path};
      assert path in Fingerprints(h, tree) && path !in expected;
      if tree[path].Dir? || !os { return Err(OsFailure); }
      tree := tree - {path};
      planned := Check();
      r := if planned then Ok(()) else Err(UnplannedChange);
    }

    /** The renaming loop over the expectation: pops the affected keys one by one. */
    method MoveKeys(all: set<string>, path: string, target: string)
      requires all == set p | p in expected && AtOrBelow(p, path)
      modifies this`expected
      ensures path == target || Apart(path, target) ==> expected == Relabel(old(expected), path, target)
      ensures |path| != |target| && all != {} ==> expected.Keys != old(expected).Keys
    {
      hide Moved, Apart, AtOrBelow, Rebase, Relabel;
      ghost var m, disjoint := expected, path == target || Apart(path, target);
      ghost var last := "";
      if all != {} { last := Extreme(all, |path| < |target|); }
      MovedNone(m, path, target);
      var affected := all;
      assert all - affected == {};
      while affected != {}
        invariant affected <= all && affected <= expected.Keys
        invariant disjoint ==> expected == Moved(m, all - affected, path, target)
        invariant |path| != |target| && last in all && last !in affected ==> last !in expected
        decreases |affected|
      {
        var name :| name in affected;
        ghost var done := all - affected;
        var value := expected[name];
        if disjoint { MoveOneMore(m, done, path, target, name); }
        if |path| != |target| { NeverExtreme(all, last, name, path, target); }
        expected := (expected - {name})[Rebase(name, path, target) := value];
        affected := affected - {name};
        assert all - affected == done + {name};
      }
      assert all - affected == all;
      MovedAll(m, all, path, target);
    }

    /** Renames `path` and everything below it, in the tree and, key by key, in the expectation.
        A rename into or over its own subtree is refused by the system, with the expectation already
        changed. */
    method Rename(path: string, target: string, os: bool) returns (r: Result<(), OracleError>)
      modifies this
      ensures !old(Synced()) ==> r == Err(UnplannedChange) && tree == old(tree) && expected == old(expected)
      ensures old(Synced()) && Free(old(tree), path) ==>
                r == Err(NothingAffected) && tree == old(tree) && expected == old(expected)
      ensures old(Synced()) && !Free(old(tree), path) && (path == target || Apart(path, target)) ==>
                expected == Relabel(old(expected), path, target)
      ensures old(Synced()) && !Free(old(tree), path) && !(os && (path == target || Apart(path, target))) ==>
                r == Err(OsFailure) && tree == old(tree) && (Synced() <==> path == target)
      ensures old(Synced()) && !Free(old(tree), path) && os && (path == target || Apart(path, target)) ==>
                r == Ok(()) && tree == Relabel(old(tree), path, target) && Synced()
    {
      hide Relabel, Apart;
      var planned := Check();
      if !planned { return Err(UnplannedChange); }
      var affected := set p | p in expected && AtOrBelow(p, path);
      if affected == {} {
        assert forall p :: p in tree && AtOrBelow(p, path) ==> p in affected;
        return Err(NothingAffected);
      }
      assert exists p :: p in tree && AtOrBelow(p, path) by {
        var p :| p in affected;
        assert p in tree;
      }
      ghost var before := expected;
      MoveKeys(affected, path, target);
      if !os || !(path == target || Apart(path, target)) {
        RefusedRename(before, path, target);
        return Err(OsFailure);
      }
      FingerprintsRelabel(h, tree, path, target);
      tree := Relabel(tree, path, target);
      planned := Check();
      r := if planned then Ok(()) else Err(UnplannedChange);
    }

    method Apply(op: Operation) returns (r: Result<(), OracleError>)
      modifies this
      ensures !old(Synced()) ==> r == Err(UnplannedChange) && tree == old(tree) && expected == old(expected)
      ensures old(Synced()) ==> (Synced() <==> !Breaks(h, old(tree), op))
      ensures old(Synced()) && Synced() ==> tree == Effect(old(tree), op)
    {
      hide Relabel, Apart, Written, Scratch;
      match op
      case SaveOp(path, payload, atomic, os) =>
        r := Save(path, payload, atomic, os);
      case DeleteOp(path, os) =>
        r := Delete(path, os);
      case RenameOp(path, target, os) =>
        if path == target { RelabelSelf(tree, path); }
        r := Rename(path, target, os);
    }

    /** Any run of operations on a tree that nobody else writes: the expectation stays in step with the
        tree exactly when no operation of the run breaks it, the tree is then the one the operations
        make, and after the first operation that breaks it everything is refused. */
    method Run(ops: seq<Operation>) returns (results: seq<Result<(), OracleError>>)
      requires Synced()
      modifies this
      ensures |results| == |ops|
      ensures Synced() <==> StaysInStep(h, old(tree), ops)
      ensures Synced() ==> tree == Effects(old(tree), ops)
      ensures forall k :: 0 <= k < |ops| && !StaysInStep(h, old(tree), ops[..k]) ==>
                results[k] == Err(UnplannedChange)
    {
      hide Breaks, Effect, Fingerprints;
      results := [];
      for i := 0 to |ops|
        invariant |results| == i
        invariant Synced() <==> StaysInStep(h, old(tree), ops[..i])
        invariant Synced() ==> tree == Effects(old(tree), ops[..i])
        invariant forall k :: 0 <= k < i && !StaysInStep(h, old(tree), ops[..k]) ==>
                    results[k] == Err(UnplannedChange)
      {
        assert ops[..i + 1][..i] == ops[..i];
        var r := Apply(ops[i]);
        results := results + [r];
      }
      assert ops[..|ops|] == ops;
    }

    /** Renames a common module: its directory, the text of its metadata, the metadata file,
        and the text of the configuration. `os` gives the fate of the four system operations. */
    method RenameModule(name: string, newName: string, layout: Layout, os: seq<bool>)
        returns (r: Result<(), OracleError>)
      requires Component(name) && Component(newName) && |os| == 4
      modifies this
      ensures r.Ok? ==> Synced() && ModuleRenamed(old(tree), name, newName, layout) == Some(tree)
      ensures old(Synced()) && ModuleRenamed(old(tree), name, newName, layout).Some? ==>
                os == [true, true, true, true] ==> r.Ok?
    {
      hide Relabel, Apart, Replace, Fingerprints, Metadata, Configuration;
      var directory, target := ModuleDir(name), ModuleDir(newName);
      if name != newName { SiblingsApart("CommonModules/", name, newName); }
      r := Rename(directory, target, os[0]);
      if r.Err? { return; }
      var metadata, renamed := Metadata(layout, name, newName), Metadata(layout, newName, newName);
      MetadataApart(layout, name, newName);
      if metadata !in tree || tree[metadata].Dir? { return Err(OsFailure); }
      r := Save(metadata, Replace(tree[metadata].content, name, newName), false, os[1]);
      if r.Err? { return; }
      assert AtOrBelow(metadata, metadata);
      r := Rename(metadata, renamed, os[2]);
      if r.Err? { return; }
      var config := Configuration(layout);
      if config !in tree || tree[config].Dir? { return Err(OsFailure); }
      r := Save(config, Replace(tree[config].content, name, newName), false, os[3]);
    }
  }

  datatype Layout = Designer | Edt

  /** A non-empty path component. */
  predicate Component(s: string) { s != "" && '/' !in s }

  function ModuleDir(name: string): string { "CommonModules/" + name }

  /** The metadata file called `file` of the module whose directory is called `dir`. */
  function Metadata(layout: Layout, file: string, dir: string): string {
    match layout
    case Designer => "CommonModules/" + (file + ".xml")
    case Edt => ModuleDir(dir) + "/" + (file + ".mdo")
  }

  function Configuration(layout: Layout): string {
    match layout
    case Designer => "Configuration.xml"
    case Edt => "Configuration/Configuration.mdo"
  }

  /** Rewrites one name in one file; None if the file cannot be read. */
  function Edited(tree: Tree, path: string, name: string, newName: string): Option<Tree>
    requires name != ""
  {
    if path in tree && tree[path].File? then Some(tree[path := File(Replace(tree[path].content, name, newName))])
    else None
  }

  /** The tree after a module rename, None if a step cannot be carried out. */
  function ModuleRenamed(tree: Tree, name: string, newName: string, layout: Layout): Option<Tree>
    requires Component(name)
  {
    if forall p <- tree.Keys :: !AtOrBelow(p, ModuleDir(name)) then None
    else
      var t1 := Relabel(tree, ModuleDir(name), ModuleDir(newName));
      match Edited(t1, Metadata(layout, name, newName), name, newName)
      case None => None
      case Some(t2) =>
        var t3 := Relabel(t2, Metadata(layout, name, newName), Metadata(layout, newName, newName));
        Edited(t3, Configuration(layout), name, newName)
  }

  lemma MetadataApart(layout: Layout, name: string, newName: string)
    requires Component(name) && Component(newName)
    ensures var a, b := Metadata(layout, name, newName), Metadata(layout, newName, newName);
            a == b || Apart(a, b)
  {
    if name != newName {
      match layout
      case Designer =>
        assert (name + ".xml")[..|name|] == name && (newName + ".xml")[..|newName|] == newName;
        SiblingsApart("CommonModules/", name + ".xml", newName + ".xml");
      case Edt =>
        assert (name + ".mdo")[..|name|] == name && (newName + ".mdo")[..|newName|] == newName;
        SiblingsApart(ModuleDir(newName) + "/", name + ".mdo", newName + ".mdo");
    }
  }

  const CM := "CommonModules/"

  /** The configuration file is outside the modules directory. */
  lemma ConfigurationApart(layout: Layout, rest: string)
    ensures Apart(Configuration(layout), CM + rest)
  {
    var k := Configuration(layout);
    assert k[2] == 'n' && (CM + rest)[2] == 'm' && (CM + rest + "/")[2] == 'm' && (k + "/")[2] == 'n';
  }

  /** Two module names none of whose directories and metadata files coincide. */
  predicate DistinctNames(layout: Layout, name: string, newName: string) {
    && Component(name) && Component(newName) && name != newName
    && (layout == Designer ==> newName != name + ".xml" && name != newName + ".xml")
  }

  /** How module directories and metadata files lie relative to one another. */
  lemma MetadataPaths(layout: Layout, name: string, newName: string)
    requires DistinctNames(layout, name, newName)
    ensures var a, b := ModuleDir(name), ModuleDir(newName);
            var c, d := Metadata(layout, name, newName), Metadata(layout, newName, newName);
            var c', d' := Metadata(layout, name, name), Metadata(layout, newName, name);
            && Apart(a, b) && Apart(c, d) && Apart(c', d') && Apart(a, d)
            && Move(c', a, b) == c && Move(c, b, a) == c' && Move(d, b, a) == d'
  {
    var a, b := ModuleDir(name), ModuleDir(newName);
    SiblingsApart(CM, name, newName);
    match layout
    case Designer =>
      DesignerApart(name, newName);
    case Edt =>
      var x, y := name + ".mdo", newName + ".mdo";
      assert x[..|name|] == name && y[..|newName|] == newName;
      SiblingsApart(b + "/", x, y);
      SiblingsApart(a + "/", x, y);
      BelowDir(a, x);
      BelowDir(b, y);
      if AtOrBelow(b + "/" + y, a) { BelowTwo(b + "/" + y, a, b); }
      if AtOrBelow(a, b + "/" + y) { BelowTransitive(a, b + "/" + y, b); }
  }

  /** The configuration file takes no part in the moves of a module rename. */
  lemma ConfigurationStays(layout: Layout, name: string, newName: string)
    ensures var k := Configuration(layout);
            && !AtOrBelow(k, ModuleDir(name)) && !AtOrBelow(k, ModuleDir(newName))
            && forall file, dir :: !AtOrBelow(k, Metadata(layout, file, dir))
  {
    ConfigurationApart(layout, name);
    ConfigurationApart(layout, newName);
    forall file: string, dir: string ensures !AtOrBelow(Configuration(layout), Metadata(layout, file, dir)) {
      ConfigurationApart(layout, file + ".xml");
      ConfigurationApart(layout, dir + "/" + (file + ".mdo"));
      assert ModuleDir(dir) + "/" + (file + ".mdo") == CM + (dir + "/" + (file + ".mdo"));
    }
  }

  lemma BelowDir(dir: string, file: string)
    ensures AtOrBelow(dir + "/" + file, dir)
    ensures forall to: string :: Rebase(dir + "/" + file, dir, to) == to + "/" + file
  {
    assert (dir + "/" + file)[|dir|..] == "/" + file;
  }

  lemma BelowTransitive(p: string, q: string, r: string)
    requires AtOrBelow(p, q) && AtOrBelow(q, r)
    ensures AtOrBelow(p, r)
  {
    if p != q && q != r {
      assert p[..|r + "/"|] == q[..|r + "/"|] == r + "/";
    }
  }

  /** Undoing the directory rename first and renaming the metadata there takes every path where
      renaming the metadata first would. */
  lemma MetadataMovesAgree(layout: Layout, name: string, newName: string, p: string)
    requires DistinctNames(layout, name, newName)
    requires !AtOrBelow(p, ModuleDir(name))
    ensures var a, b := ModuleDir(name), ModuleDir(newName);
            var c, d := Metadata(layout, name, newName), Metadata(layout, newName, newName);
            var c', d' := Metadata(layout, name, name), Metadata(layout, newName, name);
            && Move(Move(p, c, d), b, a) == Move(Move(p, b, a), c', d')
            && (AtOrBelow(p, d) ==> AtOrBelow(Move(p, b, a), d'))
  {
    hide AtOrBelow, Rebase;
    var a, b := ModuleDir(name), ModuleDir(newName);
    var c, d := Metadata(layout, name, newName), Metadata(layout, newName, newName);
    var c', d' := Metadata(layout, name, name), Metadata(layout, newName, name);
    match layout
    case Designer =>
      DesignerApart(name, newName);
      if AtOrBelow(p, c) {
        RebaseBack(p, c, d);
        if AtOrBelow(Rebase(p, c, d), b) { BelowTwo(Rebase(p, c, d), d, b); }
        if AtOrBelow(p, b) { BelowTwo(p, c, b); }
      } else if AtOrBelow(p, b) {
        RebaseBack(p, b, a);
        if AtOrBelow(Rebase(p, b, a), c) { BelowTwo(Rebase(p, b, a), a, c); }
        if AtOrBelow(p, d) { BelowTwo(p, b, d); }
      }
    case Edt =>
      var x, y := "/" + (name + ".mdo"), "/" + (newName + ".mdo");
      assert c == b + x && d == b + y && c' == a + x && d' == a + y by { JoinAssoc(name, newName); }
      if AtOrBelow(p, b) {
        MoveInside(p, b, a, x, y);
        MoveInside(p, b, a, y, x);
        if AtOrBelow(p, c) {
          RebaseBack(p, c, d);
          EdtInside(b, name, newName);
          BelowTransitive(Rebase(p, c, d), d, b);
        }
      } else {
        EdtInside(b, name, newName);
        EdtInside(a, name, newName);
        if AtOrBelow(p, c) { BelowTransitive(p, c, b); }
        if AtOrBelow(p, d) { BelowTransitive(p, d, b); }
        if AtOrBelow(p, c') { BelowTransitive(p, c', a); }
      }
  }

  lemma JoinAssoc(name: string, newName: string)
    ensures forall dir, file :: Metadata(Edt, file, dir) == ModuleDir(dir) + ("/" + (file + ".mdo"))
  {
  }

  lemma EdtInside(dir: string, name: string, newName: string)
    ensures AtOrBelow(dir + ("/" + (name + ".mdo")), dir) && AtOrBelow(dir + ("/" + (newName + ".mdo")), dir)
  {
  }

  lemma DesignerApart(name: string, newName: string)
    requires DistinctNames(Designer, name, newName)
    ensures var a, b := ModuleDir(name), ModuleDir(newName);
            var c, d := Metadata(Designer, name, name), Metadata(Designer, newName, newName);
            Apart(a, c) && Apart(a, d) && Apart(b, c) && Apart(b, d) && Apart(c, d) && Apart(a, b)
  {
    var x, y := name + ".xml", newName + ".xml";
    assert x[..|name|] == name && y[..|newName|] == newName;
    SiblingsApart(CM, name, x);
    SiblingsApart(CM, name, y);
    SiblingsApart(CM, newName, x);
    SiblingsApart(CM, newName, y);
    SiblingsApart(CM, x, y);
    SiblingsApart(CM, name, newName);
  }

  /** The tree stripped of its module rename: the same entries at other paths, then one edit of
      the metadata and one of the configuration. */
  lemma ForwardShape(t: Tree, name: string, newName: string, layout: Layout)
    requires DistinctNames(layout, name, newName)
    requires Free(t, ModuleDir(newName)) && Free(t, Metadata(layout, newName, name))
    requires ModuleRenamed(t, name, newName, layout).Some?
    ensures var a, b := ModuleDir(name), ModuleDir(newName);
            var c, d := Metadata(layout, name, newName), Metadata(layout, newName, newName);
            var c', k := Metadata(layout, name, name), Configuration(layout);
            var m := Relabel(t, a, b);
            && c in m && c' in t && t[c'].File? && m[c] == t[c']
            && k in t && t[k].File?
            && Free(m, a) && Free(m, d)
            && ModuleRenamed(t, name, newName, layout).value
               == Relabel(m, c, d)[d := Edit(t[c'], name, newName)][k := Edit(t[k], name, newName)]
  {
    hide Relabel, AtOrBelow, Rebase, Move, Apart, Metadata, Configuration, ModuleDir;
    var a, b := ModuleDir(name), ModuleDir(newName);
    var c, d := Metadata(layout, name, newName), Metadata(layout, newName, newName);
    var c', k := Metadata(layout, name, name), Configuration(layout);
    MetadataPaths(layout, name, newName);
    ConfigurationStays(layout, name, newName);
    RelabelBack(t, a, b);
    var m := Relabel(t, a, b);
    forall q | q in m ensures !AtOrBelow(q, d) {
      MetadataMovesAgree(layout, name, newName, q);
      EntryCameFrom(t, a, b, q);
    }
    EntryCameFrom(t, a, b, c);
    EntryFollowsMove(t, a, b, c');
    SelfMove(c, d);
    SelfMove(d, c);
    RelabelUpdate(m, c, d, c, Edit(m[c], name, newName));
    StaysPut(k, a, b);
    StaysPut(k, b, a);
    StaysPut(k, c, d);
    StaysPut(k, d, c);
    EntryFollowsMove(m, c, d, c);
    EntryCameFrom(m, c, d, k);
    EntryFollowsMove(m, c, d, k);
    EntryCameFrom(t, a, b, k);
    EntryFollowsMove(t, a, b, k);
  }

  function Edit(n: Node, name: string, newName: string): (r: Node)
    requires name != "" && n.File?
    ensures r.File?
  {
    File(Replace(n.content, name, newName))
  }

  /** What a rename onto free names needs: the module, its metadata file and the configuration file. */
  predicate Renamable(t: Tree, name: string, layout: Layout) {
    var c, k := Metadata(layout, name, name), Configuration(layout);
    && (exists p <- t.Keys :: AtOrBelow(p, ModuleDir(name)))
    && c in t && t[c].File? && k in t && t[k].File?
  }

  lemma RenamableSuffices(t: Tree, name: string, newName: string, layout: Layout)
    requires DistinctNames(layout, name, newName)
    requires Free(t, ModuleDir(newName)) && Free(t, Metadata(layout, newName, name))
    requires Renamable(t, name, layout)
    ensures ModuleRenamed(t, name, newName, layout).Some?
  {
    hide Relabel, AtOrBelow, Rebase, Move, Apart, Metadata, Configuration, ModuleDir;
    var a, b := ModuleDir(name), ModuleDir(newName);
    var c, d := Metadata(layout, name, newName), Metadata(layout, newName, newName);
    var c', k := Metadata(layout, name, name), Configuration(layout);
    MetadataPaths(layout, name, newName);
    ConfigurationStays(layout, name, newName);
    RelabelBack(t, a, b);
    var m := Relabel(t, a, b);
    forall q | q in m ensures !AtOrBelow(q, d) {
      MetadataMovesAgree(layout, name, newName, q);
      EntryCameFrom(t, a, b, q);
    }
    EntryFollowsMove(t, a, b, c');
    StaysPut(k, a, b);
    StaysPut(k, c, d);
    EntryFollowsMove(t, a, b, k);
    SelfMove(c, d);
    var m2 := m[c := Edit(m[c], name, newName)];
    EntryFollowsMove(m2, c, d, k);
  }

  /** A rename onto free names succeeds exactly when the module, its metadata file and the
      configuration file are there. */
  lemma RenameSucceedsIff(t: Tree, name: string, newName: string, layout: Layout)
    requires DistinctNames(layout, name, newName)
    requires Free(t, ModuleDir(newName)) && Free(t, Metadata(layout, newName, name))
    ensures ModuleRenamed(t, name, newName, layout).Some? <==>
              && (exists p :: p in t && AtOrBelow(p, "CommonModules/" + name))
              && MetadataFile(layout, name) in t && t[MetadataFile(layout, name)].File?
              && ConfigurationFile(layout) in t && t[ConfigurationFile(layout)].File?
  {
    FilesAre(layout, name);
    if Renamable(t, name, layout) {
      RenamableSuffices(t, name, newName, layout);
    }
    if ModuleRenamed(t, name, newName, layout).Some? {
      ForwardShape(t, name, newName, layout);
    }
  }

  /** The metadata file of a module and the configuration file, where each layout keeps them. */
  function MetadataFile(layout: Layout, name: string): string {
    match layout
    case Designer => "CommonModules/" + name + ".xml"
    case Edt => "CommonModules/" + name + "/" + name + ".mdo"
  }

  function ConfigurationFile(layout: Layout): string {
    match layout case Designer => "Configuration.xml" case Edt => "Configuration/Configuration.mdo"
  }

  lemma FilesAre(layout: Layout, name: string)
    ensures MetadataFile(layout, name) == Metadata(layout, name, name)
    ensures ConfigurationFile(layout) == Configuration(layout) && ModuleDir(name) == "CommonModules/" + name
  {
    match layout
    case Designer => assert "CommonModules/" + (name + ".xml") == "CommonModules/" + name + ".xml";
    case Edt =>
      assert "CommonModules/" + name + "/" + (name + ".mdo") == "CommonModules/" + name + "/" + name + ".mdo";
  }

  /** The text at `p` is found at `p'` with one name replaced by the other. */
  predicate Rewritten(t: Tree, p: string, t': Tree, p': string, name: string, newName: string)
    requires name != ""
  {
    && p in t && t[p].File? && p' in t'
    && t'[p'] == File(Replace(t[p].content, name, newName))
  }

  /** What a successful rename does: it rewrites the metadata file, which moves along, and the configuration
      file; every other file is found unchanged where its path went. */
  lemma RenamedFiles(t: Tree, name: string, newName: string, layout: Layout)
    requires DistinctNames(layout, name, newName)
    requires Free(t, ModuleDir(newName)) && Free(t, Metadata(layout, newName, name))
    requires ModuleRenamed(t, name, newName, layout).Some?
    ensures name != ""
    ensures var t' := ModuleRenamed(t, name, newName, layout).value;
            && Rewritten(t, MetadataFile(layout, name), t', MetadataFile(layout, newName), name, newName)
            && Rewritten(t, ConfigurationFile(layout), t', ConfigurationFile(layout), name, newName)
            && forall p :: p in t && p != MetadataFile(layout, name) && p != ConfigurationFile(layout) ==>
                 var q := MovedBy(layout, name, newName, p);
                 q in t' && t'[q] == t[p]
  {
    NamesNotEmpty(layout, name, newName);
    hide *;
    var a, b := ModuleDir(name), ModuleDir(newName);
    var c, d := Metadata(layout, name, newName), Metadata(layout, newName, newName);
    var c', k := Metadata(layout, name, name), Configuration(layout);
    FilesAre(layout, name);
    FilesAre(layout, newName);
    ForwardShape(t, name, newName, layout);
    MetadataPaths(layout, name, newName);
    ConfigurationStays(layout, name, newName);
    var m := Relabel(t, a, b);
    EditIs(t[c'], name, newName);
    EditIs(t[k], name, newName);
    var t' := ModuleRenamed(t, name, newName, layout).value;
    ConfigurationIsApart(layout, newName, m, c, d);
    RewrittenIs(t, c', t', d, name, newName);
    RewrittenIs(t, k, t', k, name, newName);
    forall p | p in t && p != c' && p != k
      ensures var q := MovedBy(layout, name, newName, p); q in t' && t'[q] == t[p]
    {
      OtherFile(t, name, newName, layout, p);
    }
  }

  /** Where a path goes: with the module's directory, and then with the metadata file. */
  function MovedBy(layout: Layout, name: string, newName: string, p: string): string {
    Move(Move(p, ModuleDir(name), ModuleDir(newName)), Metadata(layout, name, newName),
         Metadata(layout, newName, newName))
  }

  lemma EditIs(n: Node, name: string, newName: string)
    requires name != "" && n.File?
    ensures Edit(n, name, newName) == File(Replace(n.content, name, newName))
  {
  }

  lemma RewrittenIs(t: Tree, p: string, t': Tree, p': string, name: string, newName: string)
    requires name != "" && p in t && t[p].File? && p' in t'
    requires t'[p'] == File(Replace(t[p].content, name, newName))
    ensures Rewritten(t, p, t', p', name, newName)
  {
  }

  lemma ConfigurationIsApart(layout: Layout, newName: string, m: Tree, c: string, d: string)
    requires d == Metadata(layout, newName, newName) && Apart(c, d)
    ensures d != Configuration(layout)
  {
    match layout
    case Designer => ConfigurationApart(layout, newName + ".xml");
    case Edt =>
      assert d == CM + (newName + "/" + (newName + ".mdo"));
      ConfigurationApart(layout, newName + "/" + (newName + ".mdo"));
  }

  lemma OtherFile(t: Tree, name: string, newName: string, layout: Layout, p: string)
    requires DistinctNames(layout, name, newName)
    requires Free(t, ModuleDir(newName)) && Free(t, Metadata(layout, newName, name))
    requires ModuleRenamed(t, name, newName, layout).Some?
    requires p in t && p != Metadata(layout, name, name) && p != Configuration(layout)
    ensures var t' := ModuleRenamed(t, name, newName, layout).value;
            var q := MovedBy(layout, name, newName, p);
            q in t' && t'[q] == t[p]
  {
    hide Relabel, AtOrBelow, Rebase, Move, Apart, Metadata, Configuration, ModuleDir, DistinctNames, Edit;
    hide ModuleRenamed;
    var a, b := ModuleDir(name), ModuleDir(newName);
    var c, d := Metadata(layout, name, newName), Metadata(layout, newName, newName);
    var c', k := Metadata(layout, name, name), Configuration(layout);
    ForwardShape(t, name, newName, layout);
    MetadataPaths(layout, name, newName);
    ConfigurationStays(layout, name, newName);
    var m := Relabel(t, a, b);
    var p1 := Move(p, a, b);
    EntryFollowsMove(t, a, b, p);
    EntryFollowsMove(m, c, d, p1);
    var q := Move(p1, c, d);
    MovesApart(t, a, b, p, c');
    MovesApart(t, a, b, p, k);
    StaysPut(k, a, b);
    EntryFollowsMove(t, a, b, k);
    MovesApart(m, c, d, p1, c);
    MovesApart(m, c, d, p1, k);
    SelfMove(c, d);
    StaysPut(k, c, d);
  }

  /** Different paths go to different places. */
  lemma MovesApart(t: Tree, src: string, dst: string, p: string, q: string)
    requires Apart(src, dst) && Free(t, dst) && p in t && q in t && p != q
    ensures Move(p, src, dst) != Move(q, src, dst)
  {
    hide Relabel, AtOrBelow, Rebase, Move, Apart;
    EntryFollowsMove(t, src, dst, p);
    EntryFollowsMove(t, src, dst, q);
    MoveBack(t, src, dst, p);
    MoveBack(t, src, dst, q);
  }

  lemma MoveBack(t: Tree, src: string, dst: string, p: string)
    requires Apart(src, dst) && Free(t, dst) && p in t
    ensures Move(Move(p, src, dst), dst, src) == p
  {
    hide Rebase, AtOrBelow;
    if AtOrBelow(p, src) { RebaseBack(p, src, dst); }
  }

  /** If the name fits onto no later part of the longer one, the two files then hold it only as the head of
      the longer one; for other names `OnlyNewIff` has a text in which it stands elsewhere. */
  lemma OnlyNewNames(t: Tree, name: string, suffix: string, layout: Layout)
    requires var newName := name + suffix;
             && DistinctNames(layout, name, newName) && Unbordered(name, newName)
             && Free(t, ModuleDir(newName)) && Free(t, Metadata(layout, newName, name))
             && ModuleRenamed(t, name, newName, layout).Some?
    ensures var t', newName := ModuleRenamed(t, name, name + suffix, layout).value, name + suffix;
            var d, k := MetadataFile(layout, newName), ConfigurationFile(layout);
            && d in t' && t'[d].File? && OnlyNew(t'[d].content, name, newName)
            && k in t' && t'[k].File? && OnlyNew(t'[k].content, name, newName)
  {
    hide Unbordered, OnlyNew, Relabel, ModuleRenamed, Replace, MetadataFile, ConfigurationFile;
    RenamedFiles(t, name, name + suffix, layout);
    OnlyNewSuffices(t[MetadataFile(layout, name)].content, name, suffix);
    OnlyNewSuffices(t[ConfigurationFile(layout)].content, name, suffix);
  }

  /** The first reverse step, the directory rename, applied to the renamed tree. */
  lemma DirectoryMovedBack(t: Tree, name: string, newName: string, layout: Layout, v: Node, w: Node)
    requires DistinctNames(layout, name, newName)
    requires Free(t, ModuleDir(newName)) && Free(t, Metadata(layout, newName, name))
    requires var m := Relabel(t, ModuleDir(name), ModuleDir(newName));
             Metadata(layout, name, newName) in m && Free(m, ModuleDir(name))
                 && Free(m, Metadata(layout, newName, newName))
    requires Configuration(layout) in t
    ensures var a, b := ModuleDir(name), ModuleDir(newName);
            var c, d := Metadata(layout, name, newName), Metadata(layout, newName, newName);
            var c', d' := Metadata(layout, name, name), Metadata(layout, newName, name);
            Relabel(Relabel(Relabel(t, a, b), c, d)[d := v][Configuration(layout) := w], b, a)
            == Relabel(t, c', d')[d' := v][Configuration(layout) := w]
  {
    hide Relabel, AtOrBelow, Rebase, Move, Metadata, Configuration, ModuleDir, DistinctNames;
    var a, b := ModuleDir(name), ModuleDir(newName);
    var c, d := Metadata(layout, name, newName), Metadata(layout, newName, newName);
    var c', d', k := Metadata(layout, name, name), Metadata(layout, newName, name), Configuration(layout);
    MetadataPaths(layout, name, newName);
    ConfigurationStays(layout, name, newName);
    RelabelBack(t, a, b);
    var m := Relabel(t, a, b);
    var n := Relabel(m, c, d);
    SelfMove(c, d);
    SelfMove(d, c);
    StaysPut(k, a, b);
    StaysPut(k, b, a);
    StaysPut(k, c, d);
    EntryFollowsMove(m, c, d, c);
    EntryFollowsMove(t, a, b, k);
    EntryFollowsMove(m, c, d, k);
    forall q | q in n ensures !AtOrBelow(q, a) {
      EntryCameFrom(m, c, d, q);
      if AtOrBelow(q, a) && AtOrBelow(q, d) { BelowTwo(q, a, d); }
      StaysOrFalls(q, d, c);
    }
    forall p | p in m ensures Move(Move(p, c, d), b, a) == Move(Move(p, b, a), c', d') {
      MetadataMovesAgree(layout, name, newName, p);
    }
    SameMoves(m, c, d, b, a, c', d');
    RelabelUpdate(n, b, a, d, v);
    RelabelUpdate(n[d := v], b, a, k, w);
  }

  lemma StaysOrFalls(p: string, src: string, dst: string)
    ensures Move(p, src, dst) == p || AtOrBelow(p, src)
  {
  }

  lemma SuffixDistinct(t: Tree, name: string, suffix: string, layout: Layout)
    requires Component(name) && Component(name + suffix)
    requires Metadata(layout, name, name) in t && Free(t, ModuleDir(name + suffix))
    requires exists p :: p in t && AtOrBelow(p, ModuleDir(name))
    ensures DistinctNames(layout, name, name + suffix)
  {
    assert suffix == "" ==> name + suffix == name;
    assert name + suffix == name + ".xml" ==> ModuleDir(name + suffix) == CM + (name + ".xml");
    assert |name| < |name + suffix + ".xml"|;
  }

  /** After the rename the module is found under its new name. */
  lemma ModulePresent(t: Tree, name: string, newName: string, layout: Layout) returns (q: string)
    requires DistinctNames(layout, name, newName)
    requires Free(t, ModuleDir(newName)) && Free(t, Metadata(layout, newName, name))
    requires ModuleRenamed(t, name, newName, layout).Some?
    ensures q in ModuleRenamed(t, name, newName, layout).value && AtOrBelow(q, ModuleDir(newName))
  {
    hide Relabel, Rebase, Move, Configuration;
    var a, b := ModuleDir(name), ModuleDir(newName);
    var c, d := Metadata(layout, name, newName), Metadata(layout, newName, newName);
    ForwardShape(t, name, newName, layout);
    match layout
    case Edt =>
      q := d;
      BelowDir(b, newName + ".mdo");
    case Designer =>
      MetadataPaths(layout, name, newName);
      var p :| p in t && AtOrBelow(p, a);
      q := Move(p, a, b);
      EntryFollowsMove(t, a, b, p);
      RebaseBack(p, a, b);
      assert q == Rebase(p, a, b) by { MovesBelow(p, a, b); }
      if AtOrBelow(q, c) {
        DesignerApart(name, newName);
        BelowTwo(q, b, c);
      }
      StaysPut(q, c, d);
      EntryFollowsMove(Relabel(t, a, b), c, d, q);
  }

  lemma MovesBelow(p: string, src: string, dst: string)
    requires AtOrBelow(p, src)
    ensures Move(p, src, dst) == Rebase(p, src, dst)
  {
  }

  /** The last reverse steps: the metadata file moved back, the configuration set aside. */
  lemma MetadataMovedBack(t: Tree, name: string, newName: string, layout: Layout, w: Node)
    requires DistinctNames(layout, name, newName)
    requires Free(t, Metadata(layout, newName, name))
    requires Metadata(layout, name, name) in t && Configuration(layout) in t
    ensures var c', d', k := Metadata(layout, name, name), Metadata(layout, newName, name), Configuration(layout);
            var n := Relabel(t, c', d');
            d' in n && n[d'] == t[c'] && d' != k && Relabel(n[k := w], d', c') == t[k := w]
  {
    hide Relabel, AtOrBelow, Rebase, Move, Metadata, Configuration, ModuleDir, DistinctNames;
    var c', d', k := Metadata(layout, name, name), Metadata(layout, newName, name), Configuration(layout);
    MetadataPaths(layout, name, newName);
    ConfigurationStays(layout, name, newName);
    SelfMove(c', d');
    SelfMove(d', c');
    StaysPut(k, c', d');
    StaysPut(k, d', c');
    EntryFollowsMove(t, c', d', c');
    EntryFollowsMove(t, c', d', k);
    RelabelBack(t, c', d');
    RelabelUpdate(Relabel(t, c', d'), d', c', k, w);
  }

  lemma EditUndone(n: Node, name: string, suffix: string)
    requires name != "" && n.File?
    ensures Edit(Edit(n, name, name + suffix), name + suffix, name) == n
  {
    ReplaceExtensionUndone(n.content, name, suffix);
  }

  /** Reverse rename, first half: the directory is back, the metadata text is restored. */
  lemma ReverseFirstHalf(t: Tree, name: string, suffix: string, layout: Layout)
    requires var newName := name + suffix;
             && DistinctNames(layout, name, newName)
             && Metadata(layout, name, name) in t
             && Free(t, ModuleDir(newName)) && Free(t, Metadata(layout, newName, name))
             && ModuleRenamed(t, name, newName, layout).Some?
    ensures var newName := name + suffix;
            var c', d', k := Metadata(layout, name, name), Metadata(layout, newName, name), Configuration(layout);
            && c' in t && k in t && t[k].File?
            && Edited(Relabel(ModuleRenamed(t, name, newName, layout).value, ModuleDir(newName), ModuleDir(name)),
                      d', newName, name)
               == Some(Relabel(t, c', d')[k := Edit(t[k], name, newName)])
  {
    var newName := name + suffix;
    hide *;
    NamesNotEmpty(layout, name, newName);
    var c', d', k := Metadata(layout, name, name), Metadata(layout, newName, name), Configuration(layout);
    assert c' in t && t[c'].File? && k in t && t[k].File? by { ForwardShape(t, name, newName, layout); }
    var v, w, n := Edit(t[c'], name, newName), Edit(t[k], name, newName), Relabel(t, c', d');
    assert Relabel(ModuleRenamed(t, name, newName, layout).value, ModuleDir(newName), ModuleDir(name))
        == n[d' := v][k := w] by {
      ForwardShape(t, name, newName, layout);
      DirectoryMovedBack(t, name, newName, layout, v, w);
    }
    assert d' in n && n[d'] == t[c'] && d' != k by { MetadataMovedBack(t, name, newName, layout, w); }
    EditUndone(t[c'], name, suffix);
    SetTwice(n, d', v, k, w);
    EditedIs(n[d' := v][k := w], d', newName, name);
  }

  lemma SetTwice<V>(n: map<string, V>, d: string, v: V, k: string, w: V)
    requires d in n && d != k
    ensures n[d := v][k := w][d := n[d]] == n[k := w]
  {
  }

  /** Reverse rename, second half: the metadata file and the configuration are back. */
  lemma ReverseSecondHalf(t: Tree, name: string, suffix: string, layout: Layout)
    requires DistinctNames(layout, name, name + suffix)
    requires Free(t, Metadata(layout, name + suffix, name)) && Metadata(layout, name, name) in t
    requires Configuration(layout) in t && t[Configuration(layout)].File?
    ensures var newName := name + suffix;
            var c', d', k := Metadata(layout, name, name), Metadata(layout, newName, name), Configuration(layout);
            Edited(Relabel(Relabel(t, c', d')[k := Edit(t[k], name, newName)], d', c'), k, newName, name) == Some(t)
  {
    var newName, k := name + suffix, Configuration(layout);
    hide *;
    NamesNotEmpty(layout, name, newName);
    var w := Edit(t[k], name, newName);
    MetadataMovedBack(t, name, newName, layout, w);
    EditUndone(t[k], name, suffix);
    EditedIs(t[k := w], k, newName, name);
    SetBack(t, k, w);
  }

  lemma SetBack<V>(t: map<string, V>, k: string, w: V)
    requires k in t
    ensures t[k := w][k := t[k]] == t
  {
  }

  lemma NamesNotEmpty(layout: Layout, name: string, newName: string)
    requires DistinctNames(layout, name, newName)
    ensures Component(name) && name != "" && newName != ""
  {
  }

  /** Renaming a module to a longer name and back restores the whole tree: every path, and every
      byte of every file, in either layout, whenever the module has its metadata file and the
      names it takes are free. */
  lemma RenameBackRestores(t: Tree, name: string, suffix: string, layout: Layout)
    requires Component(name) && Component(name + suffix)
    requires Metadata(layout, name, name) in t
    requires Free(t, ModuleDir(name + suffix)) && Free(t, Metadata(layout, name + suffix, name))
    requires ModuleRenamed(t, name, name + suffix, layout).Some?
    ensures ModuleRenamed(ModuleRenamed(t, name, name + suffix, layout).value, name + suffix, name, layout) == Some(t)
  {
    var newName := name + suffix;
    SuffixDistinct(t, name, suffix, layout);
    var q := ModulePresent(t, name, newName, layout);
    hide *;
    ReverseFirstHalf(t, name, suffix, layout);
    ReverseSecondHalf(t, name, suffix, layout);
    var n := Relabel(t, Metadata(layout, name, name), Metadata(layout, newName, name));
    var k := Configuration(layout);
    var t2 := n[k := Edit(t[k], name, newName)];
    ModuleRenamedIs(ModuleRenamed(t, name, newName, layout).value, newName, name, layout, q, t2, t);
  }

  /** A rename that succeeds without a metadata file moves a file that stands at the module's own
      path into the metadata's place, which only the suffix ".xml" can do. */
  lemma MissingMetadata(t: Tree, name: string, suffix: string, layout: Layout)
    requires Component(name) && Component(name + suffix)
    requires Metadata(layout, name, name) !in t && Free(t, ModuleDir(name + suffix))
    requires Metadata(layout, name, name + suffix) in Relabel(t, ModuleDir(name), ModuleDir(name + suffix))
    ensures layout == Designer && suffix == ".xml"
  {
    hide Relabel;
    var a, b := ModuleDir(name), ModuleDir(name + suffix);
    var c := Metadata(layout, name, name + suffix);
    RelabelAt(t, a, b, c);
    match layout
    case Edt =>
      BelowDir(b, name + ".mdo");
    case Designer =>
      assert AtOrBelow(c, b);
      assert (name + ".xml")[..|name|] == name;
      BelowSibling(CM, name + ".xml", name + suffix);
      assert (name + suffix)[|name|..] == suffix && (name + ".xml")[|name|..] == ".xml";
  }

  /** In that case the reverse rename finds no module. */
  lemma ReverseFindsNothing(t: Tree, name: string, newName: string)
    requires Component(name) && newName == name + ".xml"
    requires ModuleRenamed(t, name, newName, Designer).Some?
    ensures Component(newName)
    ensures ModuleRenamed(ModuleRenamed(t, name, newName, Designer).value, newName, name, Designer) == None
  {
    hide Relabel, AtOrBelow, Configuration;
    var b, d, k := ModuleDir(newName), Metadata(Designer, newName, newName), Configuration(Designer);
    var t2 := Edited(Relabel(t, ModuleDir(name), b), Metadata(Designer, name, newName), name, newName).value;
    var t4 := ModuleRenamed(t, name, newName, Designer).value;
    assert newName[..|name|] == name;
    assert Component(newName) && Component(newName + ".xml") && newName != newName + ".xml";
    SiblingsApart(CM, newName, newName + ".xml");
    ConfigurationApart(Designer, newName);
    forall p | p in t4
      ensures !AtOrBelow(p, b)
    {
      RelabelAt(t2, b, d, p);
      if AtOrBelow(p, b) && AtOrBelow(p, d) { BelowTwo(p, b, d); }
    }
  }

  /** Exactly when: of the renames that succeed onto free names, those of a module that has its
      metadata file are undone by the reverse rename, and no others. */
  lemma RenameBackRestoresIff(t: Tree, name: string, suffix: string, layout: Layout)
    requires Component(name) && Component(name + suffix)
    requires Free(t, ModuleDir(name + suffix)) && Free(t, Metadata(layout, name + suffix, name))
    requires ModuleRenamed(t, name, name + suffix, layout).Some?
    ensures ModuleRenamed(ModuleRenamed(t, name, name + suffix, layout).value, name + suffix, name, layout) == Some(t)
       <==> Metadata(layout, name, name) in t
    ensures Metadata(layout, name, name) !in t ==> layout == Designer && suffix == ".xml"
  {
    if Metadata(layout, name, name) in t {
      RenameBackRestores(t, name, suffix, layout);
    } else {
      MissingMetadata(t, name, suffix, layout);
      ReverseFindsNothing(t, name, name + suffix);
    }
  }

  /** Such a rename does happen: a file at the module's own path becomes the metadata file, and is not
      found again. */
  lemma RenameNotUndone(name: string, content: string, configuration: string)
    requires Component(name)
    ensures Component(name + ".xml")
    ensures var t: Tree := map[ModuleDir(name) := File(content), Configuration(Designer) := File(configuration)];
            && Free(t, ModuleDir(name + ".xml")) && Free(t, Metadata(Designer, name + ".xml", name))
            && Metadata(Designer, name, name) !in t
            && ModuleRenamed(t, name, name + ".xml", Designer).Some?
            && ModuleRenamed(ModuleRenamed(t, name, name + ".xml", Designer).value, name + ".xml", name, Designer)
               != Some(t)
  {
    hide Relabel, AtOrBelow, Replace;
    var newName, k := name + ".xml", Configuration(Designer);
    var a, b, d := ModuleDir(name), ModuleDir(newName), Metadata(Designer, newName, newName);
    var t: Tree := map[a := File(content), k := File(configuration)];
    BareModuleApart(name);
    assert Metadata(Designer, name, newName) == b;
    SelfMove(a, b);
    StaysPut(k, a, b);
    EntryFollowsMove(t, a, b, a);
    EntryFollowsMove(t, a, b, k);
    RelabelAt(Edited(Relabel(t, a, b), b, name, newName).value, b, d, k);
    RenameBackRestoresIff(t, name, ".xml", Designer);
  }

  lemma BareModuleApart(name: string)
    requires Component(name)
    ensures Component(name + ".xml")
    ensures var b, k := ModuleDir(name + ".xml"), Configuration(Designer);
            var d := Metadata(Designer, name + ".xml", name);
            && Apart(ModuleDir(name), b) && Apart(k, ModuleDir(name)) && Apart(k, b)
            && Apart(ModuleDir(name), d) && Apart(k, d)
  {
    hide AtOrBelow;
    var newName := name + ".xml";
    assert |name| < |newName| < |newName + ".xml"|;
    SiblingsApart(CM, name, newName);
    SiblingsApart(CM, name, newName + ".xml");
    ConfigurationApart(Designer, name);
    ConfigurationApart(Designer, newName);
    ConfigurationApart(Designer, newName + ".xml");
  }

  /** An atomic save whose scratch file overwrites another file: that file is gone, and the oracle reports
      its own write. */
  method ScratchOverwrites(h: Digest, other: string, payload: string)
      returns (o: SourceWriteOracle, r: Result<(), OracleError>)
    ensures o.tree == map["a.bsl" := File(payload)] && r == Err(UnplannedChange) && !o.Synced()
    ensures Breaks(h, map["a.tmp" := File(other)], SaveOp("a.bsl", payload, true, true))
  {
    ScratchOf();
    o := new SourceWriteOracle(h, map["a.tmp" := File(other)]);
    r := o.Save("a.bsl", payload, true, true);
  }

  lemma ScratchOf()
    ensures Scratch("a.bsl") == "a.tmp"
  {
    var path := "a.bsl";
    assert path[1] == '.' && path[..1] == "a" && "a" + ".tmp" == "a.tmp";
  }

  lemma ModuleRenamedIs(t: Tree, name: string, newName: string, layout: Layout, q: string, t2: Tree, t4: Tree)
    requires Component(name)
    requires q in t && AtOrBelow(q, ModuleDir(name))
    requires Edited(Relabel(t, ModuleDir(name), ModuleDir(newName)), Metadata(layout, name, newName), name, newName)
        == Some(t2)
    requires Edited(Relabel(t2, Metadata(layout, name, newName), Metadata(layout, newName, newName)),
                    Configuration(layout), name, newName) == Some(t4)
    ensures ModuleRenamed(t, name, newName, layout) == Some(t4)
  {
    hide Relabel, Replace, Metadata, Configuration, AtOrBelow;
  }

  lemma EditedIs(t: Tree, path: string, name: string, newName: string)
    requires name != "" && path in t && t[path].File?
    ensures Edited(t, path, name, newName) == Some(t[path := Edit(t[path], name, newName)])
  {
  }
}
