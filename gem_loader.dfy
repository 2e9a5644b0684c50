/**
 * The gem loader (lib/zeitwerk/gem_loader.rb): the loader a gem obtains for
 * itself. At construction it finds the gem's `lib` directory, derives the
 * namespaces the gem extends and its tag, checks that those namespaces are
 * already defined, ignores the convenience file and registers `lib` as a root
 * directory; at `setup` it may warn about unexpected entries of `lib`.
 */
module GemLoaders {
  import opened Wrappers
  import opened Strings
  import opened Paths
  import opened Errors
  import opened GemInflectors

  // ---------------------------------------------------------------------------
  // Lib root and namespace chain (find_lib)
  // ---------------------------------------------------------------------------

  /**
   * `lib` is the lib root of `dir` with the chain `ns` when `lib` is an ancestor
   * of `dir` (or `dir` itself) named "lib", the segments below it are `ns`, and
   * none of them is named "lib": it is the nearest such ancestor.
   */
  predicate IsLibRootOf(dir: Path, lib: Path, ns: seq<string>) {
    lib + ns == dir && |lib| > 0 && lib[|lib| - 1] == "lib" && "lib" !in ns
  }

  /** The result of ascending from `dir`: the nearest "lib" ancestor and the basenames passed, outermost first. */
  function LibRoot(dir: Path): Option<(Path, seq<string>)>
    decreases |dir|
  {
    if Basename(dir) == "lib" then Some((dir, []))
    else if dir == [] then None
    else
      match LibRoot(Dirname(dir))
      case None => None
      case Some(found) => Some((found.0, found.1 + [Basename(dir)]))
  }

  /** What LibRoot finds is a lib root in the declarative sense. */
  lemma {:induction false} LibRootSound(dir: Path)
    requires LibRoot(dir).Some?
    ensures IsLibRootOf(dir, LibRoot(dir).value.0, LibRoot(dir).value.1)
    decreases |dir|
  {
    if Basename(dir) != "lib" {
      LibRootSound(Dirname(dir));
      var (lib, ns) := LibRoot(Dirname(dir)).value;
      assert lib + (ns + [Basename(dir)]) == Dirname(dir) + [Basename(dir)];
      assert Dirname(dir) + [Basename(dir)] == dir;
    }
  }

  /** Below a lib root no segment is named "lib". */
  lemma NoLibBelowRoot(dir: Path, lib: Path, ns: seq<string>)
    requires IsLibRootOf(dir, lib, ns)
    ensures forall j :: |lib| <= j < |dir| ==> dir[j] != "lib"
  {
    forall j | |lib| <= j < |dir| ensures dir[j] != "lib" {
      assert dir[j] == ns[j - |lib|];
    }
  }

  /** There is at most one lib root: the nearest ancestor named "lib". */
  lemma LibRootUnique(dir: Path, lib1: Path, ns1: seq<string>, lib2: Path, ns2: seq<string>)
    requires IsLibRootOf(dir, lib1, ns1) && IsLibRootOf(dir, lib2, ns2)
    ensures lib1 == lib2 && ns1 == ns2
  {
    NoLibBelowRoot(dir, lib1, ns1);
    NoLibBelowRoot(dir, lib2, ns2);
    assert dir[|lib1| - 1] == "lib" && dir[|lib2| - 1] == "lib";
    assert |lib1| == |lib2|;
    assert lib1 == dir[..|lib1|] == lib2;
    assert ns1 == dir[|lib1|..] == ns2;
  }

  /** Any declarative lib root is what LibRoot returns. */
  lemma LibRootComplete(dir: Path, lib: Path, ns: seq<string>)
    requires IsLibRootOf(dir, lib, ns)
    ensures LibRoot(dir) == Some((lib, ns))
  {
    LibRootExists(dir);
    LibRootSound(dir);
    LibRootUnique(dir, lib, ns, LibRoot(dir).value.0, LibRoot(dir).value.1);
  }

  /** Ascending finds a lib root exactly when some ancestor is named "lib". */
  lemma {:induction false} LibRootExists(dir: Path)
    ensures LibRoot(dir).Some? <==> "lib" in dir
    decreases |dir|
  {
    if dir != [] && Basename(dir) != "lib" {
      LibRootExists(Dirname(dir));
      assert dir == Dirname(dir) + [Basename(dir)];
    }
  }

  /**
   * An entry point directly inside a "lib" directory extends no namespace: that
   * directory is its lib root, with the empty chain, and no other is.
   */
  lemma EntryInLibHasEmptyChain(entryPoint: Path, lib: Path, ns: seq<string>)
    requires Basename(Dirname(entryPoint)) == "lib"
    ensures IsLibRootOf(Dirname(entryPoint), Dirname(entryPoint), [])
    ensures IsLibRootOf(Dirname(entryPoint), lib, ns) ==> lib == Dirname(entryPoint) && ns == []
  {
    var dir := Dirname(entryPoint);
    assert dir != [] && dir + [] == dir;
    if IsLibRootOf(dir, lib, ns) {
      LibRootUnique(dir, lib, ns, dir, []);
    }
  }

  /** `/…/lib/ns1/ns2/my_gem.rb` has the lib root `/…/lib` and the chain ["ns1", "ns2"]. */
  lemma NamespacedGemChain(root: Path)
    ensures LibRoot(Dirname(root + ["lib", "ns1", "ns2", "my_gem.rb"]))
         == Some((root + ["lib"], ["ns1", "ns2"]))
  {
    var dir := Dirname(root + ["lib", "ns1", "ns2", "my_gem.rb"]);
    assert dir == root + ["lib"] + ["ns1", "ns2"];
    LibRootComplete(dir, root + ["lib"], ["ns1", "ns2"]);
  }

  /**
   * GemLoader#find_lib: ascends from the directory of the entry point, that
   * directory first, collecting basenames at the front until one is "lib".
   */
  method FindLib(entryPoint: Path) returns (r: Result<(Path, seq<string>), ZeitwerkError>)
    ensures r.Success? <==> "lib" in Dirname(entryPoint)
    ensures r.Success? ==> IsLibRootOf(Dirname(entryPoint), r.value.0, r.value.1)
    ensures r.Failure? ==> r.error == LibNotFoundErr(PathString(entryPoint))
  {
    var dir := Dirname(entryPoint);
    var namespaces: seq<string> := [];
    while Basename(dir) != "lib" && dir != []
      invariant dir + namespaces == Dirname(entryPoint)
      invariant "lib" !in namespaces
      decreases |dir|
    {
      namespaces := [Basename(dir)] + namespaces;
      dir := Dirname(dir);
    }
    if Basename(dir) == "lib" {
      return Success((dir, namespaces));
    }
    return Failure(LibNotFoundErr(PathString(entryPoint)));
  }

  // ---------------------------------------------------------------------------
  // Tag and convenience file
  // ---------------------------------------------------------------------------

  /** The loader's tag: the entry point's stem, preceded by the chain and joined with "-". */
  function Tag(ns: seq<string>, entryPoint: Path): string {
    if ns == [] then Stem(entryPoint) else Join(ns + [Stem(entryPoint)], "-")
  }

  /**
   * The tag reads back as the chain followed by the stem when no segment
   * contains a dash, and it always ends with the stem.
   */
  lemma TagSplits(ns: seq<string>, entryPoint: Path)
    requires forall k :: 0 <= k < |ns| ==> '-' !in ns[k]
    requires '-' !in Stem(entryPoint)
    ensures Split(Tag(ns, entryPoint), '-') == ns + [Stem(entryPoint)]
    ensures HasSuffix(Tag(ns, entryPoint), Stem(entryPoint))
  {
    var parts := ns + [Stem(entryPoint)];
    assert forall k :: 0 <= k < |parts| ==> '-' !in parts[k];
    SplitJoin(parts, '-');
    if ns != [] {
      JoinSnoc(ns, Stem(entryPoint), "-");
    } else {
      assert parts == [Stem(entryPoint)];
    }
  }

  /** `lib/ns1/ns2/my_gem.rb` is tagged "ns1-ns2-my_gem"; `lib/my_gem.rb` is tagged "my_gem". */
  lemma TagExamples(root: Path)
    ensures Tag(["ns1", "ns2"], root + ["lib", "ns1", "ns2", "my_gem.rb"]) == "ns1-ns2-my_gem"
    ensures Tag([], root + ["lib", "my_gem.rb"]) == "my_gem"
  {
    assert Basename(root + ["lib", "ns1", "ns2", "my_gem.rb"]) == "my_gem" + ".rb";
    assert Basename(root + ["lib", "my_gem.rb"]) == "my_gem" + ".rb";
    JoinSnoc(["ns1"], "ns2", "-");
    assert ["ns1", "ns2"] + ["my_gem"] == ["ns1", "ns2", "my_gem"];
    JoinSnoc(["ns1", "ns2"], "my_gem", "-");
  }

  /** `lib/<tag>.rb`, the optional top-level entry point of a gem that extends a namespace. */
  function ConvenienceFile(lib: Path, tag: string): Path {
    lib + [tag + ".rb"]
  }

  // ---------------------------------------------------------------------------
  // Constant table and namespace validation
  // ---------------------------------------------------------------------------

  /** Modules are numbered; 0 is Object, where constant lookup starts. */
  const ObjectScope: nat := 0

  /** What `cget(parent, cname)` does: return a module, or raise a ::NameError. */
  datatype Lookup = Defined(scope: nat) | Raises(error: NameErrorInfo)

  /**
   * The part of the Ruby object space the validation reads: the constants each
   * module defines (or the ::NameError that looking one up raises, as an
   * autoload may), and each module's name.
   */
  datatype Env = Env(constants: map<(nat, string), Lookup>, moduleName: nat -> string)

  /** cget: a constant that is not in the table raises the plain ::NameError for it. */
  function CGet(env: Env, parent: nat, cname: string): (r: Lookup)
    ensures (parent, cname) !in env.constants ==> r == Raises(NameErrorInfo(Some(parent), cname))
  {
    if (parent, cname) in env.constants then env.constants[(parent, cname)]
    else Raises(NameErrorInfo(Some(parent), cname))
  }

  /** cpath: the constant path of `cname` inside `parent`. */
  function CPath(env: Env, parent: nat, cname: string): string {
    if parent == ObjectScope then cname else env.moduleName(parent) + "::" + cname
  }

  /** Every defined module is named after the constant path it is stored under. */
  predicate Canonical(env: Env) {
    forall key :: key in env.constants && env.constants[key].Defined? ==>
      env.constants[key].scope != ObjectScope &&
      env.moduleName(env.constants[key].scope) == CPath(env, key.0, key.1)
  }

  /** The constant name checked for segment `k`: camelized with its path `lib/ns[0]/…/ns[k]`. */
  function Cname(inf: GemInflector, lib: Path, ns: seq<string>, k: nat): string
    requires k < |ns|
  {
    inf.Camelize(ns[k], lib + ns[..k + 1])
  }

  /** The constant names of all segments, outermost first. */
  function Cnames(inf: GemInflector, lib: Path, ns: seq<string>): (r: seq<string>)
    ensures |r| == |ns|
    ensures forall k :: 0 <= k < |ns| ==> r[k] == Cname(inf, lib, ns, k)
  {
    seq(|ns|, k requires 0 <= k < |ns| => Cname(inf, lib, ns, k))
  }

  /**
   * The rescue clause: only the NameError for this very constant becomes
   * NamespaceNotFound; asking a receiverless NameError for its receiver raises
   * ArgumentError instead.
   */
  function Rescue(env: Env, parent: nat, cname: string, e: NameErrorInfo): Raised {
    match e.receiver
    case None => NoReceiverErr
    case Some(receiver) =>
      if receiver == parent && e.name == cname then
        Zeitwerk(NamespaceNotFoundErr(CPath(env, parent, cname)))
      else
        NameErr(e)
  }

  /** Validation of segments `i..` starting in `parent`: the module reached, or what is raised. */
  function ResolveFrom(env: Env, inf: GemInflector, lib: Path, ns: seq<string>, i: nat, parent: nat): Result<nat, Raised>
    requires i <= |ns|
    decreases |ns| - i
  {
    if i == |ns| then Success(parent)
    else
      var cname := Cname(inf, lib, ns, i);
      match CGet(env, parent, cname)
      case Defined(m) => ResolveFrom(env, inf, lib, ns, i + 1, m)
      case Raises(e) => Failure(Rescue(env, parent, cname, e))
  }

  /** Validation of the whole chain, starting in Object. */
  function Resolve(env: Env, inf: GemInflector, lib: Path, ns: seq<string>): Result<nat, Raised> {
    ResolveFrom(env, inf, lib, ns, 0, ObjectScope)
  }

  /** The module reached after the first `k` segments, when each of them is defined. */
  function Scope(env: Env, inf: GemInflector, lib: Path, ns: seq<string>, k: nat): Option<nat>
    requires k <= |ns|
  {
    if k == 0 then Some(ObjectScope)
    else
      match Scope(env, inf, lib, ns, k - 1)
      case None => None
      case Some(p) =>
        match CGet(env, p, Cname(inf, lib, ns, k - 1))
        case Defined(m) => Some(m)
        case Raises(_) => None
  }

  /** Once the first `k` segments are defined, validation goes on from the module they reach. */
  lemma {:induction false} ResolveAfterPrefix(env: Env, inf: GemInflector, lib: Path, ns: seq<string>, k: nat)
    requires k <= |ns| && Scope(env, inf, lib, ns, k).Some?
    ensures Resolve(env, inf, lib, ns) == ResolveFrom(env, inf, lib, ns, k, Scope(env, inf, lib, ns, k).value)
  {
    if k > 0 {
      ResolveAfterPrefix(env, inf, lib, ns, k - 1);
    }
  }

  /** Between a defined prefix and an undefined one there is a first undefined segment. */
  lemma {:induction false} FirstGap(env: Env, inf: GemInflector, lib: Path, ns: seq<string>, k: nat)
    requires k <= |ns| && Scope(env, inf, lib, ns, k).None?
    ensures exists j :: 0 <= j < k && Scope(env, inf, lib, ns, j).Some? && Scope(env, inf, lib, ns, j + 1).None?
  {
    if Scope(env, inf, lib, ns, k - 1).Some? {
      assert Scope(env, inf, lib, ns, k - 1 + 1).None?;
    } else {
      FirstGap(env, inf, lib, ns, k - 1);
    }
  }

  /** Validation succeeds exactly when every segment is defined, reaching the innermost module. */
  lemma ResolveSucceedsIffAllDefined(env: Env, inf: GemInflector, lib: Path, ns: seq<string>, m: nat)
    ensures Resolve(env, inf, lib, ns) == Success(m) <==> Scope(env, inf, lib, ns, |ns|) == Some(m)
  {
    if Scope(env, inf, lib, ns, |ns|).Some? {
      ResolveAfterPrefix(env, inf, lib, ns, |ns|);
    } else {
      FirstGap(env, inf, lib, ns, |ns|);
      var j :| 0 <= j < |ns| && Scope(env, inf, lib, ns, j).Some? && Scope(env, inf, lib, ns, j + 1).None?;
      ResolveAfterPrefix(env, inf, lib, ns, j);
    }
  }

  /**
   * The first undefined segment decides the outcome, and no later segment is
   * looked at: a NameError for that very constant in that very module becomes
   * NamespaceNotFound for its constant path, a NameError without a receiver
   * gives way to the ArgumentError of asking for one, and any other NameError
   * propagates unchanged.
   */
  lemma FirstFailureDecides(env: Env, inf: GemInflector, lib: Path, ns: seq<string>, k: nat, e: NameErrorInfo)
    requires k < |ns| && Scope(env, inf, lib, ns, k).Some?
    requires CGet(env, Scope(env, inf, lib, ns, k).value, Cname(inf, lib, ns, k)) == Raises(e)
    ensures var p, c := Scope(env, inf, lib, ns, k).value, Cname(inf, lib, ns, k);
      Resolve(env, inf, lib, ns)
        == if e.receiver.None? then Failure(NoReceiverErr)
           else if e.receiver.value == p && e.name == c then Failure(Zeitwerk(NamespaceNotFoundErr(CPath(env, p, c))))
           else Failure(NameErr(e))
  {
    ResolveAfterPrefix(env, inf, lib, ns, k);
  }

  /** In a canonical object space, the module reached after `k > 0` segments is named by their `::`-join. */
  lemma {:induction false} ScopeName(env: Env, inf: GemInflector, lib: Path, ns: seq<string>, k: nat)
    requires Canonical(env)
    requires 0 < k <= |ns| && Scope(env, inf, lib, ns, k).Some?
    ensures Scope(env, inf, lib, ns, k).value != ObjectScope
    ensures env.moduleName(Scope(env, inf, lib, ns, k).value) == Join(Cnames(inf, lib, ns)[..k], "::")
  {
    var p := Scope(env, inf, lib, ns, k - 1).value;
    var c := Cname(inf, lib, ns, k - 1);
    assert (p, c) in env.constants;
    var names := Cnames(inf, lib, ns);
    if k == 1 {
      assert names[..1] == [c];
    } else {
      ScopeName(env, inf, lib, ns, k - 1);
      assert names[..k] == names[..k - 1] + [c];
      JoinSnoc(names[..k - 1], c, "::");
    }
  }

  /**
   * When segment `k` is the first one missing from its parent, validation
   * raises NamespaceNotFound for the constant path of segments 0..k, and
   * never for a later one.
   */
  lemma NamespaceNotFoundNamesPrefix(env: Env, inf: GemInflector, lib: Path, ns: seq<string>, k: nat)
    requires Canonical(env)
    requires k < |ns| && Scope(env, inf, lib, ns, k).Some?
    requires (Scope(env, inf, lib, ns, k).value, Cname(inf, lib, ns, k)) !in env.constants
    ensures Resolve(env, inf, lib, ns)
         == Failure(Zeitwerk(NamespaceNotFoundErr(Join(Cnames(inf, lib, ns)[..k + 1], "::"))))
  {
    var p := Scope(env, inf, lib, ns, k).value;
    var c := Cname(inf, lib, ns, k);
    var names := Cnames(inf, lib, ns);
    FirstFailureDecides(env, inf, lib, ns, k, NameErrorInfo(Some(p), c));
    if k == 0 {
      assert names[..1] == [c];
    } else {
      ScopeName(env, inf, lib, ns, k);
      assert names[..k + 1] == names[..k] + [c];
      JoinSnoc(names[..k], c, "::");
    }
  }

  /**
   * The two failures exercised for `lib/ns1/ns2/my_gem.rb`: with nothing
   * defined the message names Ns1; with only Ns1 defined it names Ns1::Ns2.
   */
  lemma NamespaceNotFoundExamples(root: Path, base: BaseCamelize)
    requires base("ns1", root + ["lib", "ns1"]) == "Ns1"
    requires base("ns2", root + ["lib", "ns1", "ns2"]) == "Ns2"
    ensures var inf := NewGemInflector(root + ["lib", "ns1", "ns2", "my_gem.rb"], base);
      Resolve(Env(map[], m => ""), inf, root + ["lib"], ["ns1", "ns2"])
        == Failure(Zeitwerk(NamespaceNotFoundErr("Ns1")))
    ensures var inf := NewGemInflector(root + ["lib", "ns1", "ns2", "my_gem.rb"], base);
      Resolve(Env(map[(ObjectScope, "Ns1") := Defined(1)], m => if m == 1 then "Ns1" else ""),
              inf, root + ["lib"], ["ns1", "ns2"])
        == Failure(Zeitwerk(NamespaceNotFoundErr("Ns1::Ns2")))
  {
    var inf := NewGemInflector(root + ["lib", "ns1", "ns2", "my_gem.rb"], base);
    var lib, ns := root + ["lib"], ["ns1", "ns2"];
    assert |inf.versionFile| == |root| + 5;
    assert lib + ns[..1] == root + ["lib", "ns1"];
    assert lib + ns[..2] == root + ["lib", "ns1", "ns2"];
    assert Cname(inf, lib, ns, 0) == "Ns1";
    assert Cname(inf, lib, ns, 1) == "Ns2";
    var env := Env(map[(ObjectScope, "Ns1") := Defined(1)], m => if m == 1 then "Ns1" else "");
    assert CGet(env, ObjectScope, "Ns1") == Defined(1);
    assert (1, "Ns2") !in env.constants;
    assert CPath(env, 1, "Ns2") == "Ns1::Ns2";
    assert ResolveFrom(env, inf, lib, ns, 1, 1) == Failure(Zeitwerk(NamespaceNotFoundErr("Ns1::Ns2")));
  }

  // ---------------------------------------------------------------------------
  // Extra-file scan
  // ---------------------------------------------------------------------------

  /** One entry yielded by `ls(dir)`: its basename and whether `dir?` holds of it. */
  datatype LsEntry = LsEntry(basename: string, isDir: bool)

  /** The content of one extra-file warning. */
  datatype Warning = Warning(cname: string, ftype: string, abspath: Path, basename: string)

  /** The one entry of `lib` besides the entry point that the gem is expected to have. */
  function ExpectedNamespaceDir(entryPoint: Path, lib: Path, ns: seq<string>): Path {
    if ns == [] then Dirname(entryPoint) + [DeleteSuffix(Basename(entryPoint), ".rb")]
    else lib + [ns[0]]
  }

  /**
   * For a gem that extends no namespace, the expected entry is the directory
   * that holds its version file.
   */
  lemma ExpectedDirHoldsVersionFile(entryPoint: Path, lib: Path)
    requires IsLibRootOf(Dirname(entryPoint), lib, [])
    requires |entryPoint| > 0 && Basename(entryPoint) != ".rb"
    ensures ExpectedNamespaceDir(entryPoint, lib, []) == Dirname(VersionFile(entryPoint))
    ensures ExpectedNamespaceDir(entryPoint, lib, []) == lib + [Stem(entryPoint)]
  {
  }

  /** The entries of `lib` the scan leaves alone. */
  predicate Skipped(e: LsEntry, lib: Path, entryPoint: Path, expected: Path) {
    lib + [e.basename] == entryPoint || lib + [e.basename] == expected
  }

  /** The warning for one extra entry, with the constant name the loader's inflector gives it. */
  function WarningFor(e: LsEntry, lib: Path, inf: GemInflector): Warning {
    var abspath := lib + [e.basename];
    Warning(inf.Camelize(DeleteSuffix(e.basename, ".rb"), abspath), if e.isDir then "directory" else "file",
            abspath, e.basename)
  }

  /** The warnings of a scan of `listing`, in listing order. */
  function ScanWarnings(listing: seq<LsEntry>, lib: Path, entryPoint: Path, expected: Path, inf: GemInflector): seq<Warning> {
    if listing == [] then []
    else
      var e := listing[|listing| - 1];
      ScanWarnings(listing[..|listing| - 1], lib, entryPoint, expected, inf)
        + (if Skipped(e, lib, entryPoint, expected) then [] else [WarningFor(e, lib, inf)])
  }

  /** Scanning one more entry adds at most the warning for that entry. */
  lemma ScanStep(listing: seq<LsEntry>, i: nat, lib: Path, entryPoint: Path, expected: Path, inf: GemInflector)
    requires i < |listing|
    ensures ScanWarnings(listing[..i + 1], lib, entryPoint, expected, inf)
         == ScanWarnings(listing[..i], lib, entryPoint, expected, inf)
            + (if Skipped(listing[i], lib, entryPoint, expected) then [] else [WarningFor(listing[i], lib, inf)])
  {
    assert listing[..i + 1][..i] == listing[..i];
  }

  /** The entries of `listing` the scan does not skip, in listing order. */
  function Extras(listing: seq<LsEntry>, lib: Path, entryPoint: Path, expected: Path): seq<LsEntry> {
    if listing == [] then []
    else
      (if Skipped(listing[0], lib, entryPoint, expected) then [] else [listing[0]])
        + Extras(listing[1..], lib, entryPoint, expected)
  }

  /** The warnings for `entries`, one each, in order. */
  function WarningsFor(entries: seq<LsEntry>, lib: Path, inf: GemInflector): (r: seq<Warning>)
    ensures |r| == |entries| && forall k :: 0 <= k < |entries| ==> r[k] == WarningFor(entries[k], lib, inf)
  {
    seq(|entries|, k requires 0 <= k < |entries| => WarningFor(entries[k], lib, inf))
  }

  lemma {:induction false} ExtrasSnoc(listing: seq<LsEntry>, x: LsEntry, lib: Path, entryPoint: Path, expected: Path)
    ensures Extras(listing + [x], lib, entryPoint, expected)
         == Extras(listing, lib, entryPoint, expected) + (if Skipped(x, lib, entryPoint, expected) then [] else [x])
  {
    if listing == [] {
      assert [x][1..] == [];
    } else {
      assert (listing + [x])[1..] == listing[1..] + [x];
      ExtrasSnoc(listing[1..], x, lib, entryPoint, expected);
    }
  }

  /**
   * The scan emits exactly one warning per entry it does not skip, in listing
   * order: it is the filter of the listing followed by the warning of each
   * remaining entry.
   */
  lemma {:induction false} ScanIsFilterThenMap(listing: seq<LsEntry>, lib: Path, entryPoint: Path, expected: Path, inf: GemInflector)
    ensures ScanWarnings(listing, lib, entryPoint, expected, inf)
         == WarningsFor(Extras(listing, lib, entryPoint, expected), lib, inf)
  {
    if listing != [] {
      var init, x := listing[..|listing| - 1], listing[|listing| - 1];
      ScanIsFilterThenMap(init, lib, entryPoint, expected, inf);
      assert listing == init + [x];
      ExtrasSnoc(init, x, lib, entryPoint, expected);
    }
  }

  /** A warning is emitted for an entry exactly when the entry is neither the entry point nor the expected one. */
  lemma {:induction false} ScanWarnsExactlyExtras(listing: seq<LsEntry>, lib: Path, entryPoint: Path, expected: Path, inf: GemInflector, w: Warning)
    ensures w in ScanWarnings(listing, lib, entryPoint, expected, inf)
        <==> exists e :: e in listing && !Skipped(e, lib, entryPoint, expected) && w == WarningFor(e, lib, inf)
  {
    if listing != [] {
      var init := listing[..|listing| - 1];
      ScanWarnsExactlyExtras(init, lib, entryPoint, expected, inf, w);
      assert listing == init + [listing[|listing| - 1]];
    }
  }

  /** At most one warning per entry, and none at all when every entry is expected. */
  lemma {:induction false} ScanSilentIffAllExpected(listing: seq<LsEntry>, lib: Path, entryPoint: Path, expected: Path, inf: GemInflector)
    ensures |ScanWarnings(listing, lib, entryPoint, expected, inf)| <= |listing|
    ensures ScanWarnings(listing, lib, entryPoint, expected, inf) == []
        <==> forall e :: e in listing ==> Skipped(e, lib, entryPoint, expected)
  {
    if listing != [] {
      var init := listing[..|listing| - 1];
      ScanSilentIffAllExpected(init, lib, entryPoint, expected, inf);
      assert listing == init + [listing[|listing| - 1]];
    }
  }

  /**
   * The scan never names a constant VERSION by the gem inflector's override:
   * the version file lies below the expected directory, not directly in `lib`.
   */
  lemma ScanUsesBaseInflection(listing: seq<LsEntry>, entryPoint: Path, lib: Path, ns: seq<string>, inf: GemInflector, w: Warning)
    requires IsLibRootOf(Dirname(entryPoint), lib, ns) && inf.versionFile == VersionFile(entryPoint)
    requires w in ScanWarnings(listing, lib, entryPoint, ExpectedNamespaceDir(entryPoint, lib, ns), inf)
    ensures w.cname == inf.base(DeleteSuffix(w.basename, ".rb"), w.abspath)
  {
    ScanWarnsExactlyExtras(listing, lib, entryPoint, ExpectedNamespaceDir(entryPoint, lib, ns), inf, w);
    var e :| e in listing && w == WarningFor(e, lib, inf);
    assert |w.abspath| == |lib| + 1 < |inf.versionFile|;
  }

  /** The same, for every warning of the scan at once. */
  lemma ScanUsesBaseInflectionAll(listing: seq<LsEntry>, entryPoint: Path, lib: Path, ns: seq<string>, inf: GemInflector)
    requires IsLibRootOf(Dirname(entryPoint), lib, ns) && inf.versionFile == VersionFile(entryPoint)
    ensures forall w :: w in ScanWarnings(listing, lib, entryPoint, ExpectedNamespaceDir(entryPoint, lib, ns), inf)
                        ==> w.cname == inf.base(DeleteSuffix(w.basename, ".rb"), w.abspath)
  {
    forall w | w in ScanWarnings(listing, lib, entryPoint, ExpectedNamespaceDir(entryPoint, lib, ns), inf)
      ensures w.cname == inf.base(DeleteSuffix(w.basename, ".rb"), w.abspath)
    {
      ScanUsesBaseInflection(listing, entryPoint, lib, ns, inf, w);
    }
  }

  /**
   * A gem extending Ns1::Ns2 whose `lib` holds `ns1/` and an extra `foo.rb`
   * gets exactly one warning, for the file foo.rb, named Foo.
   */
  lemma ExtraFileExample(root: Path, base: BaseCamelize)
    requires base("foo", root + ["lib", "foo.rb"]) == "Foo"
    ensures var entryPoint := root + ["lib", "ns1", "ns2", "my_gem.rb"];
      ScanWarnings([LsEntry("ns1", true), LsEntry("foo.rb", false)], root + ["lib"], entryPoint,
                   ExpectedNamespaceDir(entryPoint, root + ["lib"], ["ns1", "ns2"]),
                   NewGemInflector(entryPoint, base))
        == [Warning("Foo", "file", root + ["lib", "foo.rb"], "foo.rb")]
  {
    var entryPoint := root + ["lib", "ns1", "ns2", "my_gem.rb"];
    var lib := root + ["lib"];
    var listing := [LsEntry("ns1", true), LsEntry("foo.rb", false)];
    assert DeleteSuffix("foo.rb", ".rb") == "foo" by {
      assert "foo.rb"[3..] == ".rb";
    }
    assert lib + ["foo.rb"] == root + ["lib", "foo.rb"];
    assert |lib + ["foo.rb"]| != |entryPoint|;
    assert |NewGemInflector(entryPoint, base).versionFile| != |lib + ["foo.rb"]|;
    assert lib + ["foo.rb"] != lib + ["ns1"] by { assert (lib + ["foo.rb"])[|lib|] != (lib + ["ns1"])[|lib|]; }
    var expected := ExpectedNamespaceDir(entryPoint, lib, ["ns1", "ns2"]);
    var inf := NewGemInflector(entryPoint, base);
    assert expected == lib + ["ns1"];
    assert listing[..1] == [LsEntry("ns1", true)];
    assert [LsEntry("ns1", true)][..0] == [];
    assert Skipped(LsEntry("ns1", true), lib, entryPoint, expected);
    assert ScanWarnings([LsEntry("ns1", true)], lib, entryPoint, expected, inf) == [];
    assert !Skipped(LsEntry("foo.rb", false), lib, entryPoint, expected);
    assert WarningFor(LsEntry("foo.rb", false), lib, inf) == Warning("Foo", "file", root + ["lib", "foo.rb"], "foo.rb");
  }

  /** A gem without namespaces whose `lib` holds only `my_gem.rb` and `my_gem/` gets no warning. */
  lemma OnlyExpectedEntriesExample(root: Path, base: BaseCamelize)
    ensures var entryPoint := root + ["lib", "my_gem.rb"];
      ScanWarnings([LsEntry("my_gem.rb", false), LsEntry("my_gem", true)], root + ["lib"], entryPoint,
                   ExpectedNamespaceDir(entryPoint, root + ["lib"], []), NewGemInflector(entryPoint, base))
        == []
  {
    var entryPoint := root + ["lib", "my_gem.rb"];
    var lib := root + ["lib"];
    assert DeleteSuffix("my_gem.rb", ".rb") == "my_gem" by {
      assert "my_gem.rb"[6..] == ".rb";
    }
    assert Dirname(entryPoint) == lib;
    ScanSilentIffAllExpected([LsEntry("my_gem.rb", false), LsEntry("my_gem", true)], lib, entryPoint,
                             ExpectedNamespaceDir(entryPoint, lib, []), NewGemInflector(entryPoint, base));
  }

  const WarningPrefix: string := "WARNING: "
  const ConstantLead: string := "Zeitwerk defines the constant "
  const PathIndent: string := "\n\n    "
  const IgnoreAdvice: string :=
    "\n\nTo prevent that, please configure the loader to ignore it:\n\n    loader.ignore(\"#{__dir__}/"
  const SilenceAdvice: string := "\")\n\nOtherwise, there is a flag to silence this warning:\n\n    "
  const SilenceHint: string := "Zeitwerk::Loader.for_gem(warn_on_extra_files: false)"

  /** The first line of the warning, after "WARNING: ". */
  function WarningHead(w: Warning): string {
    ConstantLead + w.cname + " after the " + w.ftype
  }

  /** The text passed to `warn` for one extra entry. */
  function WarningText(w: Warning): string {
    WarningPrefix + WarningHead(w) + PathIndent + PathString(w.abspath)
      + IgnoreAdvice + w.basename + SilenceAdvice + SilenceHint + "\n"
  }

  /** Each of the second, fourth and eighth of nine concatenated parts occurs in the whole. */
  lemma InfixOfParts(p0: string, p1: string, p2: string, p3: string, p4: string, p5: string, p6: string,
                     p7: string, p8: string)
    ensures IsInfix(p1, p0 + p1 + p2 + p3 + p4 + p5 + p6 + p7 + p8)
    ensures IsInfix(p3, p0 + p1 + p2 + p3 + p4 + p5 + p6 + p7 + p8)
    ensures IsInfix(p7, p0 + p1 + p2 + p3 + p4 + p5 + p6 + p7 + p8)
  {
    var s := p0 + p1 + p2 + p3 + p4 + p5 + p6 + p7 + p8;
    assert InfixAt(p1, s, |p0|);
    assert InfixAt(p3, s, |p0 + p1 + p2|);
    assert InfixAt(p7, s, |p0 + p1 + p2 + p3 + p4 + p5 + p6|);
  }

  /** The warning names the constant and the kind of entry, the entry's path, and the flag that silences it. */
  lemma WarningTextMentions(w: Warning)
    ensures IsInfix(WarningHead(w), WarningText(w))
    ensures IsInfix(PathString(w.abspath), WarningText(w))
    ensures IsInfix(SilenceHint, WarningText(w))
  {
    InfixOfParts(WarningPrefix, WarningHead(w), PathIndent, PathString(w.abspath), IgnoreAdvice, w.basename,
                 SilenceAdvice, SilenceHint, "\n");
  }

  // ---------------------------------------------------------------------------
  // The loader
  // ---------------------------------------------------------------------------

  /** What the loader asks of its base Loader, in order. */
  datatype Effect =
    | Ignored(path: Path)       // Loader#ignore
    | DirPushed(path: Path)     // Loader#push_dir
    | Warned(warning: Warning)  // Kernel#warn
    | BaseSetup                 // Loader#setup

  function Warns(ws: seq<Warning>): (r: seq<Effect>)
    ensures |r| == |ws| && forall k :: 0 <= k < |ws| ==> r[k] == Warned(ws[k])
  {
    seq(|ws|, k requires 0 <= k < |ws| => Warned(ws[k]))
  }

  /**
   * What construction asks of the base Loader: ignoring `lib/<tag>.rb` when the
   * gem extends a namespace and that file exists, then pushing `lib`.
   */
  function ConstructionEffects(lib: Path, ns: seq<string>, tag: string, existing: set<Path>): seq<Effect> {
    (if ns != [] && ConvenienceFile(lib, tag) in existing then [Ignored(ConvenienceFile(lib, tag))] else [])
      + [DirPushed(lib)]
  }

  /**
   * The outcome of constructing a gem loader whose entry point has the lib
   * root `lib` and the chain `ns`: the validation's error when the chain is
   * not empty and validation fails, otherwise a valid loader with these
   * fields and effects.
   */
  ghost predicate Constructed(r: Result<GemLoader, Raised>, entryPoint: Path, lib: Path, ns: seq<string>,
                              warnOnExtraFiles: bool, base: BaseCamelize, env: Env, existing: set<Path>)
    reads if r.Success? then {r.value} else {}
  {
    var inf := NewGemInflector(entryPoint, base);
    if ns != [] && Resolve(env, inf, lib, ns).Failure? then
      r == Failure(Resolve(env, inf, lib, ns).error)
    else
      && r.Success? && r.value.Valid()
      && r.value.entryPoint == entryPoint && r.value.lib == lib && r.value.namespaces == ns
      && r.value.inflector == inf && r.value.warnOnExtraFiles == warnOnExtraFiles
      && r.value.tag == Tag(ns, entryPoint)
      && r.value.effects == ConstructionEffects(lib, ns, Tag(ns, entryPoint), existing)
  }

  lemma WarnsAppend(ws: seq<Warning>, w: Warning)
    ensures Warns(ws + [w]) == Warns(ws) + [Warned(w)]
  {
  }

  class GemLoader {
    const entryPoint: Path
    const lib: Path
    const namespaces: seq<string>
    const inflector: GemInflector
    const warnOnExtraFiles: bool
    var tag: string
    /** The calls made on the base Loader so far. */
    var effects: seq<Effect>

    /** The lib root and chain belong to the entry point, and so does the inflector's version file. */
    predicate Valid()
      reads this
    {
      IsLibRootOf(Dirname(entryPoint), lib, namespaces) && inflector.versionFile == VersionFile(entryPoint)
    }

    constructor (entryPoint: Path, lib: Path, namespaces: seq<string>, inflector: GemInflector,
                 warnOnExtraFiles: bool, tag: string)
      ensures this.entryPoint == entryPoint && this.lib == lib && this.namespaces == namespaces
      ensures this.inflector == inflector && this.warnOnExtraFiles == warnOnExtraFiles && this.tag == tag
      ensures effects == []
    {
      this.entryPoint := entryPoint;
      this.lib := lib;
      this.namespaces := namespaces;
      this.inflector := inflector;
      this.warnOnExtraFiles := warnOnExtraFiles;
      this.tag := tag;
      effects := [];
    }

    /**
     * GemLoader.new(entry_point, warn_on_extra_files:), with `entryPoint`
     * already expanded. `constants` is the object space when the gem is
     * loaded and `existing` the files `File.exist?` finds.
     */
    static method New(entryPoint: Path, warnOnExtraFiles: bool, base: BaseCamelize, env: Env, existing: set<Path>)
      returns (r: Result<GemLoader, Raised>)
      ensures LibRoot(Dirname(entryPoint)).None? ==>
        r == Failure(Zeitwerk(LibNotFoundErr(PathString(entryPoint))))
      ensures LibRoot(Dirname(entryPoint)).Some? ==>
        Constructed(r, entryPoint, LibRoot(Dirname(entryPoint)).value.0, LibRoot(Dirname(entryPoint)).value.1,
                    warnOnExtraFiles, base, env, existing)
      ensures r.Success? ==> fresh(r.value)
    {
      var found := FindLib(entryPoint);
      if found.Failure? {
        LibRootExists(Dirname(entryPoint));
        return Failure(Zeitwerk(found.error));
      }
      LibRootComplete(Dirname(entryPoint), found.value.0, found.value.1);
      r := Initialize(entryPoint, found.value.0, found.value.1, warnOnExtraFiles, base, env, existing);
    }

    /** The rest of GemLoader#initialize, once the lib root and chain are known. */
    static method Initialize(entryPoint: Path, lib: Path, ns: seq<string>, warnOnExtraFiles: bool,
                             base: BaseCamelize, env: Env, existing: set<Path>)
      returns (r: Result<GemLoader, Raised>)
      requires IsLibRootOf(Dirname(entryPoint), lib, ns)
      ensures Constructed(r, entryPoint, lib, ns, warnOnExtraFiles, base, env, existing)
      ensures r.Success? ==> fresh(r.value)
    {
      var loader := new GemLoader(entryPoint, lib, ns, NewGemInflector(entryPoint, base), warnOnExtraFiles,
                                  Stem(entryPoint));
      if |ns| > 0 {
        loader.tag := Join(ns + [loader.tag], "-");
        var err := loader.EnsureNamespacesAreAlreadyDefined(env);
        if err.Some? {
          return Failure(err.value);
        }
        var convenience := ConvenienceFile(lib, loader.tag);
        if convenience in existing {
          loader.Ignore(convenience);
        }
      }
      loader.PushDir(lib);
      r := Success(loader);
    }

    /** Loader#ignore, recorded. */
    method Ignore(path: Path)
      modifies this`effects
      ensures effects == old(effects) + [Ignored(path)]
    {
      effects := effects + [Ignored(path)];
    }

    /** Loader#push_dir, recorded. */
    method PushDir(path: Path)
      modifies this`effects
      ensures effects == old(effects) + [DirPushed(path)]
    {
      effects := effects + [DirPushed(path)];
    }

    /**
     * GemLoader#ensure_namespaces_are_already_defined: looks up each segment's
     * constant in the module reached so far; None when all are defined,
     * otherwise what is raised.
     */
    method EnsureNamespacesAreAlreadyDefined(env: Env) returns (err: Option<Raised>)
      ensures err.None? <==> Resolve(env, inflector, lib, namespaces).Success?
      ensures err.Some? ==> err.value == Resolve(env, inflector, lib, namespaces).error
    {
      var dir := lib;
      var parent := ObjectScope;
      var i := 0;
      while i < |namespaces|
        invariant i <= |namespaces|
        invariant dir == lib + namespaces[..i]
        invariant Resolve(env, inflector, lib, namespaces) == ResolveFrom(env, inflector, lib, namespaces, i, parent)
        decreases |namespaces| - i
      {
        dir := dir + [namespaces[i]];
        assert dir == lib + namespaces[..i + 1];
        var cname := inflector.Camelize(namespaces[i], dir);
        match CGet(env, parent, cname) {
          case Defined(m) =>
            parent := m;
          case Raises(e) =>
            if e.receiver.None? {
              return Some(NoReceiverErr);
            } else if e.receiver.value == parent && e.name == cname {
              return Some(Zeitwerk(NamespaceNotFoundErr(CPath(env, parent, cname))));
            } else {
              return Some(NameErr(e));
            }
        }
        i := i + 1;
      }
      return None;
    }

    /** GemLoader#setup: the scan when the flag is set, then the base setup. */
    method Setup(listing: seq<LsEntry>)
      requires Valid()
      modifies this`effects
      ensures effects == old(effects)
        + (if warnOnExtraFiles
           then Warns(ScanWarnings(listing, lib, entryPoint, ExpectedNamespaceDir(entryPoint, lib, namespaces), inflector))
           else [])
        + [BaseSetup]
    {
      if warnOnExtraFiles {
        WarnOnExtraFiles(listing);
      }
      effects := effects + [BaseSetup];
    }

    /**
     * GemLoader#warn_on_extra_files: one warning per entry of `ls(lib)` that is
     * neither the entry point nor the expected namespace entry.
     */
    method WarnOnExtraFiles(listing: seq<LsEntry>)
      requires Valid()
      modifies this`effects
      ensures effects == old(effects)
        + Warns(ScanWarnings(listing, lib, entryPoint, ExpectedNamespaceDir(entryPoint, lib, namespaces), inflector))
      ensures forall w :: w in ScanWarnings(listing, lib, entryPoint, ExpectedNamespaceDir(entryPoint, lib, namespaces), inflector)
                          ==> w.cname == inflector.base(DeleteSuffix(w.basename, ".rb"), w.abspath)
    {
      var expected := ExpectedNamespaceDir(entryPoint, lib, namespaces);
      for i := 0 to |listing|
        invariant effects == old(effects) + Warns(ScanWarnings(listing[..i], lib, entryPoint, expected, inflector))
      {
        var e := listing[i];
        ScanStep(listing, i, lib, entryPoint, expected, inflector);
        var abspath := lib + [e.basename];
        if abspath == entryPoint || abspath == expected {
          continue;
        }
        var cname := inflector.Camelize(DeleteSuffix(e.basename, ".rb"), abspath);
        var ftype := if e.isDir then "directory" else "file";
        WarnsAppend(ScanWarnings(listing[..i], lib, entryPoint, expected, inflector), WarningFor(e, lib, inflector));
        effects := effects + [Warned(Warning(cname, ftype, abspath, e.basename))];
      }
      assert listing[..|listing|] == listing;
      ScanUsesBaseInflectionAll(listing, entryPoint, lib, namespaces, inflector);
    }
  }
}
