/**
 * The gem inflector (lib/zeitwerk/gem_inflector.rb): the loader's inflector,
 * which maps the gem's own version file to the constant VERSION and leaves
 * every other file to the base inflector.
 */
module GemInflectors {
  import opened Paths

  /**
   * The base Inflector#camelize(basename, abspath). Its code (and its
   * `inflect` overrides) is not part of this model, so it is a parameter.
   */
  type BaseCamelize = (string, Path) -> string

  /** `dirname(entry)/<entry stem>/version.rb`, fixed when the inflector is created. */
  function VersionFile(entryPoint: Path): (v: Path)
    ensures |v| == |Dirname(entryPoint)| + 2
    ensures Basename(v) == "version.rb"
    ensures Basename(Dirname(v)) == Stem(entryPoint)
    ensures Dirname(Dirname(v)) == Dirname(entryPoint)
  {
    Dirname(entryPoint) + [Stem(entryPoint), "version.rb"]
  }

  datatype GemInflector = GemInflector(versionFile: Path, base: BaseCamelize) {
    /** GemInflector#camelize: VERSION for the version file, the base inflection otherwise. */
    function Camelize(basename: string, abspath: Path): string {
      if abspath == versionFile then "VERSION" else base(basename, abspath)
    }
  }

  /** GemInflector.new(entry_point) on top of a base inflector. */
  function NewGemInflector(entryPoint: Path, base: BaseCamelize): GemInflector {
    GemInflector(VersionFile(entryPoint), base)
  }

  /**
   * Two gem inflectors over the same base agree on every file when their
   * entry points have the same directory and the same stem: the version file
   * depends on nothing else.
   */
  lemma VersionFileDependsOnlyOnDirAndStem(e1: Path, e2: Path, base: BaseCamelize, basename: string, abspath: Path)
    requires Dirname(e1) == Dirname(e2) && Stem(e1) == Stem(e2)
    ensures NewGemInflector(e1, base).Camelize(basename, abspath)
         == NewGemInflector(e2, base).Camelize(basename, abspath)
  {
    var v1, v2 := VersionFile(e1), VersionFile(e2);
    assert v1 == Dirname(Dirname(v1)) + [Basename(Dirname(v1)), Basename(v1)];
    assert v2 == Dirname(Dirname(v2)) + [Basename(Dirname(v2)), Basename(v2)];
  }

  /**
   * The override is decided by the path alone: the version file is VERSION
   * whatever the basename argument, and every other path gets exactly the base
   * inflection. So when the base inflector does not itself answer VERSION, the
   * answer is VERSION exactly at the version file.
   */
  lemma OverrideIsByPath(inf: GemInflector, basename: string, abspath: Path)
    ensures abspath == inf.versionFile ==> inf.Camelize(basename, abspath) == "VERSION"
    ensures abspath != inf.versionFile ==> inf.Camelize(basename, abspath) == inf.base(basename, abspath)
    ensures inf.base(basename, abspath) != "VERSION" ==>
      (inf.Camelize(basename, abspath) == "VERSION" <==> abspath == inf.versionFile)
  {
  }

  /**
   * For the gem entry lib/my_gem.rb, lib/my_gem/version.rb is VERSION while
   * lib/my_gem/ns/version.rb and lib/my_gem/foo.rb are inflected normally.
   */
  lemma GemExamples(base: BaseCamelize, root: Path)
    ensures var inf := NewGemInflector(root + ["lib", "my_gem.rb"], base);
      && inf.Camelize("version", root + ["lib", "my_gem", "version.rb"]) == "VERSION"
      && inf.Camelize("version", root + ["lib", "my_gem", "ns", "version.rb"])
         == base("version", root + ["lib", "my_gem", "ns", "version.rb"])
      && inf.Camelize("foo", root + ["lib", "my_gem", "foo.rb"]) == base("foo", root + ["lib", "my_gem", "foo.rb"])
  {
    var e := root + ["lib", "my_gem.rb"];
    assert Stem(e) == "my_gem" by { assert Basename(e) == "my_gem" + ".rb"; }
    assert Dirname(e) == root + ["lib"];
    var v := NewGemInflector(e, base).versionFile;
    assert v == root + ["lib", "my_gem", "version.rb"];
    assert |root + ["lib", "my_gem", "ns", "version.rb"]| != |v|;
    assert (root + ["lib", "my_gem", "foo.rb"])[|root| + 2] != v[|root| + 2];
  }

  /**
   * The same for the gem entry lib/ns1/ns2/my_gem.rb, which extends Ns1::Ns2:
   * lib/ns1/ns2/my_gem/version.rb is VERSION, lib/ns1/ns2/my_gem/ns/version.rb
   * is inflected normally.
   */
  lemma NamespacedGemExamples(base: BaseCamelize, root: Path)
    ensures var inf := NewGemInflector(root + ["lib", "ns1", "ns2", "my_gem.rb"], base);
      && inf.Camelize("version", root + ["lib", "ns1", "ns2", "my_gem", "version.rb"]) == "VERSION"
      && inf.Camelize("version", root + ["lib", "ns1", "ns2", "my_gem", "ns", "version.rb"])
         == base("version", root + ["lib", "ns1", "ns2", "my_gem", "ns", "version.rb"])
  {
    var e := root + ["lib", "ns1", "ns2", "my_gem.rb"];
    assert Stem(e) == "my_gem" by { assert Basename(e) == "my_gem" + ".rb"; }
    assert Dirname(e) == root + ["lib", "ns1", "ns2"];
    var v := NewGemInflector(e, base).versionFile;
    assert v == root + ["lib", "ns1", "ns2", "my_gem", "version.rb"];
    assert |root + ["lib", "ns1", "ns2", "my_gem", "ns", "version.rb"]| != |v|;
  }
}
