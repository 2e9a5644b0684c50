# Zeitwerk gem loader, modelled in Dafny

This project models the part of Zeitwerk that a gem uses to set up its own
loader, `Zeitwerk::GemLoader`, together with the gem inflector and the error
classes it raises.

- **Lib root and chain** (`find_lib`). Starting from the directory of the
  expanded entry point, and checking that directory first, the loader ascends
  to the nearest directory named `lib`. On the way it collects the basenames it
  passes, outermost first. These basenames are the namespaces the gem extends.
  Without such an ancestor, construction raises `LibNotFound`.
- **Tag and convenience file.** The tag is the entry point's stem. When the
  chain is not empty, the tag is the chain followed by the stem, joined with
  `-`. In that case `lib/<tag>.rb` is ignored if it exists. `lib` is always
  pushed as a root directory.
- **Namespace validation** (`ensure_namespaces_are_already_defined`). Each
  segment is camelized with its accumulated path and looked up in the module
  reached so far, starting at `Object`. The first missing constant raises
  `NamespaceNotFound` with its constant path. Any other `NameError` is re-raised
  unchanged.
- **Extra-file scan** (`warn_on_extra_files`). It runs in `setup` when the flag
  is set, before the base `setup`. It warns once for every entry of `ls(lib)`
  that is neither the entry point nor the expected namespace entry.
- **`GemInflector#camelize`.** It returns `VERSION` for
  `dirname(entry)/<stem>/version.rb` and delegates to the base inflector for
  every other path.
- **Error messages and hierarchy** of `Zeitwerk::Error` and its subclasses.

Modelling choices:

- Absolute paths are sequences of segments below `/` (`Paths.Path`).
  `File.dirname`, `File.basename(p, ".rb")` and `File.join` work on those
  segments. Two paths are compared segment by segment. This matches Ruby's
  string comparison as long as no segment contains `/`.
- The object space is an `Env`. It has a finite table from (module, constant
  name) to either a module or the `::NameError` that the lookup raises, plus
  each module's name. A constant that is not in the table raises the plain
  `NameError` for itself. `cpath` joins a module's name and a constant name
  with `::`; directly under `Object` it is the constant name alone.
- The loader is a class. Its fields are the instance variables of the Ruby
  object. Calls to the base `Loader` (`ignore`, `push_dir`, `setup`) and to
  `warn` are recorded, in order, in the `effects` log. A construction that
  raises is the static method `GemLoader.New`, which returns a `Result` holding
  either the loader or the raised exception.
- A `::NameError` carries an optional receiver. A `NameError` raised by hand
  has none, and asking it for `receiver` raises `ArgumentError`.
- Exceptions are the `Errors.Raised` values: a Zeitwerk error with its payload,
  a passed-through `::NameError`, or the `ArgumentError` from a missing
  receiver.

Facts of the code that the model keeps:

- The version file is `dirname(entry)/<stem>/version.rb` for every chain
  (`lib/zeitwerk/gem_inflector.rb:6-10`).
- `NamespaceNotFound` names the `::`-joined constant path of the missing
  namespace, such as `Ns1::Ns2` (`lib/zeitwerk/gem_loader.rb:73`).
- `setup` runs the scan on every call while the flag is set, so a second
  `setup` warns again (`lib/zeitwerk/gem_loader.rb:41-44`).

## Model

| member | source | states |
|---|---|---|
| `Paths.RemoveExt` | lib/zeitwerk/gem_loader.rb:26 | `File.basename(name, ".rb")` removes `.rb` exactly when it is a proper suffix, so that the result plus `.rb` is the name; otherwise the name is unchanged |
| `Strings.DeleteSuffix` | lib/zeitwerk/gem_loader.rb:93 | `delete_suffix(".rb")` gives a string that, followed by `.rb`, is the original string; a string without that suffix is unchanged |
| `Errors.ZeitwerkErrorsAreErrors` | lib/zeitwerk/error.rb:4-28 | `ReloadingDisabledError`, `LibNotFound` and `NamespaceNotFound` are proper subclasses of `Zeitwerk::Error` and are not `::NameError`s |
| `Errors.NameErrorHierarchy` | lib/zeitwerk/error.rb:13-14 | `Zeitwerk::NameError` is a `::NameError` and not a `Zeitwerk::Error`; the two roots are unrelated |
| `Errors.PassedThroughIsNotZeitwerk` | lib/zeitwerk/gem_loader.rb:71-76 | an escaping exception is a `Zeitwerk::Error` exactly when the loader raised it itself; a re-raised `NameError` and the `ArgumentError` of a missing receiver are not |
| `Errors.MessageDeterminesError` | lib/zeitwerk/error.rb:7-28 | every error can be read back, kind and payload, from its message, including the fixed `ReloadingDisabledError` text |
| `Errors.MessageInjective` | lib/zeitwerk/error.rb:16-28 | two errors with the same message are the same error |
| `Errors.NamespaceMessageFirstLine` | lib/zeitwerk/error.rb:22-28 | the first line of the `NamespaceNotFound` message is `The namespace <ns> was not found. Please load it before` |
| `Errors.NamespaceMessageAsksToReopen` | lib/zeitwerk/error.rb:24-27 | the `NamespaceNotFound` message explains that the gem must reopen the namespace instead of creating it |
| `Errors.LibNotFoundMessageShape` | lib/zeitwerk/error.rb:16-19 | the `LibNotFound` message starts with `Gem lib directory not found for ` and ends with the entry point |
| `GemInflectors.VersionFile` | lib/zeitwerk/gem_inflector.rb:6-10 | the version file is `version.rb` inside a directory named after the entry point's stem, next to the entry point |
| `GemInflectors.VersionFileDependsOnlyOnDirAndStem` | lib/zeitwerk/gem_inflector.rb:6-10 | two gem inflectors whose entry points share directory and stem inflect every file alike |
| `GemInflectors.OverrideIsByPath` | lib/zeitwerk/gem_inflector.rb:13-15 | `camelize` is `VERSION` at the version file whatever the basename; any other path gets exactly the base inflection; so VERSION comes out if and only if the path is the version file, unless the base inflector itself answers VERSION |
| `GemInflectors.GemExamples` | test/lib/test_gem_inflector.rb:55-77 | for `lib/my_gem.rb`, `my_gem/version.rb` is VERSION; `my_gem/ns/version.rb` and `my_gem/foo.rb` are inflected by the base inflector |
| `GemInflectors.NamespacedGemExamples` | test/lib/test_gem_inflector.rb:59-73 | for `lib/ns1/ns2/my_gem.rb`, `my_gem/version.rb` is VERSION and `my_gem/ns/version.rb` is inflected by the base inflector |
| `GemLoaders.FindLib` | lib/zeitwerk/gem_loader.rb:48-61 | ascending succeeds exactly when some ancestor of the entry's directory is named `lib`; the result is the nearest one, and the lib root joined with the chain is the entry's directory; otherwise `LibNotFound` carries the entry point |
| `GemLoaders.LibRootSound` | lib/zeitwerk/gem_loader.rb:48-58 | what the ascent returns is a directory named `lib`, and the chain holds the basenames below it, outermost first, none of them `lib` |
| `GemLoaders.NoLibBelowRoot` | lib/zeitwerk/gem_loader.rb:51-57 | no directory between the lib root and the entry's directory is named `lib` |
| `GemLoaders.LibRootUnique` | lib/zeitwerk/gem_loader.rb:51-54 | there is only one lib root with its chain: the nearest ancestor named `lib` |
| `GemLoaders.LibRootComplete` | lib/zeitwerk/gem_loader.rb:48-58 | every declarative lib root and chain is exactly what the ascent returns |
| `GemLoaders.LibRootExists` | lib/zeitwerk/gem_loader.rb:48-61 | the ascent finds a lib root if and only if some segment of the directory is `lib` |
| `GemLoaders.EntryInLibHasEmptyChain` | lib/zeitwerk/gem_loader.rb:51-54 | an entry point directly inside `lib` has that `lib` as a declarative lib root with an empty chain, and no other root or chain qualifies |
| `GemLoaders.NamespacedGemChain` | test/lib/zeitwerk/test_for_gem_extension.rb:6-19 | `lib/ns1/ns2/my_gem.rb` has the root `lib` and the chain `ns1`, `ns2` |
| `GemLoaders.TagSplits` | lib/zeitwerk/gem_loader.rb:26-29 | splitting the tag on `-` gives back the chain followed by the stem when no part holds a dash, and the tag ends with the stem |
| `GemLoaders.TagExamples` | test/lib/zeitwerk/test_for_gem_extension.rb:89-93 | `lib/ns1/ns2/my_gem.rb` is tagged `ns1-ns2-my_gem`; `lib/my_gem.rb` is tagged `my_gem` |
| `GemLoaders.ResolveAfterPrefix` | lib/zeitwerk/gem_loader.rb:63-78 | once the first k segments are defined, validation goes on from the module they reach |
| `GemLoaders.ResolveSucceedsIffAllDefined` | lib/zeitwerk/gem_loader.rb:63-78 | validation succeeds, reaching module m, if and only if every segment is defined in its parent and the last one is m |
| `GemLoaders.FirstFailureDecides` | lib/zeitwerk/gem_loader.rb:69-77 | the first lookup that raises decides the outcome and no later segment is looked at; its NameError becomes `NamespaceNotFound` for `cpath(parent, cname)` exactly when its receiver is the parent and its name the cname, a NameError with another receiver or name propagates unchanged, and one without a receiver turns into `ArgumentError` |
| `GemLoaders.ScopeName` | lib/zeitwerk/gem_loader.rb:73 | when modules are named after their constant paths, the module reached after k segments is named by the `::`-join of their constant names |
| `GemLoaders.NamespaceNotFoundNamesPrefix` | lib/zeitwerk/gem_loader.rb:63-78 | when segment k is the first one missing, `NamespaceNotFound` names the constant path of segments 0 to k, never a later one |
| `GemLoaders.NamespaceNotFoundExamples` | test/lib/zeitwerk/test_for_gem_extension.rb:306-331 | with nothing defined the error names `Ns1`; with only `Ns1` defined it names `Ns1::Ns2` |
| `GemLoaders.ExpectedDirHoldsVersionFile` | lib/zeitwerk/gem_loader.rb:83-87 | for a gem without namespaces, the expected entry is `lib/<stem>`, the directory of the version file |
| `GemLoaders.ScanIsFilterThenMap` | lib/zeitwerk/gem_loader.rb:89-110 | the scan's warnings are, in listing order and one per entry, the warnings of the entries left after dropping the entry point and the expected entry |
| `GemLoaders.ScanWarnsExactlyExtras` | lib/zeitwerk/gem_loader.rb:89-110 | a warning is emitted if and only if it is the warning for a listed entry that is neither the entry point nor the expected entry |
| `GemLoaders.ScanSilentIffAllExpected` | lib/zeitwerk/gem_loader.rb:89-91 | there are at most as many warnings as entries, and none at all exactly when every entry is the entry point or the expected entry |
| `GemLoaders.ScanUsesBaseInflection` | lib/zeitwerk/gem_loader.rb:93-94 | for any gem inflector built for the entry point, the constant named in a warning is the base inflection of the basename without `.rb`: nothing directly in `lib` is the version file |
| `GemLoaders.ExtraFileExample` | test/lib/zeitwerk/test_for_gem_extension.rb:124-134 | a namespaced gem whose `lib` holds `ns1/` and `foo.rb` gets exactly one warning: constant `Foo`, a file, at `lib/foo.rb` |
| `GemLoaders.OnlyExpectedEntriesExample` | lib/zeitwerk/gem_loader.rb:83-91 | a gem whose `lib` holds only `my_gem.rb` and `my_gem/` gets no warning |
| `GemLoaders.WarningTextMentions` | lib/zeitwerk/gem_loader.rb:97-109 | the warning text contains `Zeitwerk defines the constant <cname> after the <ftype>`, the entry's path and `Zeitwerk::Loader.for_gem(warn_on_extra_files: false)` |
| `GemLoaders.GemLoader.New` | lib/zeitwerk/gem_loader.rb:19-38 | construction raises `LibNotFound` without a lib root, and raises the validation's error when the chain is non-empty and validation fails; otherwise the new loader has the lib root, chain, gem inflector, flag and tag, and its only effects are ignoring an existing `lib/<tag>.rb` (chain non-empty) and then pushing `lib` |
| `GemLoaders.GemLoader.Initialize` | lib/zeitwerk/gem_loader.rb:24-37 | from a known lib root and chain, the same outcome as above |
| `GemLoaders.GemLoader.Ignore` | lib/zeitwerk/gem_loader.rb:33 | records one `ignore` call and changes nothing else |
| `GemLoaders.GemLoader.PushDir` | lib/zeitwerk/gem_loader.rb:37 | records one `push_dir` call and changes nothing else |
| `GemLoaders.GemLoader.EnsureNamespacesAreAlreadyDefined` | lib/zeitwerk/gem_loader.rb:63-79 | completes exactly when validation of the chain succeeds, and otherwise raises what validation raises |
| `GemLoaders.GemLoader.Setup` | lib/zeitwerk/gem_loader.rb:41-44 | with the flag set, the scan's warnings are emitted and then the base setup runs; with it unset, only the base setup runs |
| `GemLoaders.GemLoader.WarnOnExtraFiles` | lib/zeitwerk/gem_loader.rb:82-111 | emits exactly the scan's warnings in listing order, each naming the base inflection of its basename; the expected entry comes from the chain, not from the tag |

## Left out

- The base `Loader` is not part of this model. `ls` is an input: an already
  filtered listing of `lib`. It has no hidden, non-Ruby or ignored entries and
  no directories without Ruby files. `ignore`, `push_dir` and `setup` are only
  recorded. `unload`, reloading and lazy autoloading are not modelled.
- `Loader.for_gem`, including its returning the same loader twice, is not part
  of this model. `GemLoader._new` and the private `new` are both `GemLoader.New`.
- The base `Inflector#camelize` and its `inflect` overrides are a parameter
  (`BaseCamelize`). Replacing the loader's inflector with a different class is
  not modelled; the `inflector` field is a constant gem inflector.
- `cget` and `cpath` are not part of this model. `cget` is a lookup in the
  finite table `Env.constants`, and `cpath` a `::`-join with module names from
  `Env.moduleName`. Autoloads that `cget` may trigger appear only as the
  `NameError` they raise.
- GemLoaders.FirstFailureDecides: an exception other than a `NameError` that
  `cget` may raise through an autoload (`LoadError`, `RuntimeError`, ...) is
  not modelled; the rescue clause would let it through unchanged.
- `File.expand_path` is left out: the entry point is given already expanded.
  `File.exist?` is a given set of existing paths. `dir?` is a flag on each
  listing entry. `Pathname#ascend` is repeated `Dirname`.
- `Kernel#warn` and standard error are left out. A warning is a record of
  constant name, file type, path and basename. Its text is a function whose
  spacing follows the heredoc, and only the parts the warning must mention are
  proved to be in it.
- The `tag=` accessor of the base `Loader` is not modelled; the scan does not
  read the tag.
