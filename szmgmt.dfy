/**
 * The top-level `SZMGMT` module: the installation root computed from the
 * directory of its own source file, and the global configuration hash.
 */
module Szmgmt {
  import opened Paths
  import opened ConfigStore

  /** Every part of `parts` except the last (Ruby's `[0...-1]`). */
  function AllButLast(parts: seq<string>): (r: seq<string>)
    ensures |parts| > 0 ==> parts == r + [parts[|parts| - 1]]
    ensures |parts| == 0 ==> r == []
  {
    if |parts| == 0 then [] else parts[..|parts| - 1]
  }

  /**
   * `SZMGMT.root`: `File.dirname(dir)`, split on '/', without its last field,
   * joined again; `dir` is the directory holding the module's source file.
   */
  function Root(dir: string): (r: string)
    ensures r <= Dirname(dir)
    ensures r != "" ==> |r| < |Dirname(dir)| && Dirname(dir)[|r|] == '/'
  {
    var parent := Dirname(dir);
    KeptFieldsPrefix(parent);
    Unfields(AllButLast(Split(parent)))
  }

  /** Dropping the last field of `parent` leaves a prefix of it that a separator ends, if not empty. */
  lemma KeptFieldsPrefix(parent: string)
    ensures var r := Unfields(AllButLast(Split(parent)));
            r <= parent && (r != "" ==> |r| < |parent| && parent[|r|] == '/')
  {
    var split := Split(parent);
    var kept := AllButLast(split);
    if |kept| > 0 {
      assert kept == split[..|kept|];
      assert kept == Fields(parent)[..|kept|];
      UnfieldsPrefix(parent, |kept|);
    }
  }

  /**
   * For a source directory `base/lib/leaf` the root is `base`: the result is
   * a '/'-prefix of the directory's parent, with its last field removed.
   */
  lemma RootOfSourceDir(base: string, lib: string, leaf: string)
    requires base != "/" && !DoubleRooted(base)
    requires lib != "" && '/' !in lib
    requires leaf != "" && '/' !in leaf
    ensures Root(base + "/" + lib + "/" + leaf) == base
  {
    var parent := base + "/" + lib;
    assert parent + "/" + leaf == base + "/" + lib + "/" + leaf;
    DirnameOfChild(parent, leaf);
    ChildNotDoubleRooted(base, lib);
    assert CollapseLeadingSeps(parent) == parent;
    RootOfParent(base, lib);
  }

  /** Appending a name to a base that is not `/` and does not start with `//` starts no `//`. */
  lemma ChildNotDoubleRooted(base: string, lib: string)
    requires base != "/" && !DoubleRooted(base)
    requires lib != "" && '/' !in lib
    ensures !DoubleRooted(base + "/" + lib)
  {
    var parent := base + "/" + lib;
    if base == "" {
      assert parent[1] == lib[0];
    } else if |base| > 1 {
      assert parent[1] == base[1];
    }
  }

  /** Dropping the last field of `base + "/" + lib` leaves `base`. */
  lemma RootOfParent(base: string, lib: string)
    requires lib != "" && '/' !in lib
    ensures Unfields(AllButLast(Split(base + "/" + lib))) == base
  {
    var parent := base + "/" + lib;
    FieldsSnoc(base, lib);
    var fields := Fields(parent);
    assert fields[|fields| - 1] == lib;
    assert Split(parent) == fields;
    assert AllButLast(fields) == Fields(base);
    UnfieldsFields(base);
  }

  const ValidKeys: set<string> := {"app_name", "root_dir", "log_dir", "vm_modules"}

  /** The default `@configuration` of `SZMGMT`, for a source directory `dir`. */
  function Defaults(dir: string): (r: map<string, Value>)
    ensures r.Keys == ValidKeys
  {
    map["app_name" := Text("szmgmt"),
        "root_dir" := Text(Join([Root(dir), "/etc"])),
        "log_dir" := Text("/var/log/szmgmt"),
        "vm_modules" := Texts(["szones"])]
  }

  /** The default root directory is `etc` under the root, with the root's trailing separators dropped. */
  lemma DefaultsRootDir(dir: string)
    ensures Defaults(dir)["root_dir"] == Text(StripTrailingSeps(Root(dir)) + "/etc")
  {
    EtcUnder(Root(dir));
  }

  lemma EtcUnder(root: string)
    ensures Join([root, "/etc"]) == StripTrailingSeps(root) + "/etc"
  {
    assert StartsWithSep("/etc");
    JoinAbsolutePart(root, "/etc");
  }

  /** The default root directory of an installation at `base/lib/szmgmt` is `base/etc`. */
  lemma DefaultRootDir(base: string)
    requires !EndsWithSep(base) && !DoubleRooted(base)
    ensures Defaults(base + "/lib/szmgmt")["root_dir"] == Text(base + "/etc")
  {
    var dir := base + "/lib/szmgmt";
    assert dir == base + "/" + "lib" + "/" + "szmgmt";
    RootOfSourceDir(base, "lib", "szmgmt");
    RootDirUnder(dir, base);
  }

  /** With the root known, the default root directory is `etc` under it. */
  lemma RootDirUnder(dir: string, root: string)
    requires Root(dir) == root && !EndsWithSep(root)
    ensures Defaults(dir)["root_dir"] == Text(root + "/etc")
  {
    DefaultsRootDir(dir);
    assert StripTrailingSeps(root) == root;
  }

  /** `SZMGMT.configure` accepts only the four default keys and never changes the key set. */
  lemma ConfigureKeepsKeys(dir: string, opts: seq<(Key, Value)>)
    ensures Configured(Defaults(dir), ValidKeys, opts).Keys == ValidKeys
  {
    ConfiguredKeys(Defaults(dir), opts);
  }

  /** A string key and a symbol key of the same spelling configure the same entry. */
  lemma StringAndSymbolAlike(config: map<string, Value>, name: string, v: Value)
    ensures Configured(config, ValidKeys, [(Str(name), v)]) == Configured(config, ValidKeys, [(Sym(name), v)])
    ensures name in ValidKeys ==> Configured(config, ValidKeys, [(Str(name), v)])[name] == v
  {
    assert [(Str(name), v)][..0] == [];
    assert [(Sym(name), v)][..0] == [];
  }
}
