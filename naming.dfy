/**
 * The names and paths the deployment routines build inline: template
 * names, the temporary files a VM spec is exported to, the destination
 * names of copied files, and the zonepath of a cloned zone.
 */
module Naming {
  import opened Common
  import opened Paths

  const TemplatePrefix := "template_"

  /** `"template_#{name}"`: the zone name a template routine deploys under. */
  function TemplateName(name: string): (r: string)
    ensures |r| == |TemplatePrefix| + |name|
    ensures TemplatePrefix <= r && r[|TemplatePrefix|..] == name
  {
    TemplatePrefix + name
  }

  /** Different template names never map to the same zone name. */
  lemma TemplateNameInjective(a: string, b: string)
    requires TemplateName(a) == TemplateName(b)
    ensures a == b
  {
    assert a == TemplateName(a)[|TemplatePrefix|..];
  }

  /** `"#{zone_name}_#{random_id}"`: the stem of the files of one VM spec deployment. */
  function BaseName(zone: string, randomId: string): (r: string)
    ensures |r| == |zone| + 1 + |randomId| && r[|zone|] == '_'
    ensures r[..|zone|] == zone && r[|zone| + 1..] == randomId
  {
    zone + "_" + randomId
  }

  const ZonecfgSuffix := ".zonecfg"
  const ManifestSuffix := ".manifest.xml"
  const ProfileSuffix := ".profile.xml"

  /** `File.join(tmp_dir, "#{base_name}#{suffix}")`. */
  function ExportPath(tmpDir: string, base: string, suffix: string): (r: string)
    ensures |base + suffix| <= |r| && r[|r| - |base + suffix|..] == base + suffix
  {
    Join([tmpDir, base + suffix])
  }

  /** The zonecfg, manifest and profile of one deployment go to three different files. */
  lemma ExportPathsDistinct(tmpDir: string, zone: string, randomId: string)
    ensures var base := BaseName(zone, randomId);
            && ExportPath(tmpDir, base, ZonecfgSuffix) != ExportPath(tmpDir, base, ManifestSuffix)
            && ExportPath(tmpDir, base, ZonecfgSuffix) != ExportPath(tmpDir, base, ProfileSuffix)
            && ExportPath(tmpDir, base, ManifestSuffix) != ExportPath(tmpDir, base, ProfileSuffix)
  {
    var base := BaseName(zone, randomId);
    ExportPathsDiffer(tmpDir, base, ZonecfgSuffix, ManifestSuffix);
    ExportPathsDiffer(tmpDir, base, ZonecfgSuffix, ProfileSuffix);
    ExportPathsDiffer(tmpDir, base, ManifestSuffix, ProfileSuffix);
  }

  /** Suffixes of different lengths on the same non-empty stem give different paths. */
  lemma ExportPathsDiffer(tmpDir: string, base: string, s1: string, s2: string)
    requires base != "" && |s1| != |s2|
    ensures ExportPath(tmpDir, base, s1) != ExportPath(tmpDir, base, s2)
  {
    var x, y := base + s1, base + s2;
    assert StartsWithSep(x) == StartsWithSep(y) by {
      assert x[0] == base[0] && y[0] == base[0];
    }
    if Join([tmpDir, x]) == Join([tmpDir, y]) {
      JoinInjective(tmpDir, x, y);
    }
  }

  /** With the default directory `/var/tmp/`, an exported file sits directly inside it. */
  lemma ExportPathInDefaultDir(base: string, suffix: string)
    requires !StartsWithSep(base + suffix)
    ensures ExportPath(DefaultTmpDir, base, suffix) == DefaultTmpDir + base + suffix
  {
    assert EndsWithSep(DefaultTmpDir);
    JoinIntoDir(DefaultTmpDir, base + suffix);
    assert DefaultTmpDir + (base + suffix) == DefaultTmpDir + base + suffix;
  }

  /** The temporary directory of the VM spec and file routines when none is given. */
  const DefaultTmpDir := "/var/tmp/"

  /** The temporary directory of the archive fetch when none is given. */
  const DefaultFetchDir := "/var/tmp"

  /** `opts[:tmp_dir] || default`. */
  function TmpDir(option: Option<string>, default: string): (r: string)
    ensures option.None? ==> r == default
    ensures option.Some? ==> r == option.value
  {
    option.GetOr(default)
  }

  /**
   * `File.join(tmp_dir, "#{random_id}_#{path.split('/').last}")`: where a
   * copied file lands on the destination host.
   */
  function DestName(tmpDir: string, randomId: string, source: string): (r: string)
    ensures var leaf := randomId + "_" + LastComponent(source);
            |leaf| <= |r| && r[|r| - |leaf|..] == leaf
  {
    Join([tmpDir, randomId + "_" + LastComponent(source)])
  }

  /** In the default directory the destination is `/var/tmp/<random id>_<file name>`. */
  lemma DestNameInDefaultDir(randomId: string, source: string)
    requires !StartsWithSep(randomId)
    ensures DestName(DefaultTmpDir, randomId, source) == DefaultTmpDir + randomId + "_" + LastComponent(source)
  {
    var leaf := randomId + "_" + LastComponent(source);
    assert !StartsWithSep(leaf) by {
      if |randomId| == 0 {
        assert leaf[0] == '_';
      } else {
        assert leaf[0] == randomId[0];
      }
    }
    assert EndsWithSep(DefaultTmpDir);
    JoinIntoDir(DefaultTmpDir, leaf);
    assert DefaultTmpDir + leaf == DefaultTmpDir + randomId + "_" + LastComponent(source);
  }

  /** `File.join(opts[:zonepath], zone_name)` when a zonepath was given; `nil` otherwise. */
  function ZonePath(zonepath: Option<string>, zone: string): (r: Option<string>)
    ensures r.Some? <==> zonepath.Some?
    ensures r.Some? ==> |zone| <= |r.value| && r.value[|r.value| - |zone|..] == zone
  {
    if zonepath.Some? then Some(Join([zonepath.value, zone])) else None
  }

  /** A plain zone name under a zonepath without a trailing separator. */
  lemma ZonePathPlain(zonepath: string, zone: string)
    requires !EndsWithSep(zonepath) && !StartsWithSep(zone)
    ensures ZonePath(Some(zonepath), zone) == Some(zonepath + "/" + zone)
  {
    JoinPlainParts(zonepath, zone);
  }

  /**
   * `opts[:copy] || true`: `false || true` is `true`, so the copy flag is
   * set whatever the caller passes.
   */
  function CopyFlag(option: Option<bool>): (r: bool)
    ensures r
  {
    (option.Some? && option.value) || true
  }
}
