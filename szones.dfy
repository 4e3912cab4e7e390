/**
 * The `SZMGMT::SZONES` module: its own configuration hash, `init`, which
 * derives three file locations from the global root directory, and
 * `init_datasets`, which makes sure the service datasets exist.
 */
module Szones {
  import opened Common
  import opened Paths
  import opened ConfigStore

  const ModuleName := "module_name"
  const ManifestTemplate := "manifest_template"
  const ManifestTemplatePath := "manifest_template_path"
  const SchemaName := "szones_schema"
  const SchemaPath := "szones_schema_path"
  const ProfileTemplate := "profile_template"
  const ProfileTemplateDir := "profile_template_dir"

  /** The default `@configuration` of `SZONES`. */
  function Defaults(): (c: map<string, Value>)
    ensures c.Keys == {ModuleName, ManifestTemplate, ManifestTemplatePath, SchemaName, SchemaPath,
                       ProfileTemplate, ProfileTemplateDir}
  {
    map[ModuleName := Text("szones"),
        ManifestTemplate := Text("manifest/manifest_template.xml"),
        ManifestTemplatePath := Text("/etc/szmgmt/szones/manifest/manifest_template.xml"),
        SchemaName := Text("szone_template_schema.json"),
        SchemaPath := Text("/etc/szmgmt/szones/szone_template_schema"),
        ProfileTemplate := Text("profile"),
        ProfileTemplateDir := Text("/etc/szmgmt/szones/profile")]
  }

  /**
   * One argument of `File.join`: a string as it is, an array as the join of
   * its items (Ruby flattens arrays into the join); `None` is the
   * `TypeError` Ruby raises for any other value.
   */
  function JoinPart(v: Value): (r: Option<string>)
    ensures r.Some? <==> v.Text? || v.Texts?
  {
    match v
    case Text(t) => Some(t)
    case Texts(items) => Some(Join(items))
    case _ => None
  }

  /** `File.join(root, module, leaf)` over configuration values. */
  function JoinValues(root: Value, moduleName: Value, leaf: Value): (r: Option<string>)
    ensures r.Some? <==> JoinPart(root).Some? && JoinPart(moduleName).Some? && JoinPart(leaf).Some?
    ensures r.Some? ==> r.value == Join([JoinPart(root).value, JoinPart(moduleName).value, JoinPart(leaf).value])
  {
    var a, b, c := JoinPart(root), JoinPart(moduleName), JoinPart(leaf);
    if a.Some? && b.Some? && c.Some? then Some(Join([a.value, b.value, c.value])) else None
  }

  /**
   * A non-empty array among the values is flattened into the join: an array
   * `root_dir` gives the same path as its items given one by one.
   */
  lemma JoinValuesFlattensRoot(items: seq<string>, moduleName: string, leaf: string)
    requires |items| > 0
    ensures JoinValues(Texts(items), Text(moduleName), Text(leaf)) == Some(Join(items + [moduleName, leaf]))
  {
    assert JoinPart(Texts(items)) == Some(Join(items));
    JoinOfJoined(items, moduleName, leaf);
  }

  /** Joining the join of `items` with two more parts joins all of them. */
  lemma JoinOfJoined(items: seq<string>, moduleName: string, leaf: string)
    requires |items| > 0
    ensures Join([Join(items), moduleName, leaf]) == Join(items + [moduleName, leaf])
  {
    JoinThreeSteps(Join(items), moduleName, leaf);
    JoinTwoSteps(items, moduleName, leaf);
  }

  /** Three parts are the first one and two `File.join` steps. */
  lemma JoinThreeSteps(x: string, moduleName: string, leaf: string)
    ensures Join([x, moduleName, leaf]) == JoinStep(JoinStep(x, moduleName), leaf)
  {
    JoinTwoSteps([x], moduleName, leaf);
    assert [x] + [moduleName, leaf] == [x, moduleName, leaf];
  }

  /** Two more parts are two more `File.join` steps. */
  lemma JoinTwoSteps(parts: seq<string>, moduleName: string, leaf: string)
    requires |parts| > 0
    ensures Join(parts + [moduleName, leaf]) == JoinStep(JoinStep(Join(parts), moduleName), leaf)
  {
    var more := parts + [moduleName];
    assert parts + [moduleName, leaf] == more + [leaf];
    JoinSnoc(more, leaf);
    JoinSnoc(parts, moduleName);
  }

  /**
   * `SZONES.init(global_configuration)`: rewrites the schema path, the
   * manifest template path and the profile template directory, in that
   * order, as `root_dir/module_name/leaf`. Its argument is not used. The
   * result is false when a `File.join` raised on a component that is
   * neither a string nor an array; the entries rewritten before that keep
   * their new value.
   */
  method Init(szones: Store, global: Store, globalConfiguration: map<string, Value>) returns (ok: bool)
    requires szones != global && szones.Valid() && global.Valid()
    requires Defaults().Keys <= szones.validKeys && "root_dir" in global.validKeys
    modifies szones
    ensures szones.Valid()
    ensures var c, root := old(szones.configuration), global.configuration["root_dir"];
            && (forall k :: k in c && k !in {SchemaPath, ManifestTemplatePath, ProfileTemplateDir} ==>
                  szones.configuration[k] == c[k])
            && var schema := JoinValues(root, c[ModuleName], c[SchemaName]);
               var manifest := JoinValues(root, c[ModuleName], c[ManifestTemplate]);
               var profile := JoinValues(root, c[ModuleName], c[ProfileTemplate]);
               && szones.configuration[SchemaPath] == (if schema.Some? then Text(schema.value) else c[SchemaPath])
               && szones.configuration[ManifestTemplatePath] ==
                    (if schema.Some? && manifest.Some? then Text(manifest.value) else c[ManifestTemplatePath])
               && szones.configuration[ProfileTemplateDir] ==
                    (if schema.Some? && manifest.Some? && profile.Some? then Text(profile.value) else c[ProfileTemplateDir])
               && (ok <==> schema.Some? && manifest.Some? && profile.Some?)
  {
    KeysDistinct();
    var root, c := global.configuration["root_dir"], szones.configuration;
    var schema := JoinValues(root, c[ModuleName], c[SchemaName]);
    if schema.None? {
      return false;
    }
    szones.configuration := c[SchemaPath := Text(schema.value)];
    var manifest := JoinValues(root, c[ModuleName], c[ManifestTemplate]);
    if manifest.None? {
      return false;
    }
    szones.configuration := c[SchemaPath := Text(schema.value)][ManifestTemplatePath := Text(manifest.value)];
    var profile := JoinValues(root, c[ModuleName], c[ProfileTemplate]);
    if profile.None? {
      return false;
    }
    szones.configuration := c[SchemaPath := Text(schema.value)][ManifestTemplatePath := Text(manifest.value)]
                             [ProfileTemplateDir := Text(profile.value)];
    ok := true;
  }

  /** The three keys `init` rewrites differ from each other and from the keys it reads. */
  lemma KeysDistinct()
    ensures SchemaPath !in {ModuleName, SchemaName, ManifestTemplate, ProfileTemplate}
    ensures ManifestTemplatePath !in {ModuleName, SchemaName, ManifestTemplate, ProfileTemplate}
    ensures ProfileTemplateDir !in {ModuleName, SchemaName, ManifestTemplate, ProfileTemplate}
    ensures SchemaPath != ManifestTemplatePath && ManifestTemplatePath != ProfileTemplateDir
    ensures ProfileTemplateDir != SchemaPath
  {
    assert |SchemaPath| == 18 && |ManifestTemplatePath| == 22 && |ProfileTemplateDir| == 20;
    assert |ModuleName| == 11 && |SchemaName| == 13 && |ManifestTemplate| == 17 && |ProfileTemplate| == 16;
  }

  /** With plain path components the joined location is `root/module/leaf`. */
  lemma InitPathShape(root: string, moduleName: string, leaf: string)
    requires !EndsWithSep(root) && moduleName != "" && !StartsWithSep(moduleName) && !EndsWithSep(moduleName)
    requires !StartsWithSep(leaf)
    ensures JoinValues(Text(root), Text(moduleName), Text(leaf)) == Some(root + "/" + moduleName + "/" + leaf)
  {
    JoinThreeParts(root, moduleName, leaf);
  }

  /** The dataset entries read by `init_datasets`, in the order it visits them. */
  const DatasetKeys: seq<string> := ["root_dataset", "template_dataset", "default_dataset"]

  /** `configure` can never set a dataset entry: none of their keys is valid. */
  lemma DatasetKeysNeverConfigured(opts: seq<(Key, Value)>)
    ensures forall k :: k in DatasetKeys ==> Lookup(Configured(Defaults(), Defaults().Keys, opts), k) == Nil
  {
    ConfiguredKeys(Defaults(), opts);
  }

  /** A call made to the dataset manager. */
  datatype DatasetCall = Checked(dataset: Value, present: bool) | Created(dataset: Value)

  /** The calls `init_datasets` makes, given the existence answers in visiting order. */
  function DatasetCalls(datasets: seq<Value>, present: seq<bool>): (r: seq<DatasetCall>)
    requires |present| == |datasets|
    ensures |datasets| <= |r| <= 2 * |datasets|
    decreases |datasets|
  {
    if |datasets| == 0 then []
    else
      var n := |datasets| - 1;
      DatasetCalls(datasets[..n], present[..n]) + [Checked(datasets[n], present[n])] +
        (if present[n] then [] else [Created(datasets[n])])
  }

  /** Every dataset is checked, once and in visiting order. */
  lemma {:induction false} DatasetCallsCheckAll(datasets: seq<Value>, present: seq<bool>)
    requires |present| == |datasets|
    ensures Checks(DatasetCalls(datasets, present)) == datasets
    decreases |datasets|
  {
    if |datasets| > 0 {
      var n := |datasets| - 1;
      DatasetCallsCheckAll(datasets[..n], present[..n]);
      var before := DatasetCalls(datasets[..n], present[..n]);
      var tail := [Checked(datasets[n], present[n])] + (if present[n] then [] else [Created(datasets[n])]);
      assert DatasetCalls(datasets, present) == before + tail;
      ChecksAppend(before, tail);
      assert Checks(tail) == [datasets[n]] by {
        assert tail[0] == Checked(datasets[n], present[n]);
        if present[n] {
          assert tail[1..] == [];
        } else {
          assert tail[1..] == [Created(datasets[n])];
          assert [Created(datasets[n])][1..] == [];
          assert Checks([Created(datasets[n])]) == [];
        }
      }
      assert datasets == datasets[..n] + [datasets[n]];
    }
  }

  /**
   * Each create call comes right after a check that found the same dataset
   * missing, and each such check is followed by its create call.
   */
  ghost predicate CreatesFollowMisses(calls: seq<DatasetCall>) {
    && (forall k :: 0 <= k < |calls| && calls[k].Created? ==>
          k > 0 && calls[k - 1] == Checked(calls[k].dataset, false))
    && (forall k :: 0 <= k < |calls| && calls[k].Checked? && !calls[k].present ==>
          k + 1 < |calls| && calls[k + 1] == Created(calls[k].dataset))
  }

  /**
   * A create call directly follows exactly the checks that reported the
   * dataset missing, and names the same dataset.
   */
  lemma {:induction false} DatasetCallsCreateAfterMissing(datasets: seq<Value>, present: seq<bool>)
    requires |present| == |datasets|
    ensures CreatesFollowMisses(DatasetCalls(datasets, present))
    decreases |datasets|
  {
    if |datasets| > 0 {
      var n := |datasets| - 1;
      DatasetCallsCreateAfterMissing(datasets[..n], present[..n]);
      var before := DatasetCalls(datasets[..n], present[..n]);
      var calls := DatasetCalls(datasets, present);
      assert calls[..|before|] == before;
      assert calls[|before|] == Checked(datasets[n], present[n]);
      assert |calls| == |before| + (if present[n] then 1 else 2);
      assert !present[n] ==> calls[|before| + 1] == Created(datasets[n]);
      forall k | 0 <= k < |calls| && calls[k].Created?
        ensures k > 0 && calls[k - 1] == Checked(calls[k].dataset, false)
      {
        if k < |before| {
          assert calls[k] == before[k];
          assert k > 0;
          assert calls[k - 1] == before[k - 1];
        } else {
          assert k == |before| + 1;
        }
      }
      forall k | 0 <= k < |calls| && calls[k].Checked? && !calls[k].present
        ensures k + 1 < |calls| && calls[k + 1] == Created(calls[k].dataset)
      {
        if k < |before| {
          assert calls[k] == before[k];
          assert k + 1 < |before|;
          assert calls[k + 1] == before[k + 1];
        } else {
          assert k == |before|;
        }
      }
    }
  }

  /** The datasets named by the check calls, in order. */
  function Checks(calls: seq<DatasetCall>): seq<Value>
    decreases |calls|
  {
    if |calls| == 0 then []
    else (if calls[0].Checked? then [calls[0].dataset] else []) + Checks(calls[1..])
  }

  lemma {:induction false} ChecksAppend(a: seq<DatasetCall>, b: seq<DatasetCall>)
    ensures Checks(a + b) == Checks(a) + Checks(b)
    decreases |a|
  {
    if |a| > 0 {
      assert (a + b)[0] == a[0];
      assert (a + b)[1..] == a[1..] + b;
      ChecksAppend(a[1..], b);
      assert Checks(a + b) == (if a[0].Checked? then [a[0].dataset] else []) + Checks(a[1..] + b);
    } else {
      assert a + b == b;
    }
  }

  /**
   * `init_datasets`: for the root, template and default datasets in that
   * order, asks whether the dataset exists and creates it when it does not.
   * `present[i]` is the dataset manager's answer for the i-th dataset; the
   * outcome of a create call is only logged.
   */
  method InitDatasets(configuration: map<string, Value>, present: seq<bool>) returns (calls: seq<DatasetCall>)
    requires |present| == |DatasetKeys|
    ensures calls == DatasetCalls([Lookup(configuration, DatasetKeys[0]),
                                   Lookup(configuration, DatasetKeys[1]),
                                   Lookup(configuration, DatasetKeys[2])], present)
  {
    var datasets := [Lookup(configuration, DatasetKeys[0]),
                     Lookup(configuration, DatasetKeys[1]),
                     Lookup(configuration, DatasetKeys[2])];
    calls := [];
    var i := 0;
    while i < |datasets|
      invariant 0 <= i <= |datasets|
      invariant calls == DatasetCalls(datasets[..i], present[..i])
    {
      var dataset := datasets[i];
      calls := calls + [Checked(dataset, present[i])];
      if !present[i] {
        calls := calls + [Created(dataset)];
      }
      assert datasets[..i + 1][..i] == datasets[..i];
      assert present[..i + 1][..i] == present[..i];
      i := i + 1;
    }
    assert datasets[..i] == datasets;
    assert present[..i] == present;
  }
}
