/**
 * The `Sloth` workload of src/sloth.py: it writes SLO specifications into
 * the container, runs `sloth generate` on each one that changed, and
 * gathers the generated Prometheus rule files.
 *
 * Every operation is a function on `World` values (the specification) and
 * a method of the `Sloth` class that drives a `Workload.Container` and is
 * proved to follow it.  What the passes guarantee is proved in
 * ReconcileProperties and AlertRuleProperties.
 */
module SlothWorkload {
  import opened YamlValues
  import opened Text
  import opened Workload
  import SlothCli

  const SloSpecsDir: string := "/etc/sloth/slos"
  const GeneratedRulesDir: string := "/etc/sloth/rules"
  const BuiltinSpecPath: string := SloSpecsDir + "/prometheus-availability.yaml"

  // ----- paths -----

  /** `f"{SLO_SPECS_DIR}/{service_name}.yaml"` */
  function SpecPath(service: string): string {
    SloSpecsDir + "/" + service + ".yaml"
  }

  /** `slo_spec.get("service", f"service-{idx}")`, formatted into a path:
      a string as it is, another value as Python's `str` shows it
      (`display`), and a missing key as `service-<idx>`. */
  function ServiceName(doc: Doc, idx: nat, display: Yaml -> string): string {
    match Lookup(doc, "service")
    case None => "service-" + NatToString(idx)
    case Some(YStr(s)) => s
    case Some(v) => display(v)
  }

  /** `Path(p).name`: what follows the last "/". */
  function FileName(p: string): string {
    p[RFind(p, '/') + 1..]
  }

  /** `Path(...).stem` of a file name: without its last suffix, where a
      suffix is a "." neither first nor last in the name and what follows. */
  function Stem(name: string): (stem: string)
    ensures |stem| <= |name| && name[..|stem|] == stem
    ensures stem != name ==> 0 < |stem| < |name| - 1 && name[|stem|] == '.' && '.' !in name[|stem| + 1..]
    ensures stem == name ==> forall k :: 0 < k < |name| - 1 ==> name[k] != '.' || '.' in name[k + 1..]
  {
    var i := RFind(name, '.');
    if 0 < i < |name| - 1 then name[..i] else name
  }

  /** `f"{GENERATED_RULES_DIR}/{Path(slo_path).stem}.yaml"` */
  function RulesPath(specPath: string): (path: string)
    ensures |path| > |GeneratedRulesDir| + 1 && path[..|GeneratedRulesDir| + 1] == GeneratedRulesDir + "/"
    ensures EndsWith(path, ".yaml")
  {
    GeneratedRulesDir + "/" + Stem(FileName(specPath)) + ".yaml"
  }

  /** `[DEFAULT_BIN_PATH, "generate", "-i", slo_path]` */
  function GenerateCommand(specPath: string): seq<string> {
    [SlothCli.DefaultBinPath, "generate", "-i", specPath]
  }

  // ----- the built-in specification -----

  /** The Prometheus availability SLO of `_get_prometheus_availability_slo`. */
  const PrometheusSlo: Yaml := YMap([
    ("version", YStr("prometheus/v1")),
    ("service", YStr("prometheus")),
    ("labels", YMap([("owner", YStr("observability-team")), ("repo", YStr("sloth-k8s"))])),
    ("slos", YList([YMap([
      ("name", YStr("requests-availability")),
      ("objective", YNum(99.0)),
      ("description", YStr("Prometheus should have low request activity (less than 1 req/s) 99% of the time")),
      ("sli", YMap([("events", YMap([
        ("error_query", YStr("sum(rate(prometheus_http_requests_total{juju_application=\"prometheus\"}[{{.window}}])) > bool 1")),
        ("total_query", YStr("sum(rate(prometheus_http_requests_total{juju_application=\"prometheus\"}[{{.window}}])) >= bool 0"))]))])),
      ("alerting", YMap([
        ("name", YStr("PrometheusHighRequestActivity")),
        ("labels", YMap([("category", YStr("availability"))])),
        ("annotations", YMap([("summary", YStr("Prometheus is experiencing high request activity (>1 req/s)"))])),
        ("page_alert", YMap([("labels", YMap([("severity", YStr("critical"))]))])),
        ("ticket_alert", YMap([("labels", YMap([("severity", YStr("warning"))]))]))]))])]))])

  /** What `_get_prometheus_availability_slo` returns: the dumped SLO. */
  function BuiltinSpecText(lib: YamlLib): string {
    lib.dump(PrometheusSlo)
  }

  // ----- reconciling -----

  /** One specification file to write: its path and its text. */
  datatype SpecItem = SpecItem(path: string, text: string)

  /** The files the related specifications go to, in list order. */
  function RelatedItems(slos: seq<Doc>, lib: YamlLib, display: Yaml -> string): (items: seq<SpecItem>)
    ensures |items| == |slos|
  {
    seq(|slos|, i requires 0 <= i < |slos| => SpecItem(SpecPath(ServiceName(slos[i], i, display)), lib.dump(YMap(slos[i]))))
  }

  /** `_generate_rules_from_slo(spec_path)`: one run of `sloth generate`,
      then its stdout pushed to the rules file.  Neither a failed run nor a
      failed push escapes. */
  function GenerateRules(w: World, env: Env, specPath: string): (r: World)
    ensures |r.log| > |w.log| && r.log[..|w.log|] == w.log && r.log[|w.log|] == Ran(GenerateCommand(specPath))
    ensures env.tool(GenerateCommand(specPath), w.fs.files).GenFailed? ==> r.fs == w.fs
    ensures forall q :: q != RulesPath(specPath) ==> (q in r.fs.files <==> q in w.fs.files)
    ensures forall q :: q != RulesPath(specPath) && q in w.fs.files ==> r.fs.files[q] == w.fs.files[q]
    ensures w.fs.dirs <= r.fs.dirs
    ensures match env.tool(GenerateCommand(specPath), w.fs.files)
      case Generated(out) => PushFails(RunIn(w, env, GenerateCommand(specPath)).0, env, RulesPath(specPath))
                             || (RulesPath(specPath) in r.fs.files && r.fs.files[RulesPath(specPath)] == out)
      case GenFailed => true
  {
    var (w1, result) := RunIn(w, env, GenerateCommand(specPath));
    match result
    case GenFailed => w1
    case Generated(out) => PushTo(w1, env, RulesPath(specPath), out).0
  }

  /** The content the file at `path` is compared with: "" when it does not
      exist, `None` when reading it raises. */
  function CurrentContent(fs: Fs, env: Env, path: string): Option<string> {
    if ExistsIn(fs, path) then PullFrom(fs, env, path) else Some("")
  }

  /** One specification file, as `_reconcile_slo_specs` treats the built-in
      one and `_reconcile_additional_slos` each related one: when the
      content differs, push it and generate its rules.  The flag says an
      exception left it. */
  function ReconcileSpec(w: World, env: Env, item: SpecItem): (World, bool) {
    var current := CurrentContent(w.fs, env, item.path);
    if current.None? then (w, true)
    else if current.value == item.text then (w, false)
    else
      var (w1, raised) := PushTo(w, env, item.path, item.text);
      if raised then (w1, true) else (GenerateRules(w1, env, item.path), false)
  }

  /** The loop of `_reconcile_additional_slos`: every item in turn, each in
      its own `try`; the flags say which ones were logged as failed. */
  function ReconcileItems(w: World, env: Env, items: seq<SpecItem>): (r: (World, seq<bool>))
    ensures |r.1| == |items|
  {
    if items == [] then (w, [])
    else
      var (w1, failed) := ReconcileItems(w, env, items[..|items| - 1]);
      var (w2, raised) := ReconcileSpec(w1, env, items[|items| - 1]);
      (w2, failed + [raised])
  }

  /** The directory loop of `_reconcile_slo_specs`: each directory made
      unless it exists; a failure escapes. */
  function EnsureDirs(w: World, env: Env, dirs: seq<string>): (World, bool) {
    if dirs == [] then (w, false)
    else
      var (w1, raised) := EnsureDirs(w, env, dirs[..|dirs| - 1]);
      var d := dirs[|dirs| - 1];
      if raised then (w1, true)
      else if ExistsIn(w1.fs, d) then (w1, false)
      else MakeDirIn(w1, env, d)
  }

  const SpecDirs: seq<string> := [SloSpecsDir, GeneratedRulesDir]

  /** The world after a pass, whether an exception left it, and which
      related specifications were logged as failed. */
  datatype PassOutcome = PassOutcome(world: World, raised: bool, failed: seq<bool>)

  /** `_reconcile_slo_specs`: the directories, the built-in specification,
      then the related ones. */
  function SloSpecsPass(w: World, env: Env, lib: YamlLib, display: Yaml -> string, slos: seq<Doc>): PassOutcome {
    var (w1, dirsRaised) := EnsureDirs(w, env, SpecDirs);
    if dirsRaised then PassOutcome(w1, true, [])
    else
      var (w2, builtinRaised) := ReconcileSpec(w1, env, SpecItem(BuiltinSpecPath, BuiltinSpecText(lib)));
      if builtinRaised then PassOutcome(w2, true, [])
      else
        var (w3, failed) := ReconcileItems(w2, env, RelatedItems(slos, lib, display));
        PassOutcome(w3, false, failed)
  }

  /** `reconcile`: nothing at all unless the container can connect. */
  function Reconciled(connected: bool, w: World, env: Env, lib: YamlLib, display: Yaml -> string, slos: seq<Doc>): PassOutcome {
    if connected then SloSpecsPass(w, env, lib, display, slos) else PassOutcome(w, false, [])
  }

  // ----- alert rules -----

  /** What `all_rules["groups"].extend(rules["groups"])` adds for a loaded
      file, `rules`: only a non-empty mapping with a "groups" key adds
      anything (indexing any other value with "groups" raises), and then
      what iterating its value gives — the items of a list, the characters
      of a string, the keys of a mapping; other values are not iterable. */
  function Extension(rules: Yaml): seq<Yaml> {
    match rules
    case YMap(d) =>
      (match Lookup(d, "groups")
       case None => []
       case Some(YList(items)) => items
       case Some(YStr(s)) => seq(|s|, i requires 0 <= i < |s| => YStr([s[i]]))
       case Some(YMap(entries)) => seq(|entries|, i requires 0 <= i < |entries| => YStr(entries[i].0))
       case Some(_) => [])
    case _ => []
  }

  /** What one listed name contributes: nothing unless it ends in ".yaml"
      and can be pulled and loaded. */
  function FileGroups(fs: Fs, env: Env, lib: YamlLib, name: string): seq<Yaml> {
    if !EndsWith(name, ".yaml") then []
    else match PullFrom(fs, env, GeneratedRulesDir + "/" + name)
      case None => []
      case Some(content) =>
        (match lib.load(content)
         case LoadError => []
         case Parsed(rules) => Extension(rules))
  }

  /** The groups of the listed files, in listing order. */
  function GroupsOf(fs: Fs, env: Env, lib: YamlLib, names: seq<string>): seq<Yaml> {
    if names == [] then []
    else GroupsOf(fs, env, lib, names[..|names| - 1]) + FileGroups(fs, env, lib, names[|names| - 1])
  }

  /** `get_alert_rules` for a listing of the rules directory (`None` when
      listing raised). */
  function AlertRules(connected: bool, fs: Fs, env: Env, lib: YamlLib, listing: Option<seq<string>>): Yaml {
    if !connected || !ExistsIn(fs, GeneratedRulesDir) then YMap([])
    else match listing
      case None => YMap([("groups", YList([]))])
      case Some(names) => YMap([("groups", YList(GroupsOf(fs, env, lib, names)))])
  }

  // ----- the workload -----

  class Sloth {
    const container: Container
    const sloPeriod: string
    /** Reassigned by the charm before each reconcile. */
    var additionalSlos: seq<Doc>
    const lib: YamlLib
    /** Python's `str` on a YAML value that is not a string. */
    const display: Yaml -> string

    /** `Sloth(container, slo_period, additional_slos)`: a missing list is
        an empty one. */
    constructor(container: Container, sloPeriod: string := SlothCli.DefaultSloPeriod, additionalSlos: Option<seq<Doc>>, lib: YamlLib, display: Yaml -> string)
      ensures this.container == container && this.sloPeriod == sloPeriod
      ensures this.additionalSlos == if additionalSlos.Some? then additionalSlos.value else []
      ensures this.lib == lib && this.display == display
    {
      this.container := container;
      this.sloPeriod := sloPeriod;
      this.additionalSlos := if additionalSlos.Some? then additionalSlos.value else [];
      this.lib := lib;
      this.display := display;
    }

    /** `reconcile`. */
    method Reconcile() returns (raised: bool, failed: seq<bool>)
      modifies container
      ensures PassOutcome(container.State(), raised, failed)
           == Reconciled(container.connected, old(container.State()), container.Environment(), lib, display, additionalSlos)
    {
      var connected := container.CanConnect();
      if !connected {
        return false, [];
      }
      raised, failed := ReconcileSloSpecs();
    }

    /** `_reconcile_slo_specs`. */
    method ReconcileSloSpecs() returns (raised: bool, failed: seq<bool>)
      modifies container
      ensures PassOutcome(container.State(), raised, failed)
           == SloSpecsPass(old(container.State()), container.Environment(), lib, display, additionalSlos)
    {
      var dirs := SpecDirs;
      var k := 0;
      while k < |dirs|
        invariant 0 <= k <= |dirs|
        invariant EnsureDirs(old(container.State()), container.Environment(), dirs[..k]) == (container.State(), false)
      {
        assert dirs[..k + 1][..k] == dirs[..k];
        var present := container.Exists(dirs[k]);
        if !present {
          var dirRaised := container.MakeDir(dirs[k]);
          if dirRaised {
            assert EnsureDirs(old(container.State()), container.Environment(), dirs[..k + 1]) == (container.State(), true);
            assert k + 1 == |dirs| || EnsureDirs(old(container.State()), container.Environment(), dirs) == (container.State(), true);
            return true, [];
          }
        }
        k := k + 1;
      }
      assert dirs[..k] == SpecDirs;
      raised := ReconcileSpecFile(SpecItem(BuiltinSpecPath, BuiltinSpecText(lib)));
      if raised {
        return true, [];
      }
      failed := ReconcileAdditionalSlos();
    }

    /** The check-then-push-then-generate steps for one specification file. */
    method ReconcileSpecFile(item: SpecItem) returns (raised: bool)
      modifies container
      ensures (container.State(), raised) == ReconcileSpec(old(container.State()), container.Environment(), item)
    {
      var current := "";
      var present := container.Exists(item.path);
      if present {
        var pulled := container.Pull(item.path);
        if pulled.None? {
          return true;
        }
        current := pulled.value;
      }
      if current != item.text {
        raised := container.Push(item.path, item.text);
        if raised {
          return;
        }
        GenerateRulesFromSlo(item.path);
      }
      raised := false;
    }

    /** `_reconcile_additional_slos`. */
    method ReconcileAdditionalSlos() returns (failed: seq<bool>)
      modifies container
      ensures (container.State(), failed)
           == ReconcileItems(old(container.State()), container.Environment(), RelatedItems(additionalSlos, lib, display))
    {
      if additionalSlos == [] {
        return [];
      }
      ghost var items := RelatedItems(additionalSlos, lib, display);
      failed := [];
      var idx := 0;
      while idx < |additionalSlos|
        invariant 0 <= idx <= |additionalSlos|
        invariant (container.State(), failed) == ReconcileItems(old(container.State()), container.Environment(), items[..idx])
      {
        var slo := additionalSlos[idx];
        var service := ServiceName(slo, idx, display);
        var item := SpecItem(SpecPath(service), lib.dump(YMap(slo)));
        assert item == items[idx];
        assert items[..idx + 1][..idx] == items[..idx];
        var raised := ReconcileSpecFile(item);
        failed := failed + [raised];
        idx := idx + 1;
      }
      assert items[..idx] == items;
    }

    /** `_generate_rules_from_slo`. */
    method GenerateRulesFromSlo(specPath: string)
      modifies container
      ensures container.State() == GenerateRules(old(container.State()), container.Environment(), specPath)
    {
      var outputPath := RulesPath(specPath);
      var result := container.Exec(GenerateCommand(specPath));
      match result {
        case GenFailed =>
        case Generated(stdout) =>
          var pushRaised := container.Push(outputPath, stdout);
      }
    }

    /** `get_alert_rules`: the rules for the listing `list_files` gave. */
    method GetAlertRules() returns (rules: Yaml, ghost listing: Option<seq<string>>)
      ensures container.connected && ExistsIn(container.Snapshot(), GeneratedRulesDir) ==>
        (listing.None? <==> GeneratedRulesDir in container.faulty)
      ensures listing.Some? ==> IsListing(listing.value, Children(container.Snapshot(), GeneratedRulesDir))
      ensures rules == AlertRules(container.connected, container.Snapshot(), container.Environment(), lib, listing)
    {
      listing := None;
      var connected := container.CanConnect();
      if !connected {
        return YMap([]), listing;
      }
      var present := container.Exists(GeneratedRulesDir);
      if !present {
        return YMap([]), listing;
      }
      var groups: seq<Yaml> := [];
      var files := container.ListFiles(GeneratedRulesDir);
      listing := files;
      if files.Some? {
        var names := files.value;
        var i := 0;
        while i < |names|
          invariant 0 <= i <= |names|
          invariant groups == GroupsOf(container.Snapshot(), container.Environment(), lib, names[..i])
        {
          assert names[..i + 1][..i] == names[..i];
          var name := names[i];
          if EndsWith(name, ".yaml") {
            var content := container.Pull(GeneratedRulesDir + "/" + name);
            if content.Some? {
              match lib.load(content.value) {
                case LoadError =>
                case Parsed(loaded) =>
                  groups := groups + Extension(loaded);
              }
            }
          }
          i := i + 1;
        }
        assert names[..i] == names;
      }
      rules := YMap([("groups", YList(groups))]);
    }
  }
}
