/**
 * What a reconcile pass of the Sloth workload guarantees: the two
 * directories exist after it, a specification file is pushed only when its
 * content differs, an item that raises changes nothing and does not stop
 * the others, a second pass over a settled container does nothing at all,
 * and every specification and rules file has its own path.
 */
module ReconcileProperties {
  import opened YamlValues
  import opened Text
  import opened Workload
  import opened SlothWorkload
  import SloLibrary

  // ----- paths -----

  /** `p` is a file inside the specifications directory. */
  predicate InSpecsDir(p: string) {
    |p| > |SloSpecsDir| + 1 && p[..|SloSpecsDir| + 1] == SloSpecsDir + "/"
  }

  lemma SpecPathInSpecsDir(service: string)
    ensures InSpecsDir(SpecPath(service))
  {
    assert SpecPath(service)[..|SloSpecsDir| + 1] == SloSpecsDir + "/";
  }

  /** A rules file is never a specification file: the two directories
      differ at their twelfth character. */
  lemma RulesPathOutsideSpecsDir(specPath: string)
    ensures !InSpecsDir(RulesPath(specPath))
  {
    var r := RulesPath(specPath);
    assert r[11] == 'r';
    assert (SloSpecsDir + "/")[11] == 's';
  }

  /** Different services have different specification files. */
  lemma SpecPathInjective(a: string, b: string)
    requires SpecPath(a) == SpecPath(b)
    ensures a == b
  {
    var n := |SloSpecsDir| + 1;
    assert |a| == |b|;
    assert a == SpecPath(a)[n..n + |a|];
    assert b == SpecPath(b)[n..n + |b|];
  }

  /** Specifications without a "service" key at different indexes go to
      different files. */
  lemma FallbackPathsDistinct(d1: Doc, i: nat, d2: Doc, j: nat, display: Yaml -> string)
    requires !HasKey(d1, "service") && !HasKey(d2, "service") && i != j
    ensures SpecPath(ServiceName(d1, i, display)) != SpecPath(ServiceName(d2, j, display))
  {
    LookupFinds(d1, "service");
    LookupFinds(d2, "service");
    NatToStringInjective(i, j);
    var p, q := "service-" + NatToString(i), "service-" + NatToString(j);
    assert p[8..] == NatToString(i) && q[8..] == NatToString(j);
    if SpecPath(p) == SpecPath(q) {
      SpecPathInjective(p, q);
    }
  }

  /** The last "/" of a specification path is the one after the directory,
      when the service name has none. */
  lemma FileNameOfSpecPath(service: string)
    requires '/' !in service
    ensures FileName(SpecPath(service)) == service + ".yaml"
  {
    var p := SpecPath(service);
    var n := |SloSpecsDir|;
    assert p[n] == '/';
    assert RFind(p, '/') >= n;
    assert p[n + 1..] == service + ".yaml";
  }

  /** The rules of a service go to `<rules dir>/<service>.yaml`, except that
      an empty service name gives `.yaml.yaml` (a name starting with its
      only "." has no suffix to strip). */
  lemma RulesPathOfService(service: string)
    requires '/' !in service
    ensures RulesPath(SpecPath(service))
         == GeneratedRulesDir + "/" + (if service == "" then ".yaml" else service) + ".yaml"
  {
    FileNameOfSpecPath(service);
    StemOfYamlName(service);
  }

  /** The stem of `<service>.yaml` is the service, unless it is empty. */
  lemma StemOfYamlName(service: string)
    ensures Stem(service + ".yaml") == if service == "" then ".yaml" else service
  {
    var name := service + ".yaml";
    assert name[|service|] == '.';
    assert RFind(name, '.') == |service|;
    assert name[..|service|] == service;
  }

  /** The built-in specification is one the library's `SLOSpec` accepts:
      version "prometheus/v1", service "prometheus", its two labels and its
      one SLO. */
  lemma BuiltinSpecIsValid()
    ensures SloLibrary.IsValidSloSpec(PrometheusSlo)
    ensures SloLibrary.ValidateSloSpec(PrometheusSlo.entries).value.service == "prometheus"
    ensures |SloLibrary.ValidateSloSpec(PrometheusSlo.entries).value.slos| == 1
  {
    var d := PrometheusSlo.entries;
    assert Lookup(d, "version") == Some(YStr("prometheus/v1"));
    assert Lookup(d, "service") == Some(YStr("prometheus"));
    var labels := Lookup(d, "labels");
    assert labels.Some? && labels.value.YMap?;
    assert SloLibrary.StringPairs(labels.value.entries).Some?;
    assert Lookup(d, "slos").Some?;
  }

  // ----- one specification file -----

  /** The file of `item` holds its text and can be read. */
  predicate Settled(w: World, env: Env, item: SpecItem) {
    item.path in w.fs.files && w.fs.files[item.path] == item.text && item.path !in env.faulty
  }

  /** Nothing below the specifications directory disappears, and no
      directory does. */
  predicate Grows(w: World, w': World) {
    w.fs.files.Keys <= w'.fs.files.Keys && w.fs.dirs <= w'.fs.dirs
  }

  /** `w'`'s log starts with everything in `w`'s. */
  predicate LogExtends(w: World, w': World) {
    |w'.log| >= |w.log| && w'.log[..|w.log|] == w.log
  }

  /** After what `w` records, `w'` records a push of `item`'s text to its
      file and then a run of `sloth generate` on that file. */
  predicate PushedThenRan(w: World, w': World, item: SpecItem) {
    && |w'.log| > |w.log| + 1 && w'.log[..|w.log|] == w.log
    && w'.log[|w.log|] == Pushed(item.path, item.text)
    && w'.log[|w.log| + 1] == Ran(GenerateCommand(item.path))
  }

  lemma LogExtendsTrans(a: World, b: World, c: World)
    requires LogExtends(a, b) && LogExtends(b, c)
    ensures LogExtends(a, c)
  {
    assert c.log[..|a.log|] == c.log[..|b.log|][..|a.log|];
  }

  /** More actions after a push and a run keep them where they were. */
  lemma PushedThenRanExtends(w: World, w': World, w'': World, item: SpecItem)
    requires PushedThenRan(w, w', item) && LogExtends(w', w'')
    ensures PushedThenRan(w, w'', item)
  {
    var n := |w.log|;
    assert w''.log[..n] == w''.log[..|w'.log|][..n];
    assert w''.log[n] == w''.log[..|w'.log|][n];
    assert w''.log[n + 1] == w''.log[..|w'.log|][n + 1];
  }

  /** An item reconciled whatever it does only adds to the log. */
  lemma ReconcileSpecExtends(w: World, env: Env, item: SpecItem)
    ensures LogExtends(w, ReconcileSpec(w, env, item).0)
  {
    var current := CurrentContent(w.fs, env, item.path);
    if current.Some? && current.value != item.text {
      var (w1, raised) := PushTo(w, env, item.path, item.text);
      if !raised {
        var w2 := GenerateRules(w1, env, item.path);
        assert w1.log == w.log + [Pushed(item.path, item.text)];
        assert w2.log[..|w.log|] == w2.log[..|w1.log|][..|w.log|];
      }
    }
  }

  /** A changed item that did not raise was pushed and then generated. */
  lemma ChangedPushedThenRan(w: World, env: Env, item: SpecItem)
    requires CurrentContent(w.fs, env, item.path).Some?
    requires CurrentContent(w.fs, env, item.path).value != item.text
    requires !ReconcileSpec(w, env, item).1
    ensures PushedThenRan(w, ReconcileSpec(w, env, item).0, item)
  {
    var (w1, raised) := PushTo(w, env, item.path, item.text);
    assert w1.log == w.log + [Pushed(item.path, item.text)];
    var w2 := GenerateRules(w1, env, item.path);
    var n := |w.log|;
    assert w2.log[..n] == w2.log[..|w1.log|][..n];
    assert w2.log[n] == w2.log[..|w1.log|][n];
  }

  /** A settled file is left alone: no push, no generation. */
  lemma SettledIsNoOp(w: World, env: Env, item: SpecItem)
    requires Settled(w, env, item)
    ensures ReconcileSpec(w, env, item) == (w, false)
  {
  }

  /** The file is pushed, and its rules generated, exactly when its content
      (empty when absent) differs from the text: then the push of the text
      and the run of the generator are what comes next in the log, and
      otherwise nothing changes at all. */
  lemma PushedIffChanged(w: World, env: Env, item: SpecItem)
    requires !ReconcileSpec(w, env, item).1
    ensures CurrentContent(w.fs, env, item.path).value != item.text ==> PushedThenRan(w, ReconcileSpec(w, env, item).0, item)
    ensures CurrentContent(w.fs, env, item.path).value == item.text ==> ReconcileSpec(w, env, item).0 == w
  {
    if CurrentContent(w.fs, env, item.path).value != item.text {
      ChangedPushedThenRan(w, env, item);
    }
  }

  /** An item that raises changes nothing. */
  lemma RaisingItemChangesNothing(w: World, env: Env, item: SpecItem)
    requires ReconcileSpec(w, env, item).1
    ensures ReconcileSpec(w, env, item).0 == w
  {
  }

  /** After an item that did not raise, its file holds its text (unless the
      text is empty, which an absent file already "holds"). */
  lemma ReconcileSettles(w: World, env: Env, item: SpecItem)
    requires InSpecsDir(item.path) && item.text != ""
    requires !ReconcileSpec(w, env, item).1
    ensures Settled(ReconcileSpec(w, env, item).0, env, item)
  {
    var current := CurrentContent(w.fs, env, item.path);
    if current.value != item.text {
      var (w1, raised) := PushTo(w, env, item.path, item.text);
      assert item.path in w1.fs.files && w1.fs.files[item.path] == item.text;
      RulesPathOutsideSpecsDir(item.path);
      assert RulesPath(item.path) != item.path;
      assert ReconcileSpec(w, env, item).0 == GenerateRules(w1, env, item.path);
    }
  }

  lemma ReconcileSpecGrows(w: World, env: Env, item: SpecItem)
    ensures Grows(w, ReconcileSpec(w, env, item).0)
  {
  }

  /** Reconciling another item keeps a settled file settled, unless that
      item writes a different text to the same path. */
  lemma SettledPreserved(w: World, env: Env, item: SpecItem, other: SpecItem)
    requires Settled(w, env, item) && InSpecsDir(item.path)
    requires other.path == item.path ==> other.text == item.text
    ensures Settled(ReconcileSpec(w, env, other).0, env, item)
  {
    var current := CurrentContent(w.fs, env, other.path);
    if current.Some? && current.value != other.text {
      var (w1, raised) := PushTo(w, env, other.path, other.text);
      if !raised {
        GenerateKeepsSettled(w1, env, item, other.path);
      }
    }
  }

  /** Generating rules never touches a specification file. */
  lemma GenerateKeepsSettled(w: World, env: Env, item: SpecItem, specPath: string)
    requires Settled(w, env, item) && InSpecsDir(item.path)
    ensures Settled(GenerateRules(w, env, specPath), env, item)
  {
    RulesPathOutsideSpecsDir(specPath);
  }

  // ----- the loop over related specifications -----

  predicate NoneFailed(failed: seq<bool>) {
    forall k :: 0 <= k < |failed| ==> !failed[k]
  }

  /** Items writing to the same path write the same text. */
  predicate Coherent(items: seq<SpecItem>) {
    forall i, j :: 0 <= i < |items| && 0 <= j < |items| && items[i].path == items[j].path ==> items[i].text == items[j].text
  }

  /** Items going to specification files, with non-empty texts. */
  predicate Writable(items: seq<SpecItem>) {
    forall i :: 0 <= i < |items| ==> InSpecsDir(items[i].path) && items[i].text != ""
  }

  lemma {:induction false} ItemsGrow(w: World, env: Env, items: seq<SpecItem>)
    ensures Grows(w, ReconcileItems(w, env, items).0)
  {
    if items != [] {
      var w1 := ReconcileItems(w, env, items[..|items| - 1]).0;
      ItemsGrow(w, env, items[..|items| - 1]);
      ReconcileSpecGrows(w1, env, items[|items| - 1]);
    }
  }

  /** The loop only adds to what was done before it. */
  lemma {:induction false} ItemsLogGrows(w: World, env: Env, items: seq<SpecItem>)
    ensures LogExtends(w, ReconcileItems(w, env, items).0)
  {
    if items != [] {
      var w1 := ReconcileItems(w, env, items[..|items| - 1]).0;
      ItemsLogGrows(w, env, items[..|items| - 1]);
      ReconcileSpecExtends(w1, env, items[|items| - 1]);
      LogExtendsTrans(w, w1, ReconcileItems(w, env, items).0);
    }
  }

  /** A settled file stays settled through the loop when every item for
      its path carries its text. */
  lemma {:induction false} ItemsPreserveSettled(w: World, env: Env, item: SpecItem, items: seq<SpecItem>)
    requires Settled(w, env, item) && InSpecsDir(item.path)
    requires forall k :: 0 <= k < |items| && items[k].path == item.path ==> items[k].text == item.text
    ensures Settled(ReconcileItems(w, env, items).0, env, item)
  {
    if items != [] {
      var front := items[..|items| - 1];
      ItemsPreserveSettled(w, env, item, front);
      SettledPreserved(ReconcileItems(w, env, front).0, env, item, items[|items| - 1]);
    }
  }

  lemma PrefixCoherentWritable(items: seq<SpecItem>, n: nat)
    requires Coherent(items) && Writable(items) && n <= |items|
    ensures Coherent(items[..n]) && Writable(items[..n])
  {
    var front := items[..n];
    assert forall k :: 0 <= k < n ==> front[k] == items[k];
  }

  /** Reconciling `last` keeps settled every earlier item it agrees with. */
  lemma LastKeepsSettled(w: World, env: Env, front: seq<SpecItem>, last: SpecItem)
    requires forall k :: 0 <= k < |front| ==> Settled(w, env, front[k]) && InSpecsDir(front[k].path)
    requires forall k :: 0 <= k < |front| && front[k].path == last.path ==> front[k].text == last.text
    ensures forall k :: 0 <= k < |front| ==> Settled(ReconcileSpec(w, env, last).0, env, front[k])
  {
    forall k | 0 <= k < |front|
      ensures Settled(ReconcileSpec(w, env, last).0, env, front[k])
    {
      SettledPreserved(w, env, front[k], last);
    }
  }

  /** A settled front and a settled last item make a settled sequence. */
  lemma SettledSnoc(w: World, env: Env, items: seq<SpecItem>)
    requires items != []
    requires forall k :: 0 <= k < |items| - 1 ==> Settled(w, env, items[k])
    requires Settled(w, env, items[|items| - 1])
    ensures forall k :: 0 <= k < |items| ==> Settled(w, env, items[k])
  {
  }

  /** After a loop in which no item failed, every item's file holds its text. */
  lemma {:induction false} ItemsSettle(w: World, env: Env, items: seq<SpecItem>)
    requires Coherent(items) && Writable(items)
    requires NoneFailed(ReconcileItems(w, env, items).1)
    ensures forall k :: 0 <= k < |items| ==> Settled(ReconcileItems(w, env, items).0, env, items[k])
  {
    if items != [] {
      var n := |items| - 1;
      var front := items[..n];
      var (w1, failed) := ReconcileItems(w, env, front);
      var last := ReconcileSpec(w1, env, items[n]);
      assert ReconcileItems(w, env, items) == (last.0, failed + [last.1]);
      assert NoneFailed(failed) && !last.1 by {
        assert forall k :: 0 <= k < |failed| ==> (failed + [last.1])[k] == failed[k];
        assert (failed + [last.1])[n] == last.1;
      }
      PrefixCoherentWritable(items, n);
      ItemsSettle(w, env, front);
      ReconcileSettles(w1, env, items[n]);
      assert forall k :: 0 <= k < n ==> front[k] == items[k];
      assert forall k :: 0 <= k < |front| ==> Settled(w1, env, front[k]) && InSpecsDir(front[k].path);
      assert forall k :: 0 <= k < |front| && front[k].path == items[n].path ==> front[k].text == items[n].text;
      LastKeepsSettled(w1, env, front, items[n]);
      assert forall k :: 0 <= k < |front| ==> Settled(last.0, env, front[k]);
      assert Settled(last.0, env, items[n]);
      var v := ReconcileItems(w, env, items).0;
      assert v == last.0;
      assert forall k :: 0 <= k < n ==> Settled(v, env, items[k]);
      SettledSnoc(v, env, items);
    }
  }

  /** A loop over settled items does nothing and fails nowhere. */
  lemma {:induction false} SettledItemsNoOp(w: World, env: Env, items: seq<SpecItem>)
    requires forall k :: 0 <= k < |items| ==> Settled(w, env, items[k])
    ensures ReconcileItems(w, env, items).0 == w
    ensures NoneFailed(ReconcileItems(w, env, items).1)
  {
    if items != [] {
      var n := |items| - 1;
      SettledItemsNoOp(w, env, items[..n]);
      SettledIsNoOp(w, env, items[n]);
    }
  }

  /** The items that did not fail, in order. */
  function Survivors(items: seq<SpecItem>, failed: seq<bool>): (r: seq<SpecItem>)
    requires |items| == |failed|
    ensures |r| <= |items|
  {
    if items == [] then []
    else
      var n := |items| - 1;
      Survivors(items[..n], failed[..n]) + (if failed[n] then [] else [items[n]])
  }

  /** A failing item is skipped and the loop goes on: the container ends
      as if only the items that did not fail had been reconciled. */
  lemma {:induction false} FailedItemsAreSkipped(w: World, env: Env, items: seq<SpecItem>)
    ensures ReconcileItems(w, env, Survivors(items, ReconcileItems(w, env, items).1)).0
         == ReconcileItems(w, env, items).0
  {
    if items != [] {
      var n := |items| - 1;
      var front := items[..n];
      var (w1, failed) := ReconcileItems(w, env, front);
      var raised := ReconcileSpec(w1, env, items[n]).1;
      var all := ReconcileItems(w, env, items).1;
      assert all == failed + [raised];
      assert all[..n] == failed;
      FailedItemsAreSkipped(w, env, front);
      var s := Survivors(front, failed);
      assert ReconcileItems(w, env, s).0 == w1;
      if raised {
        assert Survivors(items, all) == s;
        RaisingItemChangesNothing(w1, env, items[n]);
      } else {
        var s' := s + [items[n]];
        assert Survivors(items, all) == s';
        assert s'[..|s'| - 1] == s;
      }
    }
  }

  // ----- directories -----

  lemma {:induction false} EnsureDirsMakesThem(w: World, env: Env, dirs: seq<string>)
    requires !EnsureDirs(w, env, dirs).1
    ensures forall k :: 0 <= k < |dirs| ==> ExistsIn(EnsureDirs(w, env, dirs).0.fs, dirs[k])
    ensures Grows(w, EnsureDirs(w, env, dirs).0)
  {
    if dirs != [] {
      EnsureDirsMakesThem(w, env, dirs[..|dirs| - 1]);
    }
  }

  lemma {:induction false} EnsureDirsGrows(w: World, env: Env, dirs: seq<string>)
    ensures Grows(w, EnsureDirs(w, env, dirs).0)
    ensures |EnsureDirs(w, env, dirs).0.log| >= |w.log| && EnsureDirs(w, env, dirs).0.log[..|w.log|] == w.log
  {
    if dirs != [] {
      var w1 := EnsureDirs(w, env, dirs[..|dirs| - 1]).0;
      EnsureDirsGrows(w, env, dirs[..|dirs| - 1]);
      var d := dirs[|dirs| - 1];
      if !EnsureDirs(w, env, dirs[..|dirs| - 1]).1 && !ExistsIn(w1.fs, d) && !MakeDirFails(w1, env, d) {
        assert (w1.log + [MadeDir(d)])[..|w.log|] == w1.log[..|w.log|];
      }
    }
  }

  /** The directory step records nothing but `make_dir` calls, each for one
      of its directories that did not exist before the step. */
  lemma {:induction false} MadeDirOnlyIfAbsent(w: World, env: Env, dirs: seq<string>)
    ensures var log := EnsureDirs(w, env, dirs).0.log;
      forall k :: |w.log| <= k < |log| ==> log[k].MadeDir? && log[k].path in dirs && !ExistsIn(w.fs, log[k].path)
  {
    EnsureDirsGrows(w, env, dirs);
    if dirs != [] {
      var n := |dirs| - 1;
      var front := dirs[..n];
      MadeDirOnlyIfAbsent(w, env, front);
      EnsureDirsGrows(w, env, front);
      var w1 := EnsureDirs(w, env, front).0;
      var log := EnsureDirs(w, env, dirs).0.log;
      forall k | |w.log| <= k < |log|
        ensures log[k].MadeDir? && log[k].path in dirs && !ExistsIn(w.fs, log[k].path)
      {
        if k < |w1.log| {
          assert log[k] == w1.log[k];
          assert w1.log[k].path in front;
        } else {
          assert log[k] == MadeDir(dirs[n]);
        }
      }
    }
  }

  /** With every directory present, `make_dir` is not called at all. */
  lemma {:induction false} EnsureDirsNoOp(w: World, env: Env, dirs: seq<string>)
    requires forall k :: 0 <= k < |dirs| ==> ExistsIn(w.fs, dirs[k])
    ensures EnsureDirs(w, env, dirs) == (w, false)
  {
    if dirs != [] {
      EnsureDirsNoOp(w, env, dirs[..|dirs| - 1]);
    }
  }

  // ----- a whole pass -----

  /** Everything a pass writes to the specifications directory. */
  function PassItems(lib: YamlLib, display: Yaml -> string, slos: seq<Doc>): seq<SpecItem> {
    [SpecItem(BuiltinSpecPath, BuiltinSpecText(lib))] + RelatedItems(slos, lib, display)
  }

  lemma PassItemsInSpecsDir(lib: YamlLib, display: Yaml -> string, slos: seq<Doc>)
    ensures forall k :: 0 <= k < |PassItems(lib, display, slos)| ==> InSpecsDir(PassItems(lib, display, slos)[k].path)
  {
    var items := PassItems(lib, display, slos);
    forall k | 0 <= k < |items| ensures InSpecsDir(items[k].path) {
      if k == 0 {
        SpecPathInSpecsDir("prometheus-availability");
        assert BuiltinSpecPath == SpecPath("prometheus-availability");
      } else {
        SpecPathInSpecsDir(ServiceName(slos[k - 1], k - 1, display));
      }
    }
  }

  /** After a pass on a reachable container that raised nothing, both
      directories exist. */
  lemma DirsExistAfterPass(connected: bool, w: World, env: Env, lib: YamlLib, display: Yaml -> string, slos: seq<Doc>)
    requires connected
    requires !Reconciled(connected, w, env, lib, display, slos).raised
    ensures ExistsIn(Reconciled(connected, w, env, lib, display, slos).world.fs, SloSpecsDir)
    ensures ExistsIn(Reconciled(connected, w, env, lib, display, slos).world.fs, GeneratedRulesDir)
  {
    EnsureDirsMakesThem(w, env, SpecDirs);
    var w1 := EnsureDirs(w, env, SpecDirs).0;
    var w2 := ReconcileSpec(w1, env, SpecItem(BuiltinSpecPath, BuiltinSpecText(lib))).0;
    ReconcileSpecGrows(w1, env, SpecItem(BuiltinSpecPath, BuiltinSpecText(lib)));
    ItemsGrow(w2, env, RelatedItems(slos, lib, display));
  }

  /** State after a pass that raised nothing and in which no specification
      failed: every specification file holds its text and both directories
      exist. */
  lemma PassSettles(w: World, env: Env, lib: YamlLib, display: Yaml -> string, slos: seq<Doc>)
    requires Coherent(PassItems(lib, display, slos)) && Writable(PassItems(lib, display, slos))
    requires !SloSpecsPass(w, env, lib, display, slos).raised
    requires NoneFailed(SloSpecsPass(w, env, lib, display, slos).failed)
    ensures forall k :: 0 <= k < |PassItems(lib, display, slos)| ==>
      Settled(SloSpecsPass(w, env, lib, display, slos).world, env, PassItems(lib, display, slos)[k])
    ensures ExistsIn(SloSpecsPass(w, env, lib, display, slos).world.fs, SloSpecsDir)
    ensures ExistsIn(SloSpecsPass(w, env, lib, display, slos).world.fs, GeneratedRulesDir)
  {
    var all := PassItems(lib, display, slos);
    var builtin := all[0];
    var items := RelatedItems(slos, lib, display);
    assert all[1..] == items;
    var w1 := EnsureDirs(w, env, SpecDirs).0;
    var w2 := ReconcileSpec(w1, env, builtin).0;
    var w3 := ReconcileItems(w2, env, items).0;
    DirsExistAfterPass(true, w, env, lib, display, slos);
    assert Coherent(items) && Writable(items) by {
      forall i | 0 <= i < |items| ensures items[i] == all[i + 1] { }
    }
    ItemsSettle(w2, env, items);
    ReconcileSettles(w1, env, builtin);
    forall k | 0 <= k < |items| && items[k].path == builtin.path ensures items[k].text == builtin.text {
      assert all[k + 1] == items[k];
    }
    ItemsPreserveSettled(w2, env, builtin, items);
    forall k | 0 <= k < |all| ensures Settled(w3, env, all[k]) {
      if k > 0 {
        assert all[k] == items[k - 1];
      }
    }
  }

  /** Reconciling twice is reconciling once: when the first pass raised
      nothing, no specification failed and no two specifications write
      different texts to the same file, the second pass pushes nothing,
      runs nothing (so a failed generation is not retried) and fails
      nowhere. */
  lemma SecondPassIsNoOp(connected: bool, w: World, env: Env, lib: YamlLib, display: Yaml -> string, slos: seq<Doc>)
    requires Coherent(PassItems(lib, display, slos)) && Writable(PassItems(lib, display, slos))
    requires !Reconciled(connected, w, env, lib, display, slos).raised
    requires NoneFailed(Reconciled(connected, w, env, lib, display, slos).failed)
    ensures var first := Reconciled(connected, w, env, lib, display, slos);
            Reconciled(connected, first.world, env, lib, display, slos) == first
  {
    if connected {
      var first := SloSpecsPass(w, env, lib, display, slos);
      PassSettles(w, env, lib, display, slos);
      SettledPassIsNoOp(first.world, env, lib, display, slos);
      NoneFailedSame(SloSpecsPass(first.world, env, lib, display, slos).failed, first.failed);
    }
  }

  /** A pass over a container where both directories exist and every file
      of the pass holds its text does nothing and fails nowhere. */
  lemma SettledPassIsNoOp(v: World, env: Env, lib: YamlLib, display: Yaml -> string, slos: seq<Doc>)
    requires ExistsIn(v.fs, SloSpecsDir) && ExistsIn(v.fs, GeneratedRulesDir)
    requires forall k :: 0 <= k < |PassItems(lib, display, slos)| ==> Settled(v, env, PassItems(lib, display, slos)[k])
    ensures SloSpecsPass(v, env, lib, display, slos).world == v
    ensures !SloSpecsPass(v, env, lib, display, slos).raised
    ensures NoneFailed(SloSpecsPass(v, env, lib, display, slos).failed)
    ensures |SloSpecsPass(v, env, lib, display, slos).failed| == |slos|
  {
    var all := PassItems(lib, display, slos);
    var items := RelatedItems(slos, lib, display);
    EnsureDirsNoOp(v, env, SpecDirs);
    assert all[0] == SpecItem(BuiltinSpecPath, BuiltinSpecText(lib));
    SettledIsNoOp(v, env, all[0]);
    forall k | 0 <= k < |items| ensures Settled(v, env, items[k]) {
      assert items[k] == all[k + 1];
    }
    SettledItemsNoOp(v, env, items);
  }

  lemma NoneFailedSame(a: seq<bool>, b: seq<bool>)
    requires NoneFailed(a) && NoneFailed(b) && |a| == |b|
    ensures a == b
  {
  }

  /** A file whose content differs from the text is rewritten with the
      text and its rules regenerated, or the attempt raises. */
  lemma ChangedContentActs(w: World, env: Env, item: SpecItem)
    requires CurrentContent(w.fs, env, item.path).Some?
    requires CurrentContent(w.fs, env, item.path).value != item.text
    ensures ReconcileSpec(w, env, item).1 || PushedThenRan(w, ReconcileSpec(w, env, item).0, item)
  {
    if !ReconcileSpec(w, env, item).1 {
      ChangedPushedThenRan(w, env, item);
    }
  }

  /** The related specifications of a pass over one SLO spec. */
  lemma SingleRelatedItem(lib: YamlLib, display: Yaml -> string, slo: Doc)
    requires Lookup(slo, "service") == Some(YStr("prometheus-availability"))
    ensures RelatedItems([slo], lib, display) == [SpecItem(BuiltinSpecPath, lib.dump(YMap(slo)))]
  {
    OneRelatedItem(lib, display, slo);
    BuiltinIsSpecPath();
  }

  lemma OneRelatedItem(lib: YamlLib, display: Yaml -> string, slo: Doc)
    ensures RelatedItems([slo], lib, display) == [SpecItem(SpecPath(ServiceName(slo, 0, display)), lib.dump(YMap(slo)))]
  {
  }

  /** The built-in file is the one of the service "prometheus-availability". */
  lemma BuiltinIsSpecPath()
    ensures SpecPath("prometheus-availability") == BuiltinSpecPath
  {
  }

  lemma BuiltinInSpecsDir()
    ensures InSpecsDir(BuiltinSpecPath)
  {
    SpecPathInSpecsDir("prometheus-availability");
    BuiltinIsSpecPath();
  }

  /** After a pass in which nothing failed, a related specification for the
      service "prometheus-availability" owns the built-in file. */
  lemma RelatedOverwritesBuiltin(w: World, env: Env, lib: YamlLib, display: Yaml -> string, slo: Doc)
    requires Lookup(slo, "service") == Some(YStr("prometheus-availability"))
    requires lib.dump(YMap(slo)) != ""
    requires !SloSpecsPass(w, env, lib, display, [slo]).raised
    requires NoneFailed(SloSpecsPass(w, env, lib, display, [slo]).failed)
    ensures Settled(SloSpecsPass(w, env, lib, display, [slo]).world, env, SpecItem(BuiltinSpecPath, lib.dump(YMap(slo))))
  {
    var item := SpecItem(BuiltinSpecPath, lib.dump(YMap(slo)));
    var builtin := SpecItem(BuiltinSpecPath, BuiltinSpecText(lib));
    SingleRelatedItem(lib, display, slo);
    var items := [item];
    var w1 := EnsureDirs(w, env, SpecDirs).0;
    var w2 := ReconcileSpec(w1, env, builtin).0;
    BuiltinInSpecsDir();
    assert Coherent(items) && Writable(items);
    ItemsSettle(w2, env, items);
  }

  /** A pass over a container whose built-in file holds another text
      first rewrites it with the built-in text and runs the generator on
      it, or raises. */
  lemma BuiltinChangedActs(v: World, env: Env, lib: YamlLib, display: Yaml -> string, slos: seq<Doc>, text: string)
    requires ExistsIn(v.fs, SloSpecsDir) && ExistsIn(v.fs, GeneratedRulesDir)
    requires Settled(v, env, SpecItem(BuiltinSpecPath, text)) && text != BuiltinSpecText(lib)
    ensures var pass := SloSpecsPass(v, env, lib, display, slos);
            pass.raised || PushedThenRan(v, pass.world, SpecItem(BuiltinSpecPath, BuiltinSpecText(lib)))
  {
    var builtin := SpecItem(BuiltinSpecPath, BuiltinSpecText(lib));
    EnsureDirsNoOp(v, env, SpecDirs);
    var (v2, raised) := ReconcileSpec(v, env, builtin);
    if !raised {
      ChangedPushedThenRan(v, env, builtin);
      var items := RelatedItems(slos, lib, display);
      ItemsLogGrows(v2, env, items);
      PushedThenRanExtends(v, v2, ReconcileItems(v2, env, items).0, builtin);
    }
  }

  /** Two specifications with the same file but different texts (a related
      specification for the service "prometheus-availability" beside the
      built-in one) never settle: whatever the container, after a pass in
      which nothing raised or failed, the next pass rewrites the file with
      the built-in text and runs the generator on it again, or raises. */
  lemma CollidingSpecsNeverSettle(w: World, env: Env, lib: YamlLib, display: Yaml -> string, slo: Doc)
    requires Lookup(slo, "service") == Some(YStr("prometheus-availability"))
    requires lib.dump(YMap(slo)) != BuiltinSpecText(lib) && lib.dump(YMap(slo)) != ""
    requires !SloSpecsPass(w, env, lib, display, [slo]).raised
    requires NoneFailed(SloSpecsPass(w, env, lib, display, [slo]).failed)
    ensures var first := SloSpecsPass(w, env, lib, display, [slo]).world;
            var second := SloSpecsPass(first, env, lib, display, [slo]);
            second.raised || PushedThenRan(first, second.world, SpecItem(BuiltinSpecPath, BuiltinSpecText(lib)))
  {
    var v := SloSpecsPass(w, env, lib, display, [slo]).world;
    RelatedOverwritesBuiltin(w, env, lib, display, slo);
    DirsExistAfterPass(true, w, env, lib, display, [slo]);
    BuiltinChangedActs(v, env, lib, display, [slo], lib.dump(YMap(slo)));
  }
}
