/**
 * What `get_alert_rules` guarantees about the groups it gathers: files
 * that are not ".yaml", cannot be read or do not load add nothing, a file
 * adds only what its "groups" key holds, and the order in which the
 * container lists the directory changes the order of the groups but not
 * which groups there are.
 */
module AlertRuleProperties {
  import opened YamlValues
  import opened Text
  import opened Workload
  import opened SlothWorkload

  /** Gathering over two listings one after the other is gathering over both. */
  lemma {:induction false} GroupsAppend(fs: Fs, env: Env, lib: YamlLib, a: seq<string>, b: seq<string>)
    ensures GroupsOf(fs, env, lib, a + b) == GroupsOf(fs, env, lib, a) + GroupsOf(fs, env, lib, b)
  {
    if b == [] {
      assert a + b == a;
    } else {
      var n := |b| - 1;
      assert (a + b)[..|a + b| - 1] == a + b[..n];
      assert (a + b)[|a + b| - 1] == b[n];
      GroupsAppend(fs, env, lib, a, b[..n]);
    }
  }

  /** A file that is not ".yaml", that cannot be pulled, or whose content
      does not load, drops out. */
  lemma IgnoredFileDropsOut(fs: Fs, env: Env, lib: YamlLib, a: seq<string>, name: string, b: seq<string>)
    requires || !EndsWith(name, ".yaml")
             || PullFrom(fs, env, GeneratedRulesDir + "/" + name).None?
             || (PullFrom(fs, env, GeneratedRulesDir + "/" + name).Some?
                 && lib.load(PullFrom(fs, env, GeneratedRulesDir + "/" + name).value).LoadError?)
    ensures GroupsOf(fs, env, lib, a + [name] + b) == GroupsOf(fs, env, lib, a + b)
  {
    GroupsAppend(fs, env, lib, a + [name], b);
    GroupsAppend(fs, env, lib, a, b);
    assert (a + [name])[..|a|] == a;
  }

  /** A loaded file adds something only when it is a mapping with a
      "groups" key. */
  lemma ExtensionNeedsGroups(rules: Yaml)
    requires Extension(rules) != []
    ensures rules.YMap? && HasKey(rules.entries, "groups")
  {
    LookupFinds(rules.entries, "groups");
  }

  /** A list under "groups" is added item by item, in order. */
  lemma GroupListExtends(d: Doc, i: nat, items: seq<Yaml>)
    requires i < |d| && d[i] == ("groups", YList(items))
    requires forall j :: 0 <= j < i ==> d[j].0 != "groups"
    ensures Extension(YMap(d)) == items
  {
    LookupAt(d, i, "groups");
  }

  /** Every file's groups are among the gathered ones. */
  lemma {:induction false} FileGroupsIncluded(fs: Fs, env: Env, lib: YamlLib, names: seq<string>, name: string)
    requires name in names
    ensures multiset(FileGroups(fs, env, lib, name)) <= multiset(GroupsOf(fs, env, lib, names))
  {
    var i :| 0 <= i < |names| && names[i] == name;
    assert names == names[..i] + [name] + names[i + 1..];
    GroupsAppend(fs, env, lib, names[..i] + [name], names[i + 1..]);
    GroupsAppend(fs, env, lib, names[..i], [name]);
    assert [name][..0] == [];
  }

  /** Taking the last name off one listing and the same name off another
      keeps their multisets equal. */
  lemma RemoveOne(names: seq<string>, other: seq<string>, i: nat)
    requires names != [] && multiset(names) == multiset(other)
    requires i < |other| && other[i] == names[|names| - 1]
    ensures multiset(names[..|names| - 1]) == multiset(other[..i] + other[i + 1..])
  {
    var n := |names| - 1;
    var x := names[n];
    assert names == names[..n] + [x];
    assert other == other[..i] + [x] + other[i + 1..];
    calc {
      multiset(names[..n]);
      multiset(names) - multiset{x};
      multiset(other) - multiset{x};
      multiset(other[..i] + other[i + 1..]);
    }
  }

  /** The groups of a listing, split around one of its names. */
  lemma GroupsAround(fs: Fs, env: Env, lib: YamlLib, names: seq<string>, i: nat)
    requires i < |names|
    ensures GroupsOf(fs, env, lib, names)
         == GroupsOf(fs, env, lib, names[..i]) + FileGroups(fs, env, lib, names[i]) + GroupsOf(fs, env, lib, names[i + 1..])
    ensures GroupsOf(fs, env, lib, names[..i] + names[i + 1..])
         == GroupsOf(fs, env, lib, names[..i]) + GroupsOf(fs, env, lib, names[i + 1..])
  {
    assert names == names[..i] + [names[i]] + names[i + 1..];
    GroupsAppend(fs, env, lib, names[..i] + [names[i]], names[i + 1..]);
    GroupsAppend(fs, env, lib, names[..i], [names[i]]);
    GroupsAppend(fs, env, lib, names[..i], names[i + 1..]);
    assert [names[i]][..0] == [];
  }

  /** Listing the same names in another order gathers the same groups,
      each as many times. */
  lemma {:induction false} GroupsOrderFree(fs: Fs, env: Env, lib: YamlLib, names: seq<string>, other: seq<string>)
    requires multiset(names) == multiset(other)
    ensures multiset(GroupsOf(fs, env, lib, names)) == multiset(GroupsOf(fs, env, lib, other))
    decreases |names|
  {
    if names != [] {
      var n := |names| - 1;
      var x := names[n];
      assert x in multiset(other) by {
        assert names == names[..n] + [x];
      }
      var i :| 0 <= i < |other| && other[i] == x;
      var rest := other[..i] + other[i + 1..];
      RemoveOne(names, other, i);
      GroupsOrderFree(fs, env, lib, names[..n], rest);
      GroupsAround(fs, env, lib, other, i);
    } else {
      assert other == [];
    }
  }

  /** A name occurs once in a sequence without repetitions, if at all. */
  lemma {:induction false} DistinctCount(names: seq<string>, x: string)
    requires forall i, j :: 0 <= i < j < |names| ==> names[i] != names[j]
    ensures multiset(names)[x] == if x in names then 1 else 0
  {
    if names != [] {
      var n := |names| - 1;
      assert names == names[..n] + [names[n]];
      DistinctCount(names[..n], x);
      assert names[n] !in names[..n];
    }
  }

  /** Two listings of the same directory hold the same names. */
  lemma ListingsAgree(l1: seq<string>, l2: seq<string>, s: set<string>)
    requires IsListing(l1, s) && IsListing(l2, s)
    ensures multiset(l1) == multiset(l2)
  {
    forall x ensures multiset(l1)[x] == multiset(l2)[x] {
      DistinctCount(l1, x);
      DistinctCount(l2, x);
    }
  }

  /** The rules `get_alert_rules` returns do not depend on the order in
      which the container lists the rules directory, up to the order of
      the groups. */
  lemma AlertRulesOrderFree(connected: bool, fs: Fs, env: Env, lib: YamlLib, l1: seq<string>, l2: seq<string>)
    requires IsListing(l1, Children(fs, GeneratedRulesDir)) && IsListing(l2, Children(fs, GeneratedRulesDir))
    ensures AlertRules(connected, fs, env, lib, Some(l1)) == YMap([]) <==> AlertRules(connected, fs, env, lib, Some(l2)) == YMap([])
    ensures AlertRules(connected, fs, env, lib, Some(l1)) != YMap([]) ==>
      multiset(AlertRules(connected, fs, env, lib, Some(l1)).entries[0].1.items)
      == multiset(AlertRules(connected, fs, env, lib, Some(l2)).entries[0].1.items)
  {
    ListingsAgree(l1, l2, Children(fs, GeneratedRulesDir));
    GroupsOrderFree(fs, env, lib, l1, l2);
  }
}
