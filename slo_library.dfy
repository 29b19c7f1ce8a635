/**
 * The SLO relation library (lib/charms/sloth_k8s/v0/slo.py): validation of
 * one SLO specification (`SLOSpec`), the provider that publishes a list of
 * specifications into its databag on every relation, and the requirer that
 * collects the valid specifications from every remote unit.
 *
 * A databag is a `map<string, string>`; a relation, as the requirer sees
 * it, is the list of its remote units' databags in `relation.units` order.
 * The YAML library is the parameter `lib` (see YamlValues).
 */
module SloLibrary {
  import opened YamlValues
  import opened Text

  /** The databag key both sides use. */
  const SloSpecKey: string := "slo_spec"

  /** What `provide_slos` puts between the dumped documents. */
  const DocumentSeparator: string := "---\n"

  /** A relation, identified by its id. */
  type RelationId = nat

  /** A databag of one unit in one relation. */
  type Databag = map<string, string>

  /** The validated model of one specification. */
  datatype SloSpec = SloSpec(version: string, service: string, labels: seq<(string, string)>, slos: seq<Doc>)

  // ----- SLOSpec -----

  /** `validate_version`: non-empty and containing a "/". */
  function ValidateVersion(f: Option<Yaml>): Option<string> {
    match f
    case Some(YStr(v)) => if v != "" && '/' in v then Some(v) else None
    case _ => None
  }

  /** `service: str`, required; its emptiness is not checked. */
  function ValidateService(f: Option<Yaml>): Option<string> {
    match f
    case Some(YStr(s)) => Some(s)
    case _ => None
  }

  /** A mapping whose values are all strings, as its list of pairs. */
  function StringPairs(d: Doc): Option<seq<(string, string)>> {
    if d == [] then Some([])
    else if !d[0].1.YStr? then None
    else match StringPairs(d[1..])
      case None => None
      case Some(rest) => Some([(d[0].0, d[0].1.s)] + rest)
  }

  /** `labels: Dict[str, str] = Field(default_factory=dict)`. */
  function ValidateLabels(f: Option<Yaml>): Option<seq<(string, string)>> {
    match f
    case None => Some([])
    case Some(YMap(d)) => StringPairs(d)
    case Some(_) => None
  }

  /** A list whose items are all mappings, as its list of mappings. */
  function Mappings(items: seq<Yaml>): Option<seq<Doc>> {
    if items == [] then Some([])
    else if !items[0].YMap? then None
    else match Mappings(items[1..])
      case None => None
      case Some(rest) => Some([items[0].entries] + rest)
  }

  /** `slos: List[Dict[str, Any]]` with `validate_slos`: at least one. */
  function ValidateSlos(f: Option<Yaml>): Option<seq<Doc>> {
    match f
    case Some(YList(items)) => if items == [] then None else Mappings(items)
    case _ => None
  }

  /** `SLOSpec(**d)`: the model, or a ValidationError. */
  function ValidateSloSpec(d: Doc): Option<SloSpec> {
    var version := ValidateVersion(Lookup(d, "version"));
    var service := ValidateService(Lookup(d, "service"));
    var labels := ValidateLabels(Lookup(d, "labels"));
    var slos := ValidateSlos(Lookup(d, "slos"));
    if version.Some? && service.Some? && labels.Some? && slos.Some? then
      Some(SloSpec(version.value, service.value, labels.value, slos.value))
    else None
  }

  /** `SLOSpec(**y)` succeeds: `y` is a mapping and passes validation. */
  predicate IsValidSloSpec(y: Yaml) {
    y.YMap? && ValidateSloSpec(y.entries).Some?
  }

  /** What every accepted specification satisfies. */
  predicate WellFormedSpec(s: SloSpec) {
    s.version != "" && '/' in s.version && s.slos != []
  }

  function LabelsToYaml(ls: seq<(string, string)>): Doc {
    if ls == [] then [] else [(ls[0].0, YStr(ls[0].1))] + LabelsToYaml(ls[1..])
  }

  function DocsToYaml(ds: seq<Doc>): seq<Yaml> {
    if ds == [] then [] else [YMap(ds[0])] + DocsToYaml(ds[1..])
  }

  lemma {:induction false} StringPairsInverse(d: Doc, ls: seq<(string, string)>)
    ensures StringPairs(d) == Some(ls) <==> d == LabelsToYaml(ls)
  {
    if d != [] && ls != [] {
      var tail := d[1..];
      StringPairsInverse(tail, ls[1..]);
      if d == LabelsToYaml(ls) {
        assert tail == LabelsToYaml(ls[1..]);
        assert d[0] == (ls[0].0, YStr(ls[0].1));
        assert (ls[0].0, ls[0].1) == ls[0];
        assert ls == [ls[0]] + ls[1..];
      }
      if StringPairs(d) == Some(ls) {
        var r := StringPairs(tail);
        assert d[0].1.YStr? && r.Some?;
        assert ls == [(d[0].0, d[0].1.s)] + r.value;
        assert ls[1..] == r.value;
        assert d[0] == (ls[0].0, YStr(ls[0].1));
        assert d == [d[0]] + tail;
      }
    }
  }

  lemma {:induction false} MappingsInverse(items: seq<Yaml>, ds: seq<Doc>)
    ensures Mappings(items) == Some(ds) <==> items == DocsToYaml(ds)
  {
    if items != [] && ds != [] {
      var tail := items[1..];
      MappingsInverse(tail, ds[1..]);
      if items == DocsToYaml(ds) {
        assert tail == DocsToYaml(ds[1..]);
        assert items[0] == YMap(ds[0]);
        assert ds == [ds[0]] + ds[1..];
      }
      if Mappings(items) == Some(ds) {
        var r := Mappings(tail);
        assert items[0].YMap? && r.Some?;
        assert ds == [items[0].entries] + r.value;
        assert ds[1..] == r.value;
        assert items[0] == YMap(ds[0]);
        assert items == [items[0]] + tail;
      }
    }
  }

  /** The document a provider writes for `s` (its labels spelled out). */
  function SpecToDoc(s: SloSpec): Doc {
    [("version", YStr(s.version)),
     ("service", YStr(s.service)),
     ("labels", YMap(LabelsToYaml(s.labels))),
     ("slos", YList(DocsToYaml(s.slos)))]
  }

  /** Which parts of a document a specification is read from; a missing
      `labels` stands for no labels. */
  predicate DescribesSpec(d: Doc, s: SloSpec) {
    && Lookup(d, "version") == Some(YStr(s.version))
    && Lookup(d, "service") == Some(YStr(s.service))
    && (match Lookup(d, "labels")
        case None => s.labels == []
        case Some(v) => v == YMap(LabelsToYaml(s.labels)))
    && Lookup(d, "slos") == Some(YList(DocsToYaml(s.slos)))
  }

  /** A document passes `SLOSpec` exactly when it describes a well-formed
      specification: a version with a "/", a string service, string labels
      or none at all, and a non-empty list of mappings as `slos`. */
  lemma ValidateSloSpecCharacterised(d: Doc, s: SloSpec)
    ensures ValidateSloSpec(d) == Some(s) <==> WellFormedSpec(s) && DescribesSpec(d, s)
  {
    if Lookup(d, "labels").Some? && Lookup(d, "labels").value.YMap? {
      StringPairsInverse(Lookup(d, "labels").value.entries, s.labels);
    }
    if Lookup(d, "slos").Some? && Lookup(d, "slos").value.YList? {
      MappingsInverse(Lookup(d, "slos").value.items, s.slos);
    }
  }

  /** Writing a specification out and validating it gives it back exactly
      when it is well formed. */
  lemma SpecRoundTrip(s: SloSpec)
    ensures ValidateSloSpec(SpecToDoc(s)) == if WellFormedSpec(s) then Some(s) else None
  {
    var d := SpecToDoc(s);
    LookupAt(d, 0, "version");
    LookupAt(d, 1, "service");
    LookupAt(d, 2, "labels");
    LookupAt(d, 3, "slos");
    assert DescribesSpec(d, s);
    ValidateSloSpecCharacterised(d, s);
  }

  /** The unit tests' cases: "invalid" and an empty `slos` are refused,
      "a/b/c" is accepted, `labels` defaults to none, and an empty service
      name passes. */
  lemma SloSpecExamples(slo: Doc)
    ensures ValidateVersion(Some(YStr("invalid"))) == None
    ensures ValidateVersion(Some(YStr("a/b/c"))) == Some("a/b/c")
    ensures ValidateVersion(Some(YStr(""))) == None
    ensures ValidateSlos(Some(YList([]))) == None
    ensures ValidateSloSpec([("version", YStr("prometheus/v1"))]) == None
    ensures ValidateSloSpec([("version", YStr("prometheus/v1")), ("service", YStr("")), ("slos", YList([YMap(slo)]))])
         == Some(SloSpec("prometheus/v1", "", [], [slo]))
  {
    var d := [("version", YStr("prometheus/v1")), ("service", YStr("")), ("slos", YList([YMap(slo)]))];
    LookupAt(d, 0, "version");
    LookupAt(d, 1, "service");
    LookupAt(d, 2, "slos");
    LookupFinds(d, "labels");
    assert d[0].0 != "labels" && d[1].0 != "labels" && d[2].0 != "labels";
    assert Lookup(d, "labels") == None;
    var items := [YMap(slo)];
    assert items[1..] == [];
    assert Mappings(items[1..]) == Some([]);
    var m := Mappings(items);
    assert m.Some? && m.value == [slo];
  }

  // ----- Provider -----

  /** What one `provide_slos` call writes: every document dumped, in input
      order, joined with the document separator. */
  function Serialize(lib: YamlLib, specs: seq<Yaml>): string {
    Join(DocumentSeparator, DumpAll(lib, specs))
  }

  function DumpAll(lib: YamlLib, specs: seq<Yaml>): (r: seq<string>)
    ensures |r| == |specs|
    ensures forall i :: 0 <= i < |specs| ==> r[i] == lib.dump(specs[i])
  {
    if specs == [] then [] else [lib.dump(specs[0])] + DumpAll(lib, specs[1..])
  }

  /** `relation.data[unit]["slo_spec"] = value` on one relation. */
  function WriteBag(bags: map<RelationId, Databag>, r: RelationId, value: string): map<RelationId, Databag> {
    bags[r := (if r in bags then bags[r] else map[])[SloSpecKey := value]]
  }

  /** The databags after writing `value` on each relation of `rels` in turn:
      every listed relation's bag holds `value` under the key and keeps its
      other keys; every other relation's bag is untouched. */
  function Published(bags: map<RelationId, Databag>, rels: seq<RelationId>, value: string): (r: map<RelationId, Databag>)
    ensures forall id :: id in rels ==> id in r && SloSpecKey in r[id] && r[id][SloSpecKey] == value
    ensures forall id :: id in rels && id in bags ==>
      forall k :: k != SloSpecKey ==> (k in r[id] <==> k in bags[id]) && (k in bags[id] ==> r[id][k] == bags[id][k])
    ensures forall id :: id in rels && id !in bags ==> r[id].Keys == {SloSpecKey}
    ensures forall id :: id !in rels ==> (id in r <==> id in bags) && (id in bags ==> r[id] == bags[id])
  {
    if rels == [] then bags
    else WriteBag(Published(bags, rels[..|rels| - 1], value), rels[|rels| - 1], value)
  }

  predicate AllValid(specs: seq<Yaml>) {
    forall i :: 0 <= i < |specs| ==> IsValidSloSpec(specs[i])
  }

  /** The provider side of the relation, for this unit. */
  class SloProvider {
    /** `self._charm.model.relations.get(self._relation_name, [])`. */
    const relations: seq<RelationId>
    /** This unit's databag in each relation. */
    var bags: map<RelationId, Databag>
    const lib: YamlLib

    constructor(relations: seq<RelationId>, bags: map<RelationId, Databag>, lib: YamlLib)
      ensures this.relations == relations && this.bags == bags && this.lib == lib
    {
      this.relations := relations;
      this.bags := bags;
      this.lib := lib;
    }

    /** `provide_slos`: nothing for an empty list; a raise, before anything
        is written, if any specification is invalid; nothing without a
        relation; otherwise the same serialised text in every relation. */
    method ProvideSlos(specs: seq<Yaml>) returns (raised: bool)
      modifies this
      ensures raised <==> specs != [] && !AllValid(specs)
      ensures bags == if specs == [] || raised || relations == [] then old(bags)
                      else Published(old(bags), relations, Serialize(lib, specs))
    {
      if specs == [] {
        return false;
      }
      var i := 0;
      while i < |specs|
        invariant 0 <= i <= |specs|
        invariant forall k :: 0 <= k < i ==> IsValidSloSpec(specs[k])
      {
        if !IsValidSloSpec(specs[i]) {
          return true;
        }
        i := i + 1;
      }
      if relations == [] {
        return false;
      }
      var merged := Serialize(lib, specs);
      var n := 0;
      while n < |relations|
        invariant 0 <= n <= |relations|
        invariant bags == Published(old(bags), relations[..n], merged)
      {
        assert relations[..n + 1][..n] == relations[..n];
        bags := WriteBag(bags, relations[n], merged);
        n := n + 1;
      }
      assert relations[..n] == relations;
      raised := false;
    }

    /** `provide_slo(s)` is `provide_slos([s])`. */
    method ProvideSlo(spec: Yaml) returns (raised: bool)
      modifies this
      ensures raised <==> !IsValidSloSpec(spec)
      ensures bags == if raised || relations == [] then old(bags)
                      else Published(old(bags), relations, Serialize(lib, [spec]))
    {
      var one := [spec];
      assert one[0] == spec;
      assert AllValid(one) <==> IsValidSloSpec(spec);
      raised := ProvideSlos(one);
    }
  }

  // ----- Requirer -----

  /** A document whose `SLOSpec(**doc)` raises a TypeError rather than a
      ValidationError: a non-empty value that is not a mapping.  It escapes
      the per-document handler and ends the unit. */
  predicate Escapes(y: Yaml) {
    Truthy(y) && !y.YMap?
  }

  /** What one document contributes: itself, unchanged, when it is non-empty
      and passes validation. */
  function Kept(y: Yaml): seq<Doc> {
    if Truthy(y) && IsValidSloSpec(y) then [y.entries] else []
  }

  /** The documents kept from a list, in order. */
  function Accepted(docs: seq<Yaml>): seq<Doc> {
    if docs == [] then [] else Accepted(docs[..|docs| - 1]) + Kept(docs[|docs| - 1])
  }

  /** The index of the first escaping document, or `|docs|`. */
  function FirstEscape(docs: seq<Yaml>): (e: nat)
    ensures e <= |docs|
    ensures forall m :: 0 <= m < e ==> !Escapes(docs[m])
    ensures e < |docs| ==> Escapes(docs[e])
  {
    if docs == [] then 0
    else if Escapes(docs[0]) then 0
    else 1 + FirstEscape(docs[1..])
  }

  /** What one remote unit contributes: nothing for a missing or empty
      value or a YAML error; otherwise the kept documents before the
      first escaping one. */
  function UnitSlos(bag: Databag, lib: YamlLib): seq<Doc> {
    if SloSpecKey !in bag || bag[SloSpecKey] == "" then []
    else match lib.loadAll(bag[SloSpecKey])
      case LoadAllError => []
      case ParsedAll(docs) => Accepted(docs[..FirstEscape(docs)])
  }

  /** What the units of one relation contribute, in unit order. */
  function RelationSlos(units: seq<Databag>, lib: YamlLib): seq<Doc> {
    if units == [] then [] else RelationSlos(units[..|units| - 1], lib) + UnitSlos(units[|units| - 1], lib)
  }

  /** What `get_slos` returns: relation by relation, unit by unit. */
  function Collect(relations: seq<seq<Databag>>, lib: YamlLib): seq<Doc> {
    if relations == [] then []
    else Collect(relations[..|relations| - 1], lib) + RelationSlos(relations[|relations| - 1], lib)
  }

  lemma AcceptedSnoc(docs: seq<Yaml>, y: Yaml)
    ensures Accepted(docs + [y]) == Accepted(docs) + Kept(y)
  {
    assert (docs + [y])[..|docs|] == docs;
  }

  /** One more document taken by the loop of `get_slos`. */
  lemma AcceptedStep(slos: seq<Doc>, docs: seq<Yaml>, k: nat, before: seq<Doc>)
    requires k < |docs| && before == slos + Accepted(docs[..k])
    ensures before + Kept(docs[k]) == slos + Accepted(docs[..k + 1])
  {
    assert docs[..k + 1] == docs[..k] + [docs[k]];
    AcceptedSnoc(docs[..k], docs[k]);
  }

  /** The loop stops at the first escaping document. */
  lemma {:induction false} FirstEscapeIs(docs: seq<Yaml>, k: nat)
    requires k <= |docs|
    requires forall m :: 0 <= m < k ==> !Escapes(docs[m])
    requires k < |docs| ==> Escapes(docs[k])
    ensures FirstEscape(docs) == k
  {
    if k > 0 {
      FirstEscapeIs(docs[1..], k - 1);
    }
  }

  lemma RelationSlosSnoc(units: seq<Databag>, bag: Databag, lib: YamlLib)
    ensures RelationSlos(units + [bag], lib) == RelationSlos(units, lib) + UnitSlos(bag, lib)
  {
    assert (units + [bag])[..|units|] == units;
  }

  lemma CollectSnoc(relations: seq<seq<Databag>>, units: seq<Databag>, lib: YamlLib)
    ensures Collect(relations + [units], lib) == Collect(relations, lib) + RelationSlos(units, lib)
  {
    assert (relations + [units])[..|relations|] == relations;
  }

  lemma AppendAssoc(a: seq<Doc>, b: seq<Doc>, c: seq<Doc>)
    ensures (a + b) + c == a + (b + c)
  {
  }

  /** `get_slos`: its outer loop, over the relations.  Each level of the
      three nested loops is a method of its own. */
  method GetSlos(relations: seq<seq<Databag>>, lib: YamlLib) returns (slos: seq<Doc>)
    ensures slos == Collect(relations, lib)
  {
    slos := [];
    var i := 0;
    while i < |relations|
      invariant 0 <= i <= |relations|
      invariant slos == Collect(relations[..i], lib)
    {
      slos := AppendRelationSlos(slos, relations[i], lib);
      assert relations[..i + 1] == relations[..i] + [relations[i]];
      CollectSnoc(relations[..i], relations[i], lib);
      i := i + 1;
    }
    assert relations[..i] == relations;
  }

  /** The middle loop of `get_slos`, over the units of one relation. */
  method AppendRelationSlos(slos: seq<Doc>, units: seq<Databag>, lib: YamlLib) returns (result: seq<Doc>)
    ensures result == slos + RelationSlos(units, lib)
  {
    result := slos;
    var j := 0;
    while j < |units|
      invariant 0 <= j <= |units|
      invariant result == slos + RelationSlos(units[..j], lib)
    {
      result := AppendUnitSlos(result, units[j], lib);
      assert units[..j + 1] == units[..j] + [units[j]];
      RelationSlosSnoc(units[..j], units[j], lib);
      AppendAssoc(slos, RelationSlos(units[..j], lib), UnitSlos(units[j], lib));
      j := j + 1;
    }
    assert units[..j] == units;
  }

  /** The inner loop of `get_slos`, for one remote unit: its documents,
      one by one, appended to `slos`. */
  method AppendUnitSlos(slos: seq<Doc>, bag: Databag, lib: YamlLib) returns (result: seq<Doc>)
    ensures result == slos + UnitSlos(bag, lib)
  {
    result := slos;
    if SloSpecKey !in bag || bag[SloSpecKey] == "" {
      return;
    }
    match lib.loadAll(bag[SloSpecKey]) {
      case LoadAllError =>
      case ParsedAll(docs) =>
        var k := 0;
        while k < |docs|
          invariant 0 <= k <= |docs|
          invariant forall m :: 0 <= m < k ==> !Escapes(docs[m])
          invariant result == slos + Accepted(docs[..k])
        {
          var doc := docs[k];
          if Truthy(doc) && !doc.YMap? {
            // `SLOSpec(**doc)` raises a TypeError, which leaves the unit.
            break;
          }
          ghost var before := result;
          if Truthy(doc) && IsValidSloSpec(doc) {
            result := result + [doc.entries];
          }
          AcceptedStep(slos, docs, k, before);
          k := k + 1;
        }
        FirstEscapeIs(docs, k);
    }
  }

  /** Every collected document passes `SLOSpec`, and it is returned as the
      raw mapping, not the validated model. */
  lemma {:induction false} CollectedAreValid(relations: seq<seq<Databag>>, lib: YamlLib)
    ensures forall d :: d in Collect(relations, lib) ==> ValidateSloSpec(d).Some? && d != []
  {
    if relations != [] {
      CollectedAreValid(relations[..|relations| - 1], lib);
      RelationSlosValid(relations[|relations| - 1], lib);
    }
  }

  lemma {:induction false} RelationSlosValid(units: seq<Databag>, lib: YamlLib)
    ensures forall d :: d in RelationSlos(units, lib) ==> ValidateSloSpec(d).Some? && d != []
  {
    if units != [] {
      RelationSlosValid(units[..|units| - 1], lib);
      var bag := units[|units| - 1];
      if SloSpecKey in bag && bag[SloSpecKey] != "" && lib.loadAll(bag[SloSpecKey]).ParsedAll? {
        var docs := lib.loadAll(bag[SloSpecKey]).docs;
        AcceptedValid(docs[..FirstEscape(docs)]);
      }
    }
  }

  lemma {:induction false} AcceptedValid(docs: seq<Yaml>)
    ensures forall d :: d in Accepted(docs) ==> ValidateSloSpec(d).Some? && d != []
  {
    if docs != [] {
      AcceptedValid(docs[..|docs| - 1]);
    }
  }

  /** A document is kept exactly when it is a non-empty mapping that passes
      validation, whatever the documents around it: an invalid one is
      skipped on its own. */
  lemma {:induction false} AcceptedMembers(docs: seq<Yaml>, d: Doc)
    ensures d in Accepted(docs) <==> YMap(d) in docs && d != [] && IsValidSloSpec(YMap(d))
  {
    if docs != [] {
      var init, last := docs[..|docs| - 1], docs[|docs| - 1];
      AcceptedMembers(init, d);
      assert docs == init + [last];
      assert d in Kept(last) <==> last == YMap(d) && d != [] && IsValidSloSpec(YMap(d));
      assert YMap(d) in docs <==> YMap(d) in init || YMap(d) == last;
    }
  }

  /** Collection order: the specifications of later relations follow those
      of earlier ones. */
  lemma {:induction false} CollectAppend(a: seq<seq<Databag>>, b: seq<seq<Databag>>, lib: YamlLib)
    ensures Collect(a + b, lib) == Collect(a, lib) + Collect(b, lib)
    decreases |b|
  {
    if b != [] {
      var init, last := b[..|b| - 1], b[|b| - 1];
      assert b == init + [last];
      assert a + b == (a + init) + [last];
      CollectAppend(a, init, lib);
      CollectSnoc(a + init, last, lib);
      CollectSnoc(init, last, lib);
    } else {
      assert a + b == a;
    }
  }

  /** A YAML error drops every document of the unit. */
  lemma ParseErrorDropsUnit(bag: Databag, lib: YamlLib)
    requires SloSpecKey in bag && lib.loadAll(bag[SloSpecKey]) == LoadAllError
    ensures UnitSlos(bag, lib) == []
  {
  }

  /** An escaping document drops the rest of its unit but keeps what came
      before it. */
  lemma EscapeDropsRest(bag: Databag, lib: YamlLib, docs: seq<Yaml>, e: nat)
    requires SloSpecKey in bag && bag[SloSpecKey] != "" && lib.loadAll(bag[SloSpecKey]) == ParsedAll(docs)
    requires e < |docs| && Escapes(docs[e]) && forall m :: 0 <= m < e ==> !Escapes(docs[m])
    ensures UnitSlos(bag, lib) == Accepted(docs[..e])
  {
    assert FirstEscape(docs) == e;
  }

  /** A valid specification is non-empty, so it is kept and never escapes. */
  lemma ValidIsKept(y: Yaml)
    requires IsValidSloSpec(y)
    ensures !Escapes(y) && Kept(y) == [y.entries]
  {
    assert Lookup(y.entries, "version").Some?;
  }

  lemma {:induction false} AcceptedAllValid(specs: seq<Yaml>)
    requires AllValid(specs)
    ensures FirstEscape(specs) == |specs|
    ensures |Accepted(specs)| == |specs|
    ensures forall i :: 0 <= i < |specs| ==> Accepted(specs)[i] == specs[i].entries
  {
    forall m | 0 <= m < |specs|
      ensures !Escapes(specs[m])
    {
      ValidIsKept(specs[m]);
    }
    if specs != [] {
      var init, last := specs[..|specs| - 1], specs[|specs| - 1];
      assert AllValid(init);
      AcceptedAllValid(init);
      ValidIsKept(last);
      var acc := Accepted(init);
      assert Accepted(specs) == acc + [last.entries];
      forall i | 0 <= i < |specs|
        ensures Accepted(specs)[i] == specs[i].entries
      {
        if i < |init| {
          assert Accepted(specs)[i] == acc[i];
        }
      }
    }
  }

  lemma JoinNonEmpty(sep: string, parts: seq<string>)
    requires parts != [] && parts[0] != ""
    ensures Join(sep, parts) != ""
  {
  }

  /** What the provider writes is what the requirer reads back: the
      provider's list of documents, in order, for any unit's databag that
      holds the provider's value, assuming the YAML library parses a
      `---`-joined dump back into the dumped documents. */
  lemma ProvidedThenCollected(lib: YamlLib, specs: seq<Yaml>, bag: Databag)
    requires specs != [] && AllValid(specs)
    requires lib.dump(specs[0]) != ""
    requires lib.loadAll(Serialize(lib, specs)) == ParsedAll(specs)
    requires SloSpecKey in bag && bag[SloSpecKey] == Serialize(lib, specs)
    ensures |UnitSlos(bag, lib)| == |specs|
    ensures forall i :: 0 <= i < |specs| ==> UnitSlos(bag, lib)[i] == specs[i].entries
  {
    JoinNonEmpty(DocumentSeparator, DumpAll(lib, specs));
    AcceptedAllValid(specs);
    assert specs[..|specs|] == specs;
  }
}
