/**
 * The AlertWindows document that overrides the generator's built-in
 * error-budget alerting windows, and its validation
 * (src/alert_windows_models.py).
 *
 * `ValidateAlertWindows` plays the part of `AlertWindows.model_validate`:
 * it takes the parsed document and either returns the typed record or
 * rejects it.  `Describes` says which parts of the document the record
 * was read from and `WellFormed` what every accepted record satisfies;
 * `ValidateAlertWindowsCharacterised` proves the validator accepts exactly
 * the documents that describe a well-formed record.
 */
module AlertWindowsModels {
  import opened YamlValues
  import opened Durations

  const AlertWindowsKind: string := "AlertWindows"
  const AlertWindowsApiVersion: string := "sloth.slok.dev/v1"

  /** One alert window: how much error budget may burn within it. */
  datatype Window = Window(errorBudgetPercent: real, shortWindow: string, longWindow: string)

  /** `QuickSlowWindow`, and its two named copies `PageWindow` and `TicketWindow`. */
  datatype QuickSlowWindow = QuickSlowWindow(quick: Window, slow: Window)
  type PageWindow = QuickSlowWindow
  type TicketWindow = QuickSlowWindow

  datatype Spec = Spec(sloPeriod: string, page: PageWindow, ticket: TicketWindow)

  datatype AlertWindows = AlertWindows(kind: string, apiVersion: string, spec: Spec)

  /** `value[key]` on a mapping; nothing for a missing key or a non-mapping. */
  function Get(y: Yaml, key: string): Option<Yaml> {
    match y
    case YMap(d) => Lookup(d, key)
    case _ => None
  }

  // ----- What an accepted document satisfies -----

  predicate WindowOk(w: Window) {
    && 0.0 < w.errorBudgetPercent <= 100.0
    && MatchesDurationPattern(w.shortWindow)
    && MatchesDurationPattern(w.longWindow)
  }

  predicate QuickSlowOk(q: QuickSlowWindow) {
    WindowOk(q.quick) && WindowOk(q.slow)
  }

  predicate WellFormed(aw: AlertWindows) {
    && aw.kind == AlertWindowsKind
    && aw.apiVersion == AlertWindowsApiVersion
    && MatchesDurationPattern(aw.spec.sloPeriod)
    && QuickSlowOk(aw.spec.page)
    && QuickSlowOk(aw.spec.ticket)
  }

  // ----- Which parts of a document a record is read from -----

  predicate WindowDescribes(y: Yaml, w: Window) {
    && Get(y, "errorBudgetPercent") == Some(YNum(w.errorBudgetPercent))
    && Get(y, "shortWindow") == Some(YStr(w.shortWindow))
    && Get(y, "longWindow") == Some(YStr(w.longWindow))
  }

  predicate FieldDescribesWindow(y: Yaml, key: string, w: Window) {
    Get(y, key).Some? && WindowDescribes(Get(y, key).value, w)
  }

  predicate QuickSlowDescribes(y: Yaml, q: QuickSlowWindow) {
    FieldDescribesWindow(y, "quick", q.quick) && FieldDescribesWindow(y, "slow", q.slow)
  }

  predicate FieldDescribesQuickSlow(y: Yaml, key: string, q: QuickSlowWindow) {
    Get(y, key).Some? && QuickSlowDescribes(Get(y, key).value, q)
  }

  predicate SpecDescribes(y: Yaml, s: Spec) {
    && Get(y, "sloPeriod") == Some(YStr(s.sloPeriod))
    && FieldDescribesQuickSlow(y, "page", s.page)
    && FieldDescribesQuickSlow(y, "ticket", s.ticket)
  }

  /** Every required field of `aw`, and each nested mapping on the way to
      it, is present in `y` with exactly that value.  Other keys of `y`
      play no part (pydantic ignores extra fields). */
  predicate Describes(y: Yaml, aw: AlertWindows) {
    && Get(y, "kind") == Some(YStr(aw.kind))
    && Get(y, "apiVersion") == Some(YStr(aw.apiVersion))
    && Get(y, "spec").Some?
    && SpecDescribes(Get(y, "spec").value, aw.spec)
  }

  // ----- The validators -----

  /** `errorBudgetPercent: float = Field(..., gt=0, le=100)`. */
  function ValidatePercent(f: Option<Yaml>): Option<real> {
    match f
    case Some(YNum(p)) => if 0.0 < p <= 100.0 then Some(p) else None
    case _ => None
  }

  /** A required `str` field run through the duration validator. */
  function ValidateDurationField(f: Option<Yaml>): Option<string> {
    match f
    case Some(YStr(s)) => if ValidateDuration(s).Accepted? then Some(ValidateDuration(s).value) else None
    case _ => None
  }

  /** A required `str` field that must equal one literal (`validate_kind`, `validate_api_version`). */
  function ValidateLiteral(f: Option<Yaml>, literal: string): Option<string> {
    match f
    case Some(YStr(s)) => if s == literal then Some(s) else None
    case _ => None
  }

  /** `Window`: all three fields required and each checked. */
  function ValidateWindow(f: Option<Yaml>): Option<Window> {
    match f
    case None => None
    case Some(y) =>
      var p := ValidatePercent(Get(y, "errorBudgetPercent"));
      var s := ValidateDurationField(Get(y, "shortWindow"));
      var l := ValidateDurationField(Get(y, "longWindow"));
      if y.YMap? && p.Some? && s.Some? && l.Some? then Some(Window(p.value, s.value, l.value)) else None
  }

  /** `QuickSlowWindow` (and so `PageWindow` and `TicketWindow`). */
  function ValidateQuickSlow(f: Option<Yaml>): Option<QuickSlowWindow> {
    match f
    case None => None
    case Some(y) =>
      var q := ValidateWindow(Get(y, "quick"));
      var s := ValidateWindow(Get(y, "slow"));
      if q.Some? && s.Some? then Some(QuickSlowWindow(q.value, s.value)) else None
  }

  /** `Spec`: `sloPeriod` through the same duration check, `page` and `ticket` required. */
  function ValidateSpec(f: Option<Yaml>): Option<Spec> {
    match f
    case None => None
    case Some(y) =>
      var period := ValidateDurationField(Get(y, "sloPeriod"));
      var page := ValidateQuickSlow(Get(y, "page"));
      var ticket := ValidateQuickSlow(Get(y, "ticket"));
      if period.Some? && page.Some? && ticket.Some? then Some(Spec(period.value, page.value, ticket.value))
      else None
  }

  /** `AlertWindows.model_validate(y)`: the typed record, or a rejection. */
  function ValidateAlertWindows(y: Yaml): (r: Option<AlertWindows>)
    ensures r.Some? ==> WellFormed(r.value) && Describes(y, r.value)
  {
    var kind := ValidateLiteral(Get(y, "kind"), AlertWindowsKind);
    var api := ValidateLiteral(Get(y, "apiVersion"), AlertWindowsApiVersion);
    var spec := ValidateSpec(Get(y, "spec"));
    if kind.Some? && api.Some? && spec.Some? then Some(AlertWindows(kind.value, api.value, spec.value))
    else None
  }

  // ----- Completeness and the round trip -----

  lemma ValidateDurationFieldCharacterised(f: Option<Yaml>, s: string)
    ensures ValidateDurationField(f) == Some(s) <==> f == Some(YStr(s)) && MatchesDurationPattern(s)
  {
  }

  lemma ValidateWindowCharacterised(f: Option<Yaml>, w: Window)
    ensures ValidateWindow(f) == Some(w) <==> f.Some? && WindowDescribes(f.value, w) && WindowOk(w)
  {
    if f.Some? {
      ValidateDurationFieldCharacterised(Get(f.value, "shortWindow"), w.shortWindow);
      ValidateDurationFieldCharacterised(Get(f.value, "longWindow"), w.longWindow);
    }
  }

  lemma ValidateQuickSlowCharacterised(f: Option<Yaml>, q: QuickSlowWindow)
    ensures ValidateQuickSlow(f) == Some(q) <==> f.Some? && QuickSlowDescribes(f.value, q) && QuickSlowOk(q)
  {
    if f.Some? {
      ValidateWindowCharacterised(Get(f.value, "quick"), q.quick);
      ValidateWindowCharacterised(Get(f.value, "slow"), q.slow);
    }
  }

  lemma ValidateSpecCharacterised(f: Option<Yaml>, s: Spec)
    ensures ValidateSpec(f) == Some(s) <==>
      f.Some? && SpecDescribes(f.value, s) && MatchesDurationPattern(s.sloPeriod)
      && QuickSlowOk(s.page) && QuickSlowOk(s.ticket)
  {
    if f.Some? {
      ValidateDurationFieldCharacterised(Get(f.value, "sloPeriod"), s.sloPeriod);
      ValidateQuickSlowCharacterised(Get(f.value, "page"), s.page);
      ValidateQuickSlowCharacterised(Get(f.value, "ticket"), s.ticket);
    }
  }

  /** A document is accepted exactly when it describes a well-formed
      record, and the record returned is the one it describes: validity is
      the conjunction of the literal checks, the period check and the
      three checks of each of the four windows, and every validator hands
      its input back unchanged. */
  lemma ValidateAlertWindowsCharacterised(y: Yaml, aw: AlertWindows)
    ensures ValidateAlertWindows(y) == Some(aw) <==> WellFormed(aw) && Describes(y, aw)
  {
    ValidateSpecCharacterised(Get(y, "spec"), aw.spec);
  }

  // ----- Rendering a record as a document -----

  function WindowToYaml(w: Window): Yaml {
    YMap([("errorBudgetPercent", YNum(w.errorBudgetPercent)),
          ("shortWindow", YStr(w.shortWindow)),
          ("longWindow", YStr(w.longWindow))])
  }

  function QuickSlowToYaml(q: QuickSlowWindow): Yaml {
    YMap([("quick", WindowToYaml(q.quick)), ("slow", WindowToYaml(q.slow))])
  }

  function SpecToYaml(s: Spec): Yaml {
    YMap([("sloPeriod", YStr(s.sloPeriod)),
          ("page", QuickSlowToYaml(s.page)),
          ("ticket", QuickSlowToYaml(s.ticket))])
  }

  /** The document an operator writes for `aw`, keyed by the aliases. */
  function AlertWindowsToYaml(aw: AlertWindows): Yaml {
    YMap([("apiVersion", YStr(aw.apiVersion)),
          ("kind", YStr(aw.kind)),
          ("spec", SpecToYaml(aw.spec))])
  }

  lemma WindowToYamlDescribes(w: Window)
    ensures WindowDescribes(WindowToYaml(w), w)
  {
    var d := WindowToYaml(w).entries;
    LookupAt(d, 0, "errorBudgetPercent");
    LookupAt(d, 1, "shortWindow");
    LookupAt(d, 2, "longWindow");
  }

  lemma QuickSlowToYamlDescribes(q: QuickSlowWindow)
    ensures QuickSlowDescribes(QuickSlowToYaml(q), q)
  {
    var d := QuickSlowToYaml(q).entries;
    LookupAt(d, 0, "quick");
    LookupAt(d, 1, "slow");
    WindowToYamlDescribes(q.quick);
    WindowToYamlDescribes(q.slow);
  }

  lemma SpecToYamlDescribes(s: Spec)
    ensures SpecDescribes(SpecToYaml(s), s)
  {
    var y := SpecToYaml(s);
    var d := y.entries;
    LookupAt(d, 0, "sloPeriod");
    LookupAt(d, 1, "page");
    LookupAt(d, 2, "ticket");
    assert Get(y, "page") == Some(QuickSlowToYaml(s.page));
    assert Get(y, "ticket") == Some(QuickSlowToYaml(s.ticket));
    QuickSlowToYamlDescribes(s.page);
    QuickSlowToYamlDescribes(s.ticket);
  }

  lemma ToYamlDescribes(aw: AlertWindows)
    ensures Describes(AlertWindowsToYaml(aw), aw)
  {
    var d := AlertWindowsToYaml(aw).entries;
    LookupAt(d, 0, "apiVersion");
    LookupAt(d, 1, "kind");
    LookupAt(d, 2, "spec");
    SpecToYamlDescribes(aw.spec);
  }

  /** Rendering a record and validating the document gives the record
      back exactly when the record is well formed. */
  lemma RoundTrip(aw: AlertWindows)
    ensures ValidateAlertWindows(AlertWindowsToYaml(aw)) == if WellFormed(aw) then Some(aw) else None
  {
    ToYamlDescribes(aw);
    ValidateAlertWindowsCharacterised(AlertWindowsToYaml(aw), aw);
  }

  /** A document without `spec.ticket` is rejected. */
  lemma MissingTicketRejected(y: Yaml)
    requires Get(y, "spec").Some? && Get(Get(y, "spec").value, "ticket") == None
    ensures ValidateAlertWindows(y) == None
  {
  }

  /** The window bounds of the unit tests: 100 passes; 0, -5 and 150 do not. */
  lemma PercentExamples()
    ensures ValidatePercent(Some(YNum(100.0))) == Some(100.0)
    ensures ValidatePercent(Some(YNum(10.0))) == Some(10.0)
    ensures ValidatePercent(Some(YNum(0.0))) == None
    ensures ValidatePercent(Some(YNum(-5.0))) == None
    ensures ValidatePercent(Some(YNum(150.0))) == None
  {
  }
}
