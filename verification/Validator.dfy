// The pre-flight validator of OpenTelemetry Collector configurations. It
// starts from the outcome of the YAML parser.
module Validator {
  import opened Wrappers
  import opened GoText
  import opened Sequences

  // A decoded YAML value: mappings with string keys are told from others.
  datatype Yaml =
    | Null
    | Text(text: string)
    | OtherScalar
    | List(items: seq<Yaml>)
    | Mapping(entries: map<string, Yaml>)
    | OtherMapping

  type Tree = map<string, Yaml>

  datatype Parse = ParseError(message: string) | Parsed(root: Tree)

  datatype Error = Error(path: string, message: string, code: string)

  type Registry = map<string, bool>

  predicate Known(registry: Registry, component: string) {
    component in registry && registry[component]
  }

  // ---------- what can be wrong with a tree ----------

  const SECTIONS := map["receivers" := true, "exporters" := true, "service" := true, "processors" := false,
    "extensions" := false]
  const DECLARING := ["receivers", "processors", "exporters", "extensions"]
  const STAGES := ["receivers", "processors", "exporters"]

  datatype Defect =
    | MissingSection(section: string)
    | PipelineNotMap(pipeline: string)
    | StageNotList(pipeline: string, stage: string)
    | ItemNotText(pipeline: string, stage: string, index: nat)

  // The pipelines, if service and service.pipelines are mappings.
  function Pipelines(root: Tree): Tree {
    if "service" in root && root["service"].Mapping? && "pipelines" in root["service"].entries
       && root["service"].entries["pipelines"].Mapping?
    then root["service"].entries["pipelines"].entries
    else map[]
  }

  function StageItems(pipeline: Tree, stage: string): Option<seq<Yaml>> {
    if stage in pipeline && pipeline[stage].List? then Some(pipeline[stage].items) else None
  }

  ghost predicate PipelineHas(pipeline: Yaml, d: Defect) {
    match d
    case MissingSection(_) => false
    case PipelineNotMap(_) => !pipeline.Mapping?
    case StageNotList(_, stage) =>
      pipeline.Mapping? && stage in STAGES && stage != "processors" && StageItems(pipeline.entries, stage).None?
    case ItemNotText(_, stage, i) =>
      pipeline.Mapping? && stage in STAGES
      && var items := StageItems(pipeline.entries, stage); items.Some? && i < |items.value| && !items.value[i].Text?
  }

  ghost predicate HasDefect(root: Tree, d: Defect) {
    if d.MissingSection? then d.section in SECTIONS && SECTIONS[d.section] && d.section !in root
    else d.pipeline in Pipelines(root) && PipelineHas(Pipelines(root)[d.pipeline], d)
  }

  function PathOf(d: Defect): string {
    match d
    case MissingSection(section) => section
    case PipelineNotMap(p) => "service.pipelines." + p
    case StageNotList(p, stage) => "service.pipelines." + p + "." + stage
    case ItemNotText(p, stage, i) => "service.pipelines." + p + "." + stage + "." + Decimal(i)
  }

  function ErrorOf(d: Defect): Error {
    match d
    case MissingSection(section) => Error(PathOf(d), "missing required section: " + section, "MISSING_SECTION")
    case PipelineNotMap(_) => Error(PathOf(d), "pipeline must be a map", "INVALID_PIPELINE_TYPE")
    case StageNotList(_, stage) => Error(PathOf(d), stage + " must be a list", "INVALID_STAGE_TYPE")
    case ItemNotText(_, _, _) => Error(PathOf(d), "component name must be a string", "INVALID_COMPONENT_NAME")
  }

  // ---------- components the registry does not know ----------

  datatype Site =
    | Reference(pipeline: string, stage: string, index: nat, component: string)
    | Declaration(section: string, name: string)

  function ComponentOf(s: Site): string {
    if s.Reference? then s.component else Before(s.name, '/')
  }

  function WarningOf(s: Site): string {
    match s
    case Reference(_, _, _, component) => "Unknown component referenced in pipeline: " + component
    case Declaration(section, name) => "Unknown component in " + section + ": " + Before(name, '/')
  }

  ghost predicate PipelineMentions(pipeline: Yaml, s: Site) {
    && s.Reference? && pipeline.Mapping? && s.stage in STAGES
    && var items := StageItems(pipeline.entries, s.stage);
       items.Some? && s.index < |items.value| && items.value[s.index].Text?
       && Before(items.value[s.index].text, '/') == s.component
  }

  ghost predicate Mentions(root: Tree, s: Site) {
    if s.Reference? then s.pipeline in Pipelines(root) && PipelineMentions(Pipelines(root)[s.pipeline], s)
    else s.section in DECLARING && IsDeclared(root, s.section, s.name)
  }

  ghost predicate IsDeclared(root: Tree, section: string, name: string) {
    section in root && root[section].Mapping? && name in root[section].entries
  }

  // ---------- what a report must say ----------

  ghost predicate ListsDefects(root: Tree, ds: seq<Defect>) {
    NoDuplicates(ds) && forall d :: d in ds <==> HasDefect(root, d)
  }

  ghost predicate ListsUnknown(registry: Registry, root: Tree, ss: seq<Site>) {
    NoDuplicates(ss) && forall s :: s in ss <==> Mentions(root, s) && !Known(registry, ComponentOf(s))
  }

  ghost predicate ReportsErrors(root: Tree, errors: seq<Error>) {
    exists ds :: ListsDefects(root, ds) && errors == Mapped(ErrorOf, ds)
  }

  ghost predicate ReportsWarnings(registry: Registry, root: Tree, warnings: seq<string>) {
    exists ss :: ListsUnknown(registry, root, ss) && warnings == Mapped(WarningOf, ss)
  }

  // ---------- one pipeline ----------

  // The defects of one pipeline in the order in which they are met.
  ghost function ItemDefects(name: string, stage: string, items: seq<Yaml>): seq<Defect> {
    if items == [] then []
    else
      var n := |items| - 1;
      ItemDefects(name, stage, items[..n]) + if items[n].Text? then [] else [ItemNotText(name, stage, n)]
  }

  ghost function StageDefects(name: string, pipeline: Tree, stage: string): seq<Defect> {
    match StageItems(pipeline, stage)
    case Some(items) => ItemDefects(name, stage, items)
    case None => if stage != "processors" then [StageNotList(name, stage)] else []
  }

  ghost function StagesDefects(name: string, pipeline: Tree, stages: seq<string>): seq<Defect> {
    if stages == [] then []
    else StagesDefects(name, pipeline, stages[..|stages| - 1]) + StageDefects(name, pipeline, stages[|stages| - 1])
  }

  ghost function PipelineDefects(name: string, pipeline: Yaml): seq<Defect> {
    if pipeline.Mapping? then StagesDefects(name, pipeline.entries, STAGES) else [PipelineNotMap(name)]
  }

  ghost function ItemUnknown(registry: Registry, name: string, stage: string, items: seq<Yaml>): seq<Site> {
    if items == [] then []
    else
      var n := |items| - 1;
      ItemUnknown(registry, name, stage, items[..n])
      + if items[n].Text? && !Known(registry, Before(items[n].text, '/'))
        then [Reference(name, stage, n, Before(items[n].text, '/'))] else []
  }

  ghost function StageUnknown(registry: Registry, name: string, pipeline: Tree, stage: string): seq<Site> {
    match StageItems(pipeline, stage)
    case Some(items) => ItemUnknown(registry, name, stage, items)
    case None => []
  }

  ghost function StagesUnknown(registry: Registry, name: string, pipeline: Tree, stages: seq<string>): seq<Site> {
    if stages == [] then []
    else
      StagesUnknown(registry, name, pipeline, stages[..|stages| - 1])
      + StageUnknown(registry, name, pipeline, stages[|stages| - 1])
  }

  ghost function PipelineUnknown(registry: Registry, name: string, pipeline: Yaml): seq<Site> {
    if pipeline.Mapping? then StagesUnknown(registry, name, pipeline.entries, STAGES) else []
  }

  lemma {:induction false} ItemDefectsComplete(name: string, stage: string, items: seq<Yaml>)
    ensures var ds := ItemDefects(name, stage, items);
            && NoDuplicates(ds)
            && forall d :: d in ds <==>
                 d.ItemNotText? && d.pipeline == name && d.stage == stage && d.index < |items| && !items[d.index].Text?
  {
    if items != [] {
      hide ItemDefects, NoDuplicates;
      var n := |items| - 1;
      var before := ItemDefects(name, stage, items[..n]);
      ItemDefectsComplete(name, stage, items[..n]);
      ItemsSnoc(map[], name, stage, items, n);
      assert items[..n + 1] == items;
      SingleNoDuplicates(ItemDefect(name, stage, n, items[n]));
      ConcatNoDuplicates(before, ItemDefect(name, stage, n, items[n]));
    }
  }

  ghost predicate StageHas(name: string, pipeline: Tree, stage: string, d: Defect) {
    || (d == StageNotList(name, stage) && stage != "processors" && StageItems(pipeline, stage).None?)
    || (d.ItemNotText? && d.pipeline == name && d.stage == stage
        && var items := StageItems(pipeline, stage);
           items.Some? && d.index < |items.value| && !items.value[d.index].Text?)
  }

  lemma StageDefectsComplete(name: string, pipeline: Tree, stage: string)
    ensures NoDuplicates(StageDefects(name, pipeline, stage))
    ensures forall d :: d in StageDefects(name, pipeline, stage) <==> StageHas(name, pipeline, stage, d)
  {
    var items := StageItems(pipeline, stage);
    if items.Some? {
      ItemDefectsComplete(name, stage, items.value);
    }
  }

  lemma {:induction false} StagesDefectsComplete(name: string, pipeline: Tree, stages: seq<string>)
    requires NoDuplicates(stages)
    ensures NoDuplicates(StagesDefects(name, pipeline, stages))
    ensures forall d :: d in StagesDefects(name, pipeline, stages) <==>
      (d.StageNotList? || d.ItemNotText?) && d.stage in stages && StageHas(name, pipeline, d.stage, d)
  {
    if stages != [] {
      var n := |stages| - 1;
      StagesDefectsComplete(name, pipeline, stages[..n]);
      StageDefectsComplete(name, pipeline, stages[n]);
      assert stages == stages[..n] + [stages[n]];
      ConcatNoDuplicates(StagesDefects(name, pipeline, stages[..n]), StageDefects(name, pipeline, stages[n]));
    }
  }

  lemma StagesDiffer()
    ensures NoDuplicates(STAGES)
  {
    assert |STAGES[0]| == 9 && |STAGES[1]| == 10 && |STAGES[2]| == 9;
    assert STAGES[0][0] == 'r' && STAGES[2][0] == 'e';
  }

  lemma PipelineDefectsComplete(name: string, pipeline: Yaml)
    ensures NoDuplicates(PipelineDefects(name, pipeline))
    ensures forall d :: d in PipelineDefects(name, pipeline) <==>
      !d.MissingSection? && d.pipeline == name && PipelineHas(pipeline, d)
  {
    StagesDiffer();
    if pipeline.Mapping? {
      StagesDefectsComplete(name, pipeline.entries, STAGES);
    }
  }

  lemma {:induction false} ItemUnknownComplete(registry: Registry, name: string, stage: string, items: seq<Yaml>)
    ensures var ss := ItemUnknown(registry, name, stage, items);
            && NoDuplicates(ss)
            && forall s :: s in ss <==>
                 s.Reference? && s.pipeline == name && s.stage == stage && s.index < |items| && items[s.index].Text?
                 && s.component == Before(items[s.index].text, '/') && !Known(registry, s.component)
  {
    if items != [] {
      hide ItemUnknown, NoDuplicates, Before, Known;
      var n := |items| - 1;
      var before := ItemUnknown(registry, name, stage, items[..n]);
      ItemUnknownComplete(registry, name, stage, items[..n]);
      ItemsSnoc(registry, name, stage, items, n);
      assert items[..n + 1] == items;
      SingleNoDuplicates(ItemSite(registry, name, stage, n, items[n]));
      ConcatNoDuplicates(before, ItemSite(registry, name, stage, n, items[n]));
    }
  }

  lemma {:induction false} StagesUnknownComplete(registry: Registry, name: string, pipeline: Tree, stages: seq<string>)
    requires NoDuplicates(stages) && forall st :: st in stages ==> st in STAGES
    ensures NoDuplicates(StagesUnknown(registry, name, pipeline, stages))
    ensures forall s :: s in StagesUnknown(registry, name, pipeline, stages) <==>
      s.Reference? && s.pipeline == name && s.stage in stages && PipelineMentions(Mapping(pipeline), s)
        && !Known(registry, s.component)
  {
    if stages != [] {
      var n := |stages| - 1;
      StagesUnknownComplete(registry, name, pipeline, stages[..n]);
      var items := StageItems(pipeline, stages[n]);
      if items.Some? {
        ItemUnknownComplete(registry, name, stages[n], items.value);
      }
      assert stages == stages[..n] + [stages[n]];
      ConcatNoDuplicates(StagesUnknown(registry, name, pipeline, stages[..n]),
        StageUnknown(registry, name, pipeline, stages[n]));
    }
  }

  lemma PipelineUnknownComplete(registry: Registry, name: string, pipeline: Yaml)
    ensures NoDuplicates(PipelineUnknown(registry, name, pipeline))
    ensures forall s :: s in PipelineUnknown(registry, name, pipeline) <==>
      s.Reference? && s.pipeline == name && PipelineMentions(pipeline, s) && !Known(registry, s.component)
  {
    StagesDiffer();
    if pipeline.Mapping? {
      StagesUnknownComplete(registry, name, pipeline.entries, STAGES);
    }
  }

  // ---------- progress over maps, in any order ----------

  ghost predicate DefectsSoFar(root: Tree, ds: seq<Defect>, sections: set<string>, pipelines: set<string>) {
    && NoDuplicates(ds)
    && forall d :: d in ds <==>
         HasDefect(root, d) && if d.MissingSection? then d.section in sections else d.pipeline in pipelines
  }

  ghost predicate UnknownSoFar(registry: Registry, root: Tree, ss: seq<Site>, pipelines: set<string>,
                               declared: set<(string, string)>) {
    && NoDuplicates(ss)
    && forall s :: s in ss <==>
         && Mentions(root, s) && !Known(registry, ComponentOf(s))
         && if s.Reference? then s.pipeline in pipelines else (s.section, s.name) in declared
  }

  // One more pipeline, out of those that rest.
  lemma OnePipelineMore(registry: Registry, root: Tree, ds: seq<Defect>, ss: seq<Site>, sections: set<string>,
                        rest: set<string>, name: string)
    requires name in rest && rest <= Pipelines(root).Keys
    requires DefectsSoFar(root, ds, sections, Pipelines(root).Keys - rest)
    requires UnknownSoFar(registry, root, ss, Pipelines(root).Keys - rest, {})
    ensures DefectsSoFar(root, ds + PipelineDefects(name, Pipelines(root)[name]), sections,
      Pipelines(root).Keys - (rest - {name}))
    ensures UnknownSoFar(registry, root, ss + PipelineUnknown(registry, name, Pipelines(root)[name]),
      Pipelines(root).Keys - (rest - {name}), {})
  {
    assert Pipelines(root).Keys - (rest - {name}) == Pipelines(root).Keys - rest + {name};
    PipelineDefectsComplete(name, Pipelines(root)[name]);
    ConcatNoDuplicates(ds, PipelineDefects(name, Pipelines(root)[name]));
    PipelineUnknownComplete(registry, name, Pipelines(root)[name]);
    ConcatNoDuplicates(ss, PipelineUnknown(registry, name, Pipelines(root)[name]));
  }

  // What one section of the table adds.
  ghost function SectionDefect(root: Tree, section: string): seq<Defect>
    requires section in SECTIONS
  {
    if section !in root && SECTIONS[section] then [MissingSection(section)] else []
  }

  lemma OneSectionMore(root: Tree, ds: seq<Defect>, sections: set<string>, section: string)
    requires DefectsSoFar(root, ds, sections, {}) && section in SECTIONS && section !in sections
    ensures DefectsSoFar(root, ds + SectionDefect(root, section), sections + {section}, {})
  {
    hide SECTIONS;
    SingleNoDuplicates(SectionDefect(root, section));
    ConcatNoDuplicates(ds, SectionDefect(root, section));
  }

  // The components declared in these sections.
  ghost predicate DeclaredIn(root: Tree, done: set<(string, string)>, sections: seq<string>) {
    forall s, n :: (s, n) in done <==> s in sections && IsDeclared(root, s, n)
  }

  ghost function NameSite(registry: Registry, section: string, name: string): seq<Site> {
    if Known(registry, Before(name, '/')) then [] else [Declaration(section, name)]
  }

  lemma OneNameMore(registry: Registry, root: Tree, ss: seq<Site>, pipelines: set<string>, done: set<(string, string)>,
                    section: string, name: string)
    requires UnknownSoFar(registry, root, ss, pipelines, done)
    requires section in DECLARING && IsDeclared(root, section, name) && (section, name) !in done
    ensures UnknownSoFar(registry, root, ss + NameSite(registry, section, name), pipelines, done + {(section, name)})
  {
    ConcatNoDuplicates(ss, NameSite(registry, section, name));
  }

  lemma DeclaringDiffer()
    ensures NoDuplicates(DECLARING)
  {
    assert |DECLARING[0]| == 9 && |DECLARING[1]| == 10 && |DECLARING[2]| == 9 && |DECLARING[3]| == 10;
    assert DECLARING[0][0] == 'r' && DECLARING[1][0] == 'p' && DECLARING[2][0] == 'e' && DECLARING[3][0] == 'e';
  }

  // ---------- findings that accumulate ----------

  datatype Findings = Findings(valid: bool, errors: seq<Error>, warnings: seq<string>)

  const NO_FINDINGS := Findings(true, [], [])

  // b is a with the defects ds and the unknown components ss reported.
  ghost predicate Adds(a: Findings, b: Findings, ds: seq<Defect>, ss: seq<Site>) {
    && b.errors == a.errors + Mapped(ErrorOf, ds)
    && b.warnings == a.warnings + Mapped(WarningOf, ss)
    && b.valid == (a.valid && ds == [])
  }

  lemma AddsNothing(a: Findings)
    ensures Adds(a, a, [], [])
  {
  }

  lemma AddsThen(a: Findings, b: Findings, c: Findings, ds: seq<Defect>, ss: seq<Site>, ds': seq<Defect>,
                 ss': seq<Site>)
    requires Adds(a, b, ds, ss) && Adds(b, c, ds', ss')
    ensures Adds(a, c, ds + ds', ss + ss')
  {
    MappedConcat(ErrorOf, ds, ds');
    MappedConcat(WarningOf, ss, ss');
    Associative(a.errors, Mapped(ErrorOf, ds), Mapped(ErrorOf, ds'));
    Associative(a.warnings, Mapped(WarningOf, ss), Mapped(WarningOf, ss'));
  }

  // What the items of a stage add, one item at a time.
  ghost function ItemDefect(name: string, stage: string, i: nat, item: Yaml): seq<Defect> {
    if item.Text? then [] else [ItemNotText(name, stage, i)]
  }

  ghost function ItemSite(registry: Registry, name: string, stage: string, i: nat, item: Yaml): seq<Site> {
    if item.Text? && !Known(registry, Before(item.text, '/'))
    then [Reference(name, stage, i, Before(item.text, '/'))] else []
  }

  lemma ItemsSnoc(registry: Registry, name: string, stage: string, items: seq<Yaml>, i: nat)
    requires i < |items|
    ensures ItemDefects(name, stage, items[..i + 1])
      == ItemDefects(name, stage, items[..i]) + ItemDefect(name, stage, i, items[i])
    ensures ItemUnknown(registry, name, stage, items[..i + 1])
            == ItemUnknown(registry, name, stage, items[..i]) + ItemSite(registry, name, stage, i, items[i])
  {
    assert items[..i + 1][..i] == items[..i];
  }

  lemma StagesSnoc(registry: Registry, name: string, p: Tree, stages: seq<string>, k: nat)
    requires k < |stages|
    ensures StagesDefects(name, p, stages[..k + 1])
      == StagesDefects(name, p, stages[..k]) + StageDefects(name, p, stages[k])
    ensures StagesUnknown(registry, name, p, stages[..k + 1])
            == StagesUnknown(registry, name, p, stages[..k]) + StageUnknown(registry, name, p, stages[k])
  {
    assert stages[..k + 1][..k] == stages[..k];
  }

  // ---------- the validator ----------

  class Result {
    var valid: bool
    var errors: seq<Error>
    var warnings: seq<string>

    ghost function View(): Findings
      reads this
    {
      Findings(valid, errors, warnings)
    }

    constructor ()
      ensures View() == NO_FINDINGS
    {
      valid, errors, warnings := true, [], [];
    }

    method Reject(e: Error)
      modifies this
      ensures View() == Findings(false, old(errors) + [e], old(warnings))
    {
      valid := false;
      errors := errors + [e];
    }

    method Warn(w: string)
      modifies this
      ensures View() == Findings(old(valid), old(errors), old(warnings) + [w])
    {
      warnings := warnings + [w];
    }
  }

  class ConfigValidator {
    const knownComponents: Registry

    constructor (registry: Registry)
      ensures knownComponents == registry
    {
      knownComponents := registry;
    }

    // validatePipeline, for the pipeline of this name.
    method ValidatePipeline(result: Result, path: string, pipeline: Yaml, ghost name: string)
      requires path == "service.pipelines." + name
      modifies result
      ensures Adds(old(result.View()), result.View(), PipelineDefects(name, pipeline),
        PipelineUnknown(knownComponents, name, pipeline))
    {
      ghost var before := result.View();
      if !pipeline.Mapping? {
        result.Reject(Error(path, "pipeline must be a map", "INVALID_PIPELINE_TYPE"));
        assert Adds(before, result.View(), [PipelineNotMap(name)], []);
        return;
      }
      var p, stages := pipeline.entries, STAGES;
      AddsNothing(before);
      for k := 0 to |stages|
        invariant Adds(before, result.View(), StagesDefects(name, p, stages[..k]),
          StagesUnknown(knownComponents, name, p, stages[..k]))
      {
        ghost var soFar := result.View();
        ValidateStage(result, path, stages[k], p, name);
        StagesSnoc(knownComponents, name, p, stages, k);
        AddsThen(before, soFar, result.View(), StagesDefects(name, p, stages[..k]),
          StagesUnknown(knownComponents, name, p, stages[..k]),
          StageDefects(name, p, stages[k]), StageUnknown(knownComponents, name, p, stages[k]));
      }
      assert stages[..|stages|] == stages;
    }

    // The body of the stage loop.
    method ValidateStage(result: Result, path: string, stage: string, p: Tree, ghost name: string)
      requires path == "service.pipelines." + name
      modifies result
      ensures Adds(old(result.View()), result.View(), StageDefects(name, p, stage),
        StageUnknown(knownComponents, name, p, stage))
    {
      ghost var before := result.View();
      var items: seq<Yaml> := [];
      if stage in p && p[stage].List? {
        items := p[stage].items;
      } else if stage != "processors" {
        result.Reject(Error(path + "." + stage, stage + " must be a list", "INVALID_STAGE_TYPE"));
        assert Adds(before, result.View(), [StageNotList(name, stage)], []);
        return;
      }
      AddsNothing(before);
      for i := 0 to |items|
        invariant Adds(before, result.View(), ItemDefects(name, stage, items[..i]),
          ItemUnknown(knownComponents, name, stage, items[..i]))
      {
        ghost var soFar := result.View();
        ValidateItem(result, path, stage, i, items[i], name);
        ItemsSnoc(knownComponents, name, stage, items, i);
        AddsThen(before, soFar, result.View(), ItemDefects(name, stage, items[..i]),
          ItemUnknown(knownComponents, name, stage, items[..i]),
          ItemDefect(name, stage, i, items[i]), ItemSite(knownComponents, name, stage, i, items[i]));
      }
      assert items[..|items|] == items;
    }

    // The body of the item loop.
    method ValidateItem(result: Result, path: string, stage: string, i: nat, item: Yaml, ghost name: string)
      requires path == "service.pipelines." + name
      modifies result
      ensures Adds(old(result.View()), result.View(), ItemDefect(name, stage, i, item),
        ItemSite(knownComponents, name, stage, i, item))
    {
      if !item.Text? {
        result.Reject(Error(path + "." + stage + "." + Decimal(i), "component name must be a string",
          "INVALID_COMPONENT_NAME"));
        return;
      }
      var componentName := Before(item.text, '/');
      if !Known(knownComponents, componentName) {
        result.Warn("Unknown component referenced in pipeline: " + componentName);
      }
    }

    // Validate, with the maps visited in arbitrary order.
    method Validate(parse: Parse) returns (result: Result)
      ensures fresh(result)
      ensures parse.ParseError? ==>
        result.View() == Findings(false, [Error("", "YAML parse error: " + parse.message, "YAML_PARSE_ERROR")], [])
      ensures parse.Parsed? ==>
        && ReportsErrors(parse.root, result.errors)
        && ReportsWarnings(knownComponents, parse.root, result.warnings)
        && result.valid == (result.errors == [])
    {
      result := new Result();
      if parse.ParseError? {
        result.Reject(Error("", "YAML parse error: " + parse.message, "YAML_PARSE_ERROR"));
        return;
      }
      ghost var ds := CheckSections(result, parse.root);
      ghost var ss: seq<Site>;
      ds, ss := CheckPipelines(result, parse.root, ds);
      ss := CheckDeclared(result, parse.root, ds, ss);
      assert ListsDefects(parse.root, ds);
      assert ListsUnknown(knownComponents, parse.root, ss);
    }

    method CheckSections(result: Result, root: Tree) returns (ghost ds: seq<Defect>)
      requires result.View() == NO_FINDINGS
      modifies result
      ensures DefectsSoFar(root, ds, SECTIONS.Keys, {})
      ensures Adds(NO_FINDINGS, result.View(), ds, [])
    {
      ds := [];
      assert DefectsSoFar(root, [], SECTIONS.Keys - SECTIONS.Keys, {});
      AddsNothing(NO_FINDINGS);
      hide Adds, DefectsSoFar, SECTIONS, SectionDefect;
      var sections := SECTIONS;
      var rest := sections.Keys;
      while rest != {}
        invariant rest <= sections.Keys
        invariant DefectsSoFar(root, ds, sections.Keys - rest, {})
        invariant Adds(NO_FINDINGS, result.View(), ds, [])
      {
        var section :| section in rest;
        ghost var soFar := result.View();
        CheckPresence(result, root, section, sections[section]);
        OneSectionMore(root, ds, sections.Keys - rest, section);
        AddsThen(NO_FINDINGS, soFar, result.View(), ds, [], SectionDefect(root, section), []);
        ds := ds + SectionDefect(root, section);
        assert sections.Keys - (rest - {section}) == sections.Keys - rest + {section};
        rest := rest - {section};
      }
    }

    // The body of the loop over the sections.
    method CheckPresence(result: Result, root: Tree, section: string, required: bool)
      requires section in SECTIONS && required == SECTIONS[section]
      modifies result
      ensures Adds(old(result.View()), result.View(), SectionDefect(root, section), [])
    {
      hide SECTIONS;
      if section !in root && required {
        result.Reject(Error(section, "missing required section: " + section, "MISSING_SECTION"));
      }
    }

    method CheckPipelines(result: Result, root: Tree, ghost before: seq<Defect>)
      returns (ghost ds: seq<Defect>, ghost ss: seq<Site>)
      requires DefectsSoFar(root, before, SECTIONS.Keys, {})
      requires Adds(NO_FINDINGS, result.View(), before, [])
      modifies result
      ensures DefectsSoFar(root, ds, SECTIONS.Keys, Pipelines(root).Keys)
      ensures UnknownSoFar(knownComponents, root, ss, Pipelines(root).Keys, {})
      ensures Adds(NO_FINDINGS, result.View(), ds, ss)
    {
      ds, ss := before, [];
      if "service" in root && root["service"].Mapping? {
        var svc := root["service"].entries;
        if "pipelines" in svc && svc["pipelines"].Mapping? {
          var pipelines := svc["pipelines"].entries;
          assert pipelines == Pipelines(root);
          var rest := pipelines.Keys;
          while rest != {}
            invariant rest <= Pipelines(root).Keys
            invariant DefectsSoFar(root, ds, SECTIONS.Keys, Pipelines(root).Keys - rest)
            invariant UnknownSoFar(knownComponents, root, ss, Pipelines(root).Keys - rest, {})
            invariant Adds(NO_FINDINGS, result.View(), ds, ss)
          {
            var pipelineName :| pipelineName in rest;
            ghost var soFar := result.View();
            ValidatePipeline(result, "service.pipelines." + pipelineName, pipelines[pipelineName], pipelineName);
            OnePipelineMore(knownComponents, root, ds, ss, SECTIONS.Keys, rest, pipelineName);
            ghost var ds' := PipelineDefects(pipelineName, pipelines[pipelineName]);
            ghost var ss' := PipelineUnknown(knownComponents, pipelineName, pipelines[pipelineName]);
            AddsThen(NO_FINDINGS, soFar, result.View(), ds, ss, ds', ss');
            ds, ss := ds + ds', ss + ss';
            rest := rest - {pipelineName};
          }
        }
      }
    }

    method CheckDeclared(result: Result, root: Tree, ghost ds: seq<Defect>, ghost before: seq<Site>)
      returns (ghost ss: seq<Site>)
      requires UnknownSoFar(knownComponents, root, before, Pipelines(root).Keys, {})
      requires Adds(NO_FINDINGS, result.View(), ds, before)
      modifies result
      ensures ListsUnknown(knownComponents, root, ss)
      ensures Adds(NO_FINDINGS, result.View(), ds, ss)
    {
      ss := before;
      var declaring := DECLARING;
      ghost var done: set<(string, string)> := {};
      DeclaringDiffer();
      for i := 0 to |declaring|
        invariant UnknownSoFar(knownComponents, root, ss, Pipelines(root).Keys, done)
        invariant Adds(NO_FINDINGS, result.View(), ds, ss)
        invariant DeclaredIn(root, done, declaring[..i])
      {
        var section := declaring[i];
        assert declaring[..i + 1] == declaring[..i] + [section];
        if section in root && root[section].Mapping? {
          ss, done := CheckSection(result, root, section, declaring[..i], ds, ss, done);
        }
      }
      assert declaring[..|declaring|] == declaring;
    }

    // The body of the section loop.
    method CheckSection(result: Result, root: Tree, section: string, ghost sections: seq<string>,
                        ghost ds: seq<Defect>, ghost before: seq<Site>, ghost doneBefore: set<(string, string)>)
      returns (ghost ss: seq<Site>, ghost done: set<(string, string)>)
      requires section in DECLARING && section !in sections && section in root && root[section].Mapping?
      requires UnknownSoFar(knownComponents, root, before, Pipelines(root).Keys, doneBefore)
      requires Adds(NO_FINDINGS, result.View(), ds, before) && DeclaredIn(root, doneBefore, sections)
      modifies result
      ensures UnknownSoFar(knownComponents, root, ss, Pipelines(root).Keys, done)
      ensures Adds(NO_FINDINGS, result.View(), ds, ss) && DeclaredIn(root, done, sections + [section])
    {
      hide Adds, UnknownSoFar, NameSite;
      ss, done := before, doneBefore;
      var names := root[section].entries.Keys;
      var rest := names;
      while rest != {}
        invariant rest <= names
        invariant UnknownSoFar(knownComponents, root, ss, Pipelines(root).Keys, done)
        invariant Adds(NO_FINDINGS, result.View(), ds, ss)
        invariant done == doneBefore + set n | n in names - rest :: (section, n)
      {
        var name :| name in rest;
        ghost var soFar := result.View();
        CheckName(result, section, name);
        OneNameMore(knownComponents, root, ss, Pipelines(root).Keys, done, section, name);
        AddsThen(NO_FINDINGS, soFar, result.View(), ds, ss, [], NameSite(knownComponents, section, name));
        assert ds + [] == ds;
        ss, done := ss + NameSite(knownComponents, section, name), done + {(section, name)};
        rest := rest - {name};
      }
    }

    // The body of the component loop.
    method CheckName(result: Result, section: string, name: string)
      modifies result
      ensures Adds(old(result.View()), result.View(), [], NameSite(knownComponents, section, name))
    {
      var componentName := Before(name, '/');
      if !Known(knownComponents, componentName) {
        result.Warn("Unknown component in " + section + ": " + componentName);
      }
    }
  }
}
