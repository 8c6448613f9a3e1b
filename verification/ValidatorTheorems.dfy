// What the reports of the validator mean.
module ValidatorTheorems {
  import opened Wrappers
  import opened GoText
  import opened Sequences
  import opened Validator

  // ---------- soundness and completeness ----------

  // A configuration as the validator wants it: a service that is not a mapping
  // and a processors stage that is not a list are let through.
  ghost predicate Acceptable(root: Tree) {
    && "receivers" in root && "exporters" in root && "service" in root
    && forall name :: name in Pipelines(root) ==> AcceptablePipeline(Pipelines(root)[name])
  }

  ghost predicate AcceptablePipeline(p: Yaml) {
    && p.Mapping?
    && StageItems(p.entries, "receivers").Some? && StageItems(p.entries, "exporters").Some?
    && forall stage :: stage in STAGES ==> OnlyTexts(StageItems(p.entries, stage))
  }

  ghost predicate OnlyTexts(items: Option<seq<Yaml>>) {
    items.Some? ==> forall i :: 0 <= i < |items.value| ==> items.value[i].Text?
  }

  lemma RequiredSections()
    ensures forall s :: s in SECTIONS && SECTIONS[s] <==> s in {"receivers", "exporters", "service"}
  {
  }

  lemma StageNames()
    ensures "receivers" in STAGES && "processors" in STAGES && "exporters" in STAGES
    ensures forall s :: s in STAGES && s != "processors" ==> s in {"receivers", "exporters"}
    ensures "receivers" != "processors" && "exporters" != "processors"
  {
    assert STAGES[0] == "receivers" && STAGES[1] == "processors" && STAGES[2] == "exporters";
    assert |"processors"| == 10 && |"receivers"| == 9 && |"exporters"| == 9;
  }

  ghost predicate Faultless(p: Yaml, name: string) {
    forall d: Defect :: !d.MissingSection? && d.pipeline == name ==> !PipelineHas(p, d)
  }

  lemma FaultlessPipeline(p: Yaml, name: string)
    ensures Faultless(p, name) <==> AcceptablePipeline(p)
  {
    StageNames();
    if Faultless(p, name) {
      assert !PipelineHas(p, PipelineNotMap(name));
      assert !PipelineHas(p, StageNotList(name, "receivers")) && !PipelineHas(p, StageNotList(name, "exporters"));
      forall stage | stage in STAGES
        ensures OnlyTexts(StageItems(p.entries, stage))
      {
        var items := StageItems(p.entries, stage);
        forall i | items.Some? && 0 <= i < |items.value|
          ensures items.value[i].Text?
        {
          assert !PipelineHas(p, ItemNotText(name, stage, i));
        }
      }
    }
  }

  lemma FaultlessIsAcceptable(root: Tree)
    ensures (forall d :: !HasDefect(root, d)) <==> Acceptable(root)
  {
    RequiredSections();
    if forall d :: !HasDefect(root, d) {
      forall s | s in {"receivers", "exporters", "service"}
        ensures s in root
      {
        assert !HasDefect(root, MissingSection(s));
      }
      forall name | name in Pipelines(root)
        ensures AcceptablePipeline(Pipelines(root)[name])
      {
        assert forall d: Defect :: !d.MissingSection? && d.pipeline == name ==> !HasDefect(root, d);
        FaultlessPipeline(Pipelines(root)[name], name);
      }
    }
    if Acceptable(root) {
      forall d
        ensures !HasDefect(root, d)
      {
        if !d.MissingSection? && d.pipeline in Pipelines(root) {
          FaultlessPipeline(Pipelines(root)[d.pipeline], d.pipeline);
        }
      }
    }
  }

  // The verdict is exact, for every tree: no errors are reported if and only
  // if the configuration is acceptable.
  lemma VerdictExact(root: Tree, errors: seq<Error>)
    requires ReportsErrors(root, errors)
    ensures errors == [] <==> Acceptable(root)
  {
    var ds: seq<Defect> :| ListsDefects(root, ds) && errors == Mapped(ErrorOf, ds);
    FaultlessIsAcceptable(root);
    if ds != [] {
      assert HasDefect(root, ds[0]);
    } else {
      assert forall d :: HasDefect(root, d) ==> d in ds;
    }
  }

  // ---------- locating a defect ----------

  const PREFIX := "service.pipelines."

  // Code and path of an error lead back to the defect, reading the path from
  // its end: a pipeline name may hold dots, the fields after it do not.
  function Locate(code: string, path: string): Option<Defect> {
    if code == "MISSING_SECTION" then Some(MissingSection(path))
    else if !HasPrefix(path, PREFIX) then None
    else
      var rest := path[|PREFIX|..];
      if code == "INVALID_PIPELINE_TYPE" then Some(PipelineNotMap(rest))
      else if code == "INVALID_STAGE_TYPE" then
        match CutLast(rest, '.')
        case Some((p, stage)) => Some(StageNotList(p, stage))
        case None => None
      else
        match CutLast(rest, '.')
        case None => None
        case Some((head, index)) =>
          match CutLast(head, '.')
          case Some((p, stage)) => Some(ItemNotText(p, stage, ParseDecimal(index)))
          case None => None
  }

  lemma CodesDiffer()
    ensures "MISSING_SECTION" != "INVALID_PIPELINE_TYPE" && "MISSING_SECTION" != "INVALID_STAGE_TYPE"
      && "MISSING_SECTION" != "INVALID_COMPONENT_NAME"
    ensures "INVALID_PIPELINE_TYPE" != "INVALID_STAGE_TYPE" && "INVALID_PIPELINE_TYPE" != "INVALID_COMPONENT_NAME"
    ensures "INVALID_STAGE_TYPE" != "INVALID_COMPONENT_NAME"
  {
    assert |"MISSING_SECTION"| == 15 && |"INVALID_PIPELINE_TYPE"| == 21 && |"INVALID_STAGE_TYPE"| == 18
      && |"INVALID_COMPONENT_NAME"| == 22;
  }

  lemma LocateStage(p: string, stage: string)
    requires '.' !in stage
    ensures Locate("INVALID_STAGE_TYPE", PathOf(StageNotList(p, stage))) == Some(StageNotList(p, stage))
  {
    CodesDiffer();
    var path, rest := PathOf(StageNotList(p, stage)), p + ['.'] + stage;
    assert path == PREFIX + rest;
    assert path[|PREFIX|..] == rest;
    CutLastOfJoin(p, '.', stage);
  }

  lemma ItemPath(p: string, stage: string, i: nat)
    ensures var path, rest := PathOf(ItemNotText(p, stage, i)), p + ['.'] + stage + ['.'] + Decimal(i);
            path == PREFIX + rest && HasPrefix(path, PREFIX) && path[|PREFIX|..] == rest
  {
    hide Decimal;
    var path, rest := PathOf(ItemNotText(p, stage, i)), p + ['.'] + stage + ['.'] + Decimal(i);
    assert path == PREFIX + rest;
    assert (PREFIX + rest)[|PREFIX|..] == rest;
  }

  lemma LocateItem(p: string, stage: string, i: nat)
    requires '.' !in stage
    ensures Locate("INVALID_COMPONENT_NAME", PathOf(ItemNotText(p, stage, i))) == Some(ItemNotText(p, stage, i))
  {
    hide PathOf, CutLast, Decimal, ParseDecimal, HasPrefix;
    CodesDiffer();
    ItemPath(p, stage, i);
    CutLastOfJoin(p + ['.'] + stage, '.', Decimal(i));
    CutLastOfJoin(p, '.', stage);
    DecimalRoundTrip(i);
  }

  ghost predicate Locatable(d: Defect) {
    d.StageNotList? || d.ItemNotText? ==> '.' !in d.stage
  }

  lemma LocateInverts(d: Defect)
    requires Locatable(d)
    ensures Locate(ErrorOf(d).code, ErrorOf(d).path) == Some(d)
  {
    CodesDiffer();
    match d
    case MissingSection(_) =>
    case PipelineNotMap(p) => assert (PREFIX + p)[|PREFIX|..] == p;
    case StageNotList(p, stage) => LocateStage(p, stage);
    case ItemNotText(p, stage, i) => LocateItem(p, stage, i);
  }

  lemma StagesHaveNoDots(stage: string)
    requires stage in STAGES
    ensures '.' !in stage
  {
  }

  // Every defect is reported exactly once, and its error says where: the pairs
  // (code, path) of a report are pairwise distinct and decode to the defects
  // of the tree.
  lemma ErrorsLocateDefects(root: Tree, errors: seq<Error>)
    requires ReportsErrors(root, errors)
    ensures forall i, j :: 0 <= i < j < |errors| ==>
      errors[i].code != errors[j].code || errors[i].path != errors[j].path
    ensures forall e :: e in errors ==>
      var d := Locate(e.code, e.path);
      d.Some? && HasDefect(root, d.value) && e == ErrorOf(d.value)
    ensures forall d :: HasDefect(root, d) ==> ErrorOf(d) in errors
  {
    var ds: seq<Defect> :| ListsDefects(root, ds) && errors == Mapped(ErrorOf, ds);
    forall i | 0 <= i < |ds|
      ensures Locate(errors[i].code, errors[i].path) == Some(ds[i])
    {
      assert HasDefect(root, ds[i]);
      if ds[i].StageNotList? || ds[i].ItemNotText? {
        StagesHaveNoDots(ds[i].stage);
      }
      LocateInverts(ds[i]);
    }
    forall d | HasDefect(root, d)
      ensures ErrorOf(d) in errors
    {
      var i :| 0 <= i < |ds| && ds[i] == d;
      assert errors[i] == ErrorOf(d);
    }
  }

  // ---------- the reports, text by text ----------

  // The value of a pipeline in the configuration.
  ghost predicate PipelineAt(root: Tree, name: string, value: Yaml) {
    && "service" in root && root["service"].Mapping?
    && "pipelines" in root["service"].entries && root["service"].entries["pipelines"].Mapping?
    && name in root["service"].entries["pipelines"].entries
    && value == root["service"].entries["pipelines"].entries[name]
  }

  ghost predicate StageAt(root: Tree, name: string, stage: string) {
    exists pipeline :: PipelineAt(root, name, pipeline) && pipeline.Mapping? && stage in pipeline.entries
                       && pipeline.entries[stage].List?
  }

  // Item number i of a list stage of a pipeline.
  ghost predicate ItemAt(root: Tree, name: string, stage: string, i: int, item: Yaml) {
    exists pipeline ::
      && PipelineAt(root, name, pipeline) && pipeline.Mapping?
      && stage in pipeline.entries && pipeline.entries[stage].List?
      && 0 <= i < |pipeline.entries[stage].items| && pipeline.entries[stage].items[i] == item
  }

  lemma PipelinesAre(root: Tree, name: string, value: Yaml)
    ensures PipelineAt(root, name, value) <==> name in Pipelines(root) && Pipelines(root)[name] == value
  {
  }

  lemma ItemsAre(root: Tree, name: string, stage: string, i: int, item: Yaml)
    ensures ItemAt(root, name, stage, i, item) <==>
      && name in Pipelines(root) && Pipelines(root)[name].Mapping?
      && var items := StageItems(Pipelines(root)[name].entries, stage);
         items.Some? && 0 <= i < |items.value| && items.value[i] == item
  {
    hide Pipelines, PipelineAt;
    if name in Pipelines(root) {
      PipelinesAre(root, name, Pipelines(root)[name]);
    }
    forall pipeline
      ensures PipelineAt(root, name, pipeline) <==> name in Pipelines(root) && Pipelines(root)[name] == pipeline
    {
      PipelinesAre(root, name, pipeline);
    }
  }

  lemma DeclaringAre(section: string)
    ensures section in DECLARING <==> section in {"receivers", "processors", "exporters", "extensions"}
  {
    var sections := DECLARING;
    assert sections[0] == "receivers" && sections[1] == "processors";
    assert sections[2] == "exporters" && sections[3] == "extensions";
  }

  lemma StagesAre(stage: string)
    ensures stage in STAGES <==> stage in {"receivers", "processors", "exporters"}
  {
    var stages := STAGES;
    assert stages[0] == "receivers" && stages[1] == "processors" && stages[2] == "exporters";
  }

  ghost predicate Unknown(registry: Registry, component: string) {
    !(component in registry && registry[component])
  }

  // The warning of an unknown component that a section declares under a name.
  ghost predicate WarnsOfDeclaration(registry: Registry, root: Tree, section: string, name: string, w: string) {
    && section in {"receivers", "processors", "exporters", "extensions"}
    && section in root && root[section].Mapping? && name in root[section].entries
    && Unknown(registry, Before(name, '/'))
    && w == "Unknown component in " + section + ": " + Before(name, '/')
  }

  // The warning of an unknown component that a pipeline refers to.
  ghost predicate WarnsOfReference(registry: Registry, root: Tree, name: string, stage: string, i: int, text: string,
                                   w: string) {
    && stage in {"receivers", "processors", "exporters"} && ItemAt(root, name, stage, i, Text(text))
    && Unknown(registry, Before(text, '/'))
    && w == "Unknown component referenced in pipeline: " + Before(text, '/')
  }

  // The warnings are those of unknown declarations and unknown references, all
  // of them and nothing else.
  lemma WarningsSaidExactly(registry: Registry, root: Tree, warnings: seq<string>)
    requires ReportsWarnings(registry, root, warnings)
    ensures forall section, name, w :: WarnsOfDeclaration(registry, root, section, name, w) ==> w in warnings
    ensures forall p, stage, i, text, w :: WarnsOfReference(registry, root, p, stage, i, text, w) ==> w in warnings
    ensures forall w :: w in warnings ==>
      || (exists section, name :: WarnsOfDeclaration(registry, root, section, name, w))
      || (exists p, stage, i, text :: WarnsOfReference(registry, root, p, stage, i, text, w))
  {
    hide ListsUnknown, ItemAt, Before;
    var ss: seq<Site> :| ListsUnknown(registry, root, ss) && warnings == Mapped(WarningOf, ss);
    forall section, name, w | WarnsOfDeclaration(registry, root, section, name, w)
      ensures w in warnings
    {
      SiteIsListed(registry, root, ss, Declaration(section, name));
      DeclarationSite(registry, root, section, name, w);
    }
    forall p, stage, i, text, w | WarnsOfReference(registry, root, p, stage, i, text, w)
      ensures w in warnings
    {
      var s := ReferenceSite(registry, root, p, stage, i, text, w);
      SiteIsListed(registry, root, ss, s);
    }
    forall w | w in warnings
      ensures || (exists section, name :: WarnsOfDeclaration(registry, root, section, name, w))
              || (exists p, stage, i, text :: WarnsOfReference(registry, root, p, stage, i, text, w))
    {
      var n :| 0 <= n < |warnings| && warnings[n] == w;
      SiteIsListed(registry, root, ss, ss[n]);
      SiteIsSaid(registry, root, ss[n]);
    }
  }

  lemma SiteIsListed(registry: Registry, root: Tree, ss: seq<Site>, s: Site)
    requires ListsUnknown(registry, root, ss)
    ensures s in ss <==> Mentions(root, s) && !Known(registry, ComponentOf(s))
    ensures s in ss ==> WarningOf(s) in Mapped(WarningOf, ss)
  {
    if s in ss {
      var n :| 0 <= n < |ss| && ss[n] == s;
      assert Mapped(WarningOf, ss)[n] == WarningOf(s);
    }
  }

  lemma DeclarationSite(registry: Registry, root: Tree, section: string, name: string, w: string)
    requires WarnsOfDeclaration(registry, root, section, name, w)
    ensures var s := Declaration(section, name);
            Mentions(root, s) && !Known(registry, ComponentOf(s)) && WarningOf(s) == w
  {
    DeclaringAre(section);
  }

  lemma ReferenceSite(registry: Registry, root: Tree, p: string, stage: string, i: int, text: string, w: string)
    returns (s: Site)
    requires WarnsOfReference(registry, root, p, stage, i, text, w)
    ensures Mentions(root, s) && !Known(registry, ComponentOf(s)) && WarningOf(s) == w
  {
    hide ItemAt, Pipelines;
    StagesAre(stage);
    ItemsAre(root, p, stage, i, Text(text));
    s := Reference(p, stage, i, Before(text, '/'));
  }

  lemma SiteIsSaid(registry: Registry, root: Tree, s: Site)
    requires Mentions(root, s) && !Known(registry, ComponentOf(s))
    ensures if s.Declaration? then WarnsOfDeclaration(registry, root, s.section, s.name, WarningOf(s))
            else exists text :: WarnsOfReference(registry, root, s.pipeline, s.stage, s.index, text, WarningOf(s))
  {
    hide ItemAt, Pipelines;
    if s.Declaration? {
      DeclaringAre(s.section);
    } else {
      var text := StageItems(Pipelines(root)[s.pipeline].entries, s.stage).value[s.index].text;
      StagesAre(s.stage);
      ItemsAre(root, s.pipeline, s.stage, s.index, Text(text));
      assert WarnsOfReference(registry, root, s.pipeline, s.stage, s.index, text, WarningOf(s));
    }
  }

  // The four kinds of errors, as they are reported.

  ghost predicate SaysMissing(root: Tree, section: string, e: Error) {
    && section in {"receivers", "exporters", "service"} && section !in root
    && e == Error(section, "missing required section: " + section, "MISSING_SECTION")
  }

  ghost predicate SaysNotMap(root: Tree, p: string, e: Error) {
    && (exists pipeline :: PipelineAt(root, p, pipeline) && !pipeline.Mapping?)
    && e == Error("service.pipelines." + p, "pipeline must be a map", "INVALID_PIPELINE_TYPE")
  }

  ghost predicate SaysNotList(root: Tree, p: string, stage: string, e: Error) {
    && (exists pipeline :: PipelineAt(root, p, pipeline) && pipeline.Mapping?)
    && stage in {"receivers", "exporters"} && !StageAt(root, p, stage)
    && e == Error("service.pipelines." + p + "." + stage, stage + " must be a list", "INVALID_STAGE_TYPE")
  }

  ghost predicate SaysNotText(root: Tree, p: string, stage: string, i: nat, e: Error) {
    && stage in {"receivers", "processors", "exporters"}
    && (exists item :: ItemAt(root, p, stage, i, item) && !item.Text?)
    && e == Error("service.pipelines." + p + "." + stage + "." + Decimal(i), "component name must be a string",
                  "INVALID_COMPONENT_NAME")
  }

  ghost predicate Says(root: Tree, d: Defect, e: Error) {
    match d
    case MissingSection(section) => SaysMissing(root, section, e)
    case PipelineNotMap(p) => SaysNotMap(root, p, e)
    case StageNotList(p, stage) => SaysNotList(root, p, stage, e)
    case ItemNotText(p, stage, i) => SaysNotText(root, p, stage, i, e)
  }

  lemma DefectSaid(root: Tree, d: Defect)
    ensures forall e :: Says(root, d, e) <==> HasDefect(root, d) && e == ErrorOf(d)
  {
    hide Pipelines, PipelineAt, ItemAt, StageAt, Decimal;
    match d
    case MissingSection(section) =>
      RequiredSections();
    case PipelineNotMap(p) =>
      AllPipelines(root, p);
    case StageNotList(p, stage) =>
      AllPipelines(root, p);
      StageNames();
      StageIs(root, p, stage);
    case ItemNotText(p, stage, i) =>
      StagesAre(stage);
      forall item
        ensures ItemAt(root, p, stage, i, item) <==>
          && p in Pipelines(root) && Pipelines(root)[p].Mapping?
          && var items := StageItems(Pipelines(root)[p].entries, stage);
             items.Some? && 0 <= i < |items.value| && items.value[i] == item
      {
        ItemsAre(root, p, stage, i, item);
      }
  }

  lemma AllPipelines(root: Tree, p: string)
    ensures forall pipeline :: PipelineAt(root, p, pipeline) <==> p in Pipelines(root) && Pipelines(root)[p] == pipeline
  {
    hide Pipelines, PipelineAt;
    forall pipeline
      ensures PipelineAt(root, p, pipeline) <==> p in Pipelines(root) && Pipelines(root)[p] == pipeline
    {
      PipelinesAre(root, p, pipeline);
    }
  }

  lemma StageIs(root: Tree, p: string, stage: string)
    ensures StageAt(root, p, stage) <==>
      p in Pipelines(root) && Pipelines(root)[p].Mapping? && StageItems(Pipelines(root)[p].entries, stage).Some?
  {
    hide Pipelines, PipelineAt;
    AllPipelines(root, p);
  }

  // The errors are exactly these: missing sections, pipelines that are no
  // mappings, receivers and exporters stages that are no lists, and items that
  // are no texts, each with its path, message and code.
  lemma ErrorsSaidExactly(root: Tree, errors: seq<Error>)
    requires ReportsErrors(root, errors)
    ensures forall e :: e in errors <==>
      || (exists section :: SaysMissing(root, section, e))
      || (exists p :: SaysNotMap(root, p, e))
      || (exists p, stage :: SaysNotList(root, p, stage, e))
      || (exists p, stage, i :: SaysNotText(root, p, stage, i, e))
  {
    hide SaysMissing, SaysNotMap, SaysNotList, SaysNotText, HasDefect, ErrorOf;
    forall e
      ensures e in errors <==>
        || (exists section :: SaysMissing(root, section, e))
        || (exists p :: SaysNotMap(root, p, e))
        || (exists p, stage :: SaysNotList(root, p, stage, e))
        || (exists p, stage, i :: SaysNotText(root, p, stage, i, e))
    {
      ErrorOfDefect(root, errors, e);
      SaidByKind(root, e);
    }
  }

  lemma ErrorOfDefect(root: Tree, errors: seq<Error>, e: Error)
    requires ReportsErrors(root, errors)
    ensures e in errors <==> exists d :: Says(root, d, e)
  {
    hide Says, HasDefect, ErrorOf;
    var ds: seq<Defect> :| ListsDefects(root, ds) && errors == Mapped(ErrorOf, ds);
    if e in errors {
      var n :| 0 <= n < |errors| && errors[n] == e;
      DefectSaid(root, ds[n]);
      assert Says(root, ds[n], e);
    }
    if d :| Says(root, d, e) {
      DefectSaid(root, d);
      var n :| 0 <= n < |ds| && ds[n] == d;
      assert errors[n] == e;
    }
  }

  lemma SaidByKind(root: Tree, e: Error)
    ensures (exists d :: Says(root, d, e)) <==>
      || (exists section :: SaysMissing(root, section, e))
      || (exists p :: SaysNotMap(root, p, e))
      || (exists p, stage :: SaysNotList(root, p, stage, e))
      || (exists p, stage, i :: SaysNotText(root, p, stage, i, e))
  {
    hide SaysMissing, SaysNotMap, SaysNotList, SaysNotText;
    if section :| SaysMissing(root, section, e) {
      assert Says(root, MissingSection(section), e);
    }
    if p :| SaysNotMap(root, p, e) {
      assert Says(root, PipelineNotMap(p), e);
    }
    if p, stage :| SaysNotList(root, p, stage, e) {
      assert Says(root, StageNotList(p, stage), e);
    }
    if p, stage, i: nat :| SaysNotText(root, p, stage, i, e) {
      assert Says(root, ItemNotText(p, stage, i), e);
    }
  }

  // ---------- independence of the order of maps ----------

  // Whatever order the maps are visited in, the errors and the warnings of two
  // validations of a tree are the same up to order.
  lemma OrderDoesNotMatter(registry: Registry, root: Tree, errors: seq<Error>, errors': seq<Error>,
                           warnings: seq<string>, warnings': seq<string>)
    requires ReportsErrors(root, errors) && ReportsErrors(root, errors')
    requires ReportsWarnings(registry, root, warnings) && ReportsWarnings(registry, root, warnings')
    ensures multiset(errors) == multiset(errors')
    ensures multiset(warnings) == multiset(warnings')
  {
    var ds: seq<Defect> :| ListsDefects(root, ds) && errors == Mapped(ErrorOf, ds);
    var ds': seq<Defect> :| ListsDefects(root, ds') && errors' == Mapped(ErrorOf, ds');
    SameElements(ds, ds');
    MappedPermutes(ErrorOf, ds, ds');
    var ss: seq<Site> :| ListsUnknown(registry, root, ss) && warnings == Mapped(WarningOf, ss);
    var ss': seq<Site> :| ListsUnknown(registry, root, ss') && warnings' == Mapped(WarningOf, ss');
    SameElements(ss, ss');
    MappedPermutes(WarningOf, ss, ss');
  }

  // ---------- registries ----------

  // The component a warning names: what follows its first colon.
  function WarnedComponent(w: string): string {
    var lead := Before(w, ':');
    if |lead| + 2 <= |w| then w[|lead| + 2..] else ""
  }

  lemma NameAfterColon(lead: string, component: string)
    requires ':' !in lead
    ensures WarnedComponent(lead + ": " + component) == component
  {
    var tail := " " + component;
    assert lead + ": " + component == lead + [':'] + tail;
    BeforeOfJoin(lead, ':', tail);
    assert (lead + [':'] + tail)[|lead| + 2..] == component;
  }

  lemma WarningNames(s: Site)
    requires s.Declaration? ==> ':' !in s.section
    ensures WarnedComponent(WarningOf(s)) == ComponentOf(s)
  {
    if s.Reference? {
      NameAfterColon("Unknown component referenced in pipeline", s.component);
      assert WarningOf(s) == "Unknown component referenced in pipeline" + ": " + s.component;
    } else {
      NameAfterColon("Unknown component in " + s.section, Before(s.name, '/'));
    }
  }

  lemma SectionsHaveNoColons(section: string)
    requires section in DECLARING
    ensures ':' !in section
  {
  }

  lemma WarningsName(registry: Registry, root: Tree, ss: seq<Site>)
    requires ListsUnknown(registry, root, ss)
    ensures forall s :: s in ss ==> WarnedComponent(WarningOf(s)) == ComponentOf(s)
  {
    forall s | s in ss
      ensures WarnedComponent(WarningOf(s)) == ComponentOf(s)
    {
      assert Mentions(root, s);
      if s.Declaration? {
        SectionsHaveNoColons(s.section);
      }
      WarningNames(s);
    }
  }

  // The warnings that stay are those of the sites kept.
  lemma WarningsKept(registry: Registry, ss: seq<Site>, keep: Site -> bool, w: string)
    requires forall s :: s in ss ==> WarnedComponent(WarningOf(s)) == ComponentOf(s)
    requires forall s :: keep(s) == !Known(registry, ComponentOf(s))
    ensures multiset(Mapped(WarningOf, Filtered(keep, ss)))[w]
            == if Known(registry, WarnedComponent(w)) then 0 else multiset(Mapped(WarningOf, ss))[w]
  {
    FilteredCount(WarningOf, keep, ss, w, !Known(registry, WarnedComponent(w)));
    CountIsMultiplicity(WarningOf, ss, w);
    CountIsMultiplicity(WarningOf, Filtered(keep, ss), w);
  }

  // A registry that knows more leaves the errors as they are and removes
  // exactly the warnings that name a component it knows.
  lemma LargerRegistry(small: Registry, large: Registry, root: Tree, errors: seq<Error>, errors': seq<Error>,
                       warnings: seq<string>, warnings': seq<string>)
    requires forall c :: Known(small, c) ==> Known(large, c)
    requires ReportsErrors(root, errors) && ReportsErrors(root, errors')
    requires ReportsWarnings(small, root, warnings) && ReportsWarnings(large, root, warnings')
    ensures multiset(errors) == multiset(errors')
    ensures forall w :: multiset(warnings')[w] == if Known(large, WarnedComponent(w)) then 0 else multiset(warnings)[w]
  {
    OrderDoesNotMatter(small, root, errors, errors', warnings, warnings);
    var ss: seq<Site> :| ListsUnknown(small, root, ss) && warnings == Mapped(WarningOf, ss);
    var ss': seq<Site> :| ListsUnknown(large, root, ss') && warnings' == Mapped(WarningOf, ss');
    var keep := (s: Site) => !Known(large, ComponentOf(s));
    FilteredElements(keep, ss);
    SameElements(Filtered(keep, ss), ss');
    MappedPermutes(WarningOf, Filtered(keep, ss), ss');
    WarningsName(small, root, ss);
    forall w
      ensures multiset(warnings')[w] == if Known(large, WarnedComponent(w)) then 0 else multiset(warnings)[w]
    {
      WarningsKept(large, ss, keep, w);
    }
  }
}
