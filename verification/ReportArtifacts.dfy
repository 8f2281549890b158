/**
 Writing the reports of backend/scripts/structure_audit.py and checking them for drift: what was just
 written never counts as stale.
 */
module ReportArtifacts {
  import opened Wrappers
  import opened Strings
  import opened StructureAudit

  /** The repository as a map from paths to contents. */
  type Tree = map<string, string>

  datatype Outputs = Outputs(json: string, markdown: string, debt: string)

  // ----- what the report is built from

  /** The files whose text `build_report` reads by name. */
  const READ_BY_NAME: set<string> := {
    "docs/architecture/frontend-boundary-policy.json", "docs/architecture/public-facade-exceptions.json",
    "docs/architecture/residual-legacy-boundaries.json", "docs/architecture/legacy-wrapper-audit.md",
    "docs/architecture/legacy-wrappers.json", "docs/security/security-baseline.md"
  }

  /** A directory and the endings of the sources that are read below it. */
  datatype Sources = Sources(root: string, suffixes: set<string>)

  const READ_BELOW := [
    Sources("backend/app/", {".py"}),
    Sources("backend/tests/architecture/", {".py"}),
    Sources("apps/dashboard/src/", {".ts", ".tsx"})
  ]

  predicate EndsWith(path: string, suffix: string) {
    |suffix| <= |path| && path[|path| - |suffix|..] == suffix
  }

  predicate IsBelow(path: string, sources: Sources) {
    sources.root <= path && exists suffix :: suffix in sources.suffixes && EndsWith(path, suffix)
  }

  predicate IsRead(path: string) {
    path in READ_BY_NAME || exists i :: 0 <= i < |READ_BELOW| && IsBelow(path, READ_BELOW[i])
  }

  ghost predicate IsFile(path: string, root: string, suffix: string) {
    root <= path && exists name :: path == name + suffix
  }

  /** What is read: six documents, and the sources of the backend, its architecture tests and the dashboard. */
  lemma {:induction false} ReadExactly(path: string)
    ensures IsRead(path) <==>
            || path == "docs/architecture/residual-legacy-boundaries.json"
            || path == "docs/architecture/frontend-boundary-policy.json"
            || path == "docs/architecture/public-facade-exceptions.json"
            || path == "docs/architecture/legacy-wrapper-audit.md" || path == "docs/architecture/legacy-wrappers.json"
            || path == "docs/security/security-baseline.md"
            || IsFile(path, "backend/app/", ".py") || IsFile(path, "backend/tests/architecture/", ".py")
            || IsFile(path, "apps/dashboard/src/", ".ts") || IsFile(path, "apps/dashboard/src/", ".tsx")
  {
    EndsExactly(path, ".py");
    EndsExactly(path, ".ts");
    EndsExactly(path, ".tsx");
    assert IsRead(path) <==> path in READ_BY_NAME || IsBelow(path, READ_BELOW[0]) || IsBelow(path, READ_BELOW[1])
                             || IsBelow(path, READ_BELOW[2]);
  }

  lemma {:induction false} EndsExactly(path: string, suffix: string)
    ensures EndsWith(path, suffix) <==> exists name :: path == name + suffix
  {
    if EndsWith(path, suffix) {
      assert path == path[..|path| - |suffix|] + suffix;
    }
  }

  /** All that the report can depend on: which files there are, and the texts of those that are read. */
  datatype View = View(paths: set<string>, texts: map<string, string>)

  function ViewOf(t: Tree): View {
    View(t.Keys, map p | p in t && IsRead(p) :: t[p])
  }

  /** Building the report from what it sees and a timestamp, rendering it, and reading the timestamp back. */
  datatype Audit<!R> = Audit(
    build: (View, string) -> R,
    renderJson: R -> string,
    renderMarkdown: R -> string,
    renderDebt: R -> string,
    timestampOf: string -> Option<string>)

  function BuildReport<R>(audit: Audit<R>, t: Tree, at: string): R {
    audit.build(ViewOf(t), at)
  }

  /** The JSON text of a report gives back the timestamp of the report. */
  ghost predicate ReadsBack<R(!new)>(audit: Audit<R>) {
    forall v: View, at: string {:trigger audit.build(v, at)} ::
      audit.timestampOf(audit.renderJson(audit.build(v, at))) == Some(at)
  }

  predicate IsOutput(outputs: Outputs, path: string) {
    path in {outputs.json, outputs.markdown, outputs.debt}
  }

  /** The audit reads none of the files it writes. */
  predicate Unread(outputs: Outputs) {
    !IsRead(outputs.json) && !IsRead(outputs.markdown) && !IsRead(outputs.debt)
  }

  const DEFAULT_OUTPUTS := Outputs(
    "docs/architecture/structure-audit.json",
    "docs/architecture/STRUCTURE_AUDIT.md",
    "docs/architecture/architecture-debt-inventory.json")

  /** The default outputs are three files, none of which is read. */
  lemma {:induction false} DefaultsAreSafe()
    ensures Unread(DEFAULT_OUTPUTS) && Separate(DEFAULT_OUTPUTS)
  {
    var (o, docs) := (DEFAULT_OUTPUTS, "docs/architecture/");
    NotBelow(o.json);
    NotBelow(o.markdown);
    NotBelow(o.debt);
    assert o.json[|docs|..] == "structure-audit.json" && o.markdown[|docs|..] == "STRUCTURE_AUDIT.md";
    assert o.debt[|docs|..] == "architecture-debt-inventory.json";
  }

  lemma {:induction false} NotBelow(path: string)
    requires |path| > 0 && path[0] == 'd'
    ensures forall i :: 0 <= i < |READ_BELOW| ==> !IsBelow(path, READ_BELOW[i])
  {
    assert READ_BELOW[0].root[0] == 'b' && READ_BELOW[1].root[0] == 'b' && READ_BELOW[2].root[0] == 'a';
  }

  /** Two trees with the same files, and the same contents but for the outputs. */
  ghost predicate SameInputs(outputs: Outputs, a: Tree, b: Tree) {
    a.Keys == b.Keys && forall p :: p in a && !IsOutput(outputs, p) ==> a[p] == b[p]
  }

  /** Outputs that are not read show in the report only through their existence. */
  lemma {:induction false} OutputsDoNotShow<R>(audit: Audit<R>, outputs: Outputs, a: Tree, b: Tree, at: string)
    requires Unread(outputs) && SameInputs(outputs, a, b)
    ensures BuildReport(audit, a, at) == BuildReport(audit, b, at)
  {
    var (v, w) := (ViewOf(a), ViewOf(b));
    assert v.texts.Keys == w.texts.Keys;
    forall p | p in v.texts
      ensures v.texts[p] == w.texts[p]
    {
      assert !IsOutput(outputs, p);
    }
    assert v.texts == w.texts;
  }

  /** `_ensure_report_outputs_exist`: each missing path becomes an empty file. */
  function EnsureAll(t: Tree, paths: seq<string>): Tree {
    if paths == [] then t
    else
      var (ready, last) := (EnsureAll(t, paths[..|paths| - 1]), paths[|paths| - 1]);
      if last in ready then ready else ready[last := ""]
  }

  function AllOf(outputs: Outputs): seq<string> {
    [outputs.json, outputs.markdown, outputs.debt]
  }

  function EnsureOutputs(t: Tree, outputs: Outputs): Tree {
    EnsureAll(t, AllOf(outputs))
  }

  lemma {:induction false} EnsureAllKeeps(t: Tree, paths: seq<string>)
    ensures EnsureAll(t, paths).Keys == t.Keys + (set p | p in paths)
    ensures forall p :: p in EnsureAll(t, paths) ==> EnsureAll(t, paths)[p] == if p in t then t[p] else ""
  {
    if paths != [] {
      EnsureAllKeeps(t, paths[..|paths| - 1]);
      assert paths == paths[..|paths| - 1] + [paths[|paths| - 1]];
    }
  }

  lemma {:induction false} EnsureKeeps(t: Tree, outputs: Outputs)
    ensures EnsureOutputs(t, outputs).Keys == t.Keys + {outputs.json, outputs.markdown, outputs.debt}
    ensures forall p :: p in EnsureOutputs(t, outputs) ==> EnsureOutputs(t, outputs)[p] == if p in t then t[p] else ""
  {
    var paths := AllOf(outputs);
    EnsureAllKeeps(t, paths);
    assert paths[0] in paths && paths[1] in paths && paths[2] in paths;
  }

  /** `write_report_artifacts`. */
  function WriteReports<R>(audit: Audit<R>, t: Tree, outputs: Outputs, at: string): Tree {
    var ready := EnsureOutputs(t, outputs);
    var report := BuildReport(audit, ready, at);
    ready[outputs.json := audit.renderJson(report)][outputs.markdown := audit.renderMarkdown(report)][outputs.debt :=
        audit.renderDebt(report)]
  }

  /** `detect_report_drift`; none when an output is missing or the JSON cannot be read back. */
  function DetectDrift<R>(audit: Audit<R>, t: Tree, outputs: Outputs): Option<seq<string>> {
    if outputs.json !in t || outputs.markdown !in t || outputs.debt !in t
      || audit.timestampOf(t[outputs.json]).None? then None
    else
      var report := BuildReport(audit, t, audit.timestampOf(t[outputs.json]).value);
      Some((if t[outputs.json] != audit.renderJson(report) then [outputs.json] else [])
           + (if t[outputs.markdown] != audit.renderMarkdown(report) then [outputs.markdown] else [])
           + (if t[outputs.debt] != audit.renderDebt(report) then [outputs.debt] else []))
  }

  lemma {:induction false} WrittenInputs<R>(audit: Audit<R>, t: Tree, outputs: Outputs, at: string)
    ensures SameInputs(outputs, EnsureOutputs(t, outputs), WriteReports(audit, t, outputs, at))
  {
    EnsureKeeps(t, outputs);
    assert WriteReports(audit, t, outputs, at).Keys == EnsureOutputs(t, outputs).Keys;
  }

  /** No text of one report is the text of another, whichever two reports they render. */
  ghost predicate Distinguishable<R(!new)>(audit: Audit<R>) {
    && (forall r: R, s: R :: audit.renderJson(r) != audit.renderMarkdown(s))
    && (forall r: R, s: R :: audit.renderJson(r) != audit.renderDebt(s))
    && (forall r: R, s: R :: audit.renderMarkdown(r) != audit.renderDebt(s))
  }

  predicate Separate(outputs: Outputs) {
    outputs.json != outputs.markdown && outputs.json != outputs.debt && outputs.markdown != outputs.debt
  }

  lemma {:induction false} SafeWriteThenCheck<R(!new)>(audit: Audit<R>, t: Tree, outputs: Outputs, at: string)
    requires ReadsBack(audit) && Separate(outputs) && Unread(outputs)
    ensures DetectDrift(audit, WriteReports(audit, t, outputs, at), outputs) == Some([])
  {
    var (ready, written) := (EnsureOutputs(t, outputs), WriteReports(audit, t, outputs, at));
    var report := BuildReport(audit, ready, at);
    WrittenInputs(audit, t, outputs, at);
    OutputsDoNotShow(audit, outputs, ready, written, at);
    assert BuildReport(audit, written, at) == report;
    assert written[outputs.json] == audit.renderJson(report) && written[outputs.debt] == audit.renderDebt(report);
    assert written[outputs.markdown] == audit.renderMarkdown(report);
    assert report == audit.build(ViewOf(ready), at) && audit.timestampOf(written[outputs.json]) == Some(at);
    var drift := DetectDrift(audit, written, outputs);
    assert drift.Some?;
    assert drift.value == [];
  }

  /**
   A check right after a write finds no drift, on any tree, when the three outputs are separate files
   that the audit does not read.
   */
  lemma {:induction false} WriteThenCheck<R(!new)>(audit: Audit<R>, t: Tree, outputs: Outputs, at: string)
    requires ReadsBack(audit)
    ensures Separate(outputs) && Unread(outputs)
            ==> DetectDrift(audit, WriteReports(audit, t, outputs, at), outputs) == Some([])
    ensures Distinguishable(audit) && !Separate(outputs) ==>
              DetectDrift(audit, WriteReports(audit, t, outputs, at), outputs) != Some([])
  {
    var (ready, written) := (EnsureOutputs(t, outputs), WriteReports(audit, t, outputs, at));
    var report := BuildReport(audit, ready, at);
    assert written[outputs.debt] == audit.renderDebt(report);
    if Separate(outputs) {
      if Unread(outputs) {
        SafeWriteThenCheck(audit, t, outputs, at);
      }
    } else if Distinguishable(audit) && DetectDrift(audit, written, outputs).Some? {
      var again := BuildReport(audit, written, audit.timestampOf(written[outputs.json]).value);
      if outputs.json == outputs.debt {
        assert audit.renderJson(again) != audit.renderDebt(report);
      } else if outputs.json == outputs.markdown {
        assert audit.renderJson(again) != audit.renderMarkdown(report);
      } else {
        assert audit.renderMarkdown(again) != audit.renderDebt(report);
      }
    }
  }

  /** With the default outputs a check right after a write always passes. */
  lemma {:induction false} DefaultWriteThenCheck<R(!new)>(audit: Audit<R>, t: Tree, at: string)
    requires ReadsBack(audit)
    ensures DetectDrift(audit, WriteReports(audit, t, DEFAULT_OUTPUTS, at), DEFAULT_OUTPUTS) == Some([])
  {
    DefaultsAreSafe();
    WriteThenCheck(audit, t, DEFAULT_OUTPUTS, at);
  }

  // ----- outputs that are read

  /** A report that quotes one file. */
  datatype Quote = Quote(at: string, text: string)

  function Quoting(path: string): Audit<Quote> {
    Audit((v: View, at: string) => Quote(at, if path in v.texts then v.texts[path] else ""),
          (q: Quote) => q.at, (q: Quote) => "#" + q.text, (q: Quote) => "{" + q.text, (s: string) => Some(s))
  }

  /** The check passes after every write of an audit. */
  ghost predicate Stable<R(!new)>(audit: Audit<R>, outputs: Outputs) {
    forall t: Tree, at: string :: DetectDrift(audit, WriteReports(audit, t, outputs, at), outputs) == Some([])
  }

  lemma {:induction false} QuoteIs(path: string, t: Tree, at: string)
    requires IsRead(path) && path in t
    ensures BuildReport(Quoting(path), t, at) == Quote(at, t[path])
  {
    assert path in ViewOf(t).texts;
  }

  /** What the write of a quoting audit leaves: the old quote, over a file whose text has changed. */
  lemma {:induction false} QuoteGoesStale(outputs: Outputs, path: string, at: string)
    requires Separate(outputs) && IsOutput(outputs, path) && IsRead(path)
    ensures var written := WriteReports(Quoting(path), map[path := at + "!"], outputs, at);
            && {outputs.json, outputs.markdown, outputs.debt} <= written.Keys
            && written[outputs.json] == at && written[outputs.markdown] == "#" + (at + "!") && written[path] != at + "!"
  {
    var t: Tree := map[path := at + "!"];
    var ready := EnsureOutputs(t, outputs);
    EnsureKeeps(t, outputs);
    assert path in t;
    assert ready[path] == at + "!";
    QuoteIs(path, ready, at);
    assert |"{" + (at + "!")| == |"#" + (at + "!")| == |at| + 2;
  }

  /** An audit that quotes an output drifts at once, and a second write changes files again. */
  lemma {:induction false} ReadOutputDrifts(outputs: Outputs, path: string, at: string)
    requires Separate(outputs) && IsOutput(outputs, path) && IsRead(path)
    ensures var audit := Quoting(path);
            var written := WriteReports(audit, map[path := at + "!"], outputs, at);
            && ReadsBack(audit) && DetectDrift(audit, written, outputs) != Some([])
            && WriteReports(audit, written, outputs, at) != written
  {
    var audit := Quoting(path);
    var written := WriteReports(audit, map[path := at + "!"], outputs, at);
    QuoteGoesStale(outputs, path, at);
    QuoteIs(path, written, at);
    StaleMarkdown(written[path], at + "!");
    NoDriftMeansUpToDate(audit, written, outputs, at);
    EnsureKeeps(written, outputs);
    assert EnsureOutputs(written, outputs) == written;
    assert WriteReports(audit, written, outputs, at)[outputs.markdown] == "#" + written[path];
  }

  lemma {:induction false} StaleMarkdown(now: string, quoted: string)
    requires now != quoted
    ensures "#" + now != "#" + quoted
  {
    assert ("#" + now)[1..] == now && ("#" + quoted)[1..] == quoted;
  }

  /**
   Knowing only which files an audit reads, the guard cannot be relaxed: for separate outputs, reading
   none of them makes every audit stable (see `WriteThenCheck`), and reading any of them is enough for
   some audit not to be.  What this audit does with one file that it reads is `ManifestOverwritten`.
   */
  lemma {:induction false} StableExactly(outputs: Outputs)
    requires Separate(outputs)
    ensures Unread(outputs) <==> forall path :: IsRead(path) ==> Stable(Quoting(path), outputs)
  {
    if Unread(outputs) {
      forall path, t: Tree, at: string
        ensures DetectDrift(Quoting(path), WriteReports(Quoting(path), t, outputs, at), outputs) == Some([])
      {
        WriteThenCheck(Quoting(path), t, outputs, at);
      }
    } else {
      var path :| IsOutput(outputs, path) && IsRead(path);
      ReadOutputDrifts(outputs, path, "");
    }
  }

  const MANIFEST := "docs/architecture/residual-legacy-boundaries.json"
  const DEBT_OVER_MANIFEST := DEFAULT_OUTPUTS.(debt := MANIFEST)

  /** A debt inventory written over the residual-boundary manifest does not meet the guard. */
  lemma {:induction false} ManifestAsOutput()
    ensures Separate(DEBT_OVER_MANIFEST) && !Unread(DEBT_OVER_MANIFEST)
    ensures !Stable(Quoting(MANIFEST), DEBT_OVER_MANIFEST)
  {
    DefaultsAreSafe();
    assert IsRead(MANIFEST);
    ReadOutputDrifts(DEBT_OVER_MANIFEST, MANIFEST, "");
  }

  // ----- the residual-boundary guard within the report

  /** The guard as part of a report: the manifest it parses, the entries and surfaces it compares with. */
  datatype Guard<!R> = Guard(
    parse: string -> seq<Expected>,
    entries: set<string> -> seq<Entry>,
    surface: map<string, string> -> Fingerprint,
    violationsOf: R -> set<Violation>)

  /** `_read_residual_boundary_manifest`. */
  function ManifestIn<R>(guard: Guard<R>, v: View): seq<Expected> {
    if MANIFEST in v.texts then guard.parse(v.texts[MANIFEST]) else []
  }

  /** The inventory read as a manifest: its entries with their owners, but no entry id and no fingerprint. */
  ghost predicate ReadsAs(manifest: seq<Expected>, entries: seq<Entry>) {
    && |manifest| == |entries|
    && forall i :: 0 <= i < |entries| ==>
         manifest[i].owner == Some(entries[i].owner) && manifest[i].entryId == "" && manifest[i].fingerprint == []
  }

  /**
   The report holds the violations of the manifest that it reads, its debt inventory holds the entries,
   and its JSON text tells its violations.
   */
  ghost predicate Reports<R(!new)>(audit: Audit<R>, guard: Guard<R>) {
    && (forall v: View, at: string {:trigger audit.build(v, at)} ::
          guard.violationsOf(audit.build(v, at))
          == GuardViolations(guard.surface(v.texts - {MANIFEST}), ManifestIn(guard, v), guard.entries(v.paths)))
    && (forall v: View, at: string {:trigger audit.build(v, at)} ::
          ReadsAs(guard.parse(audit.renderDebt(audit.build(v, at))), guard.entries(v.paths)))
    && (forall r: R, s: R ::
          audit.renderJson(r) == audit.renderJson(s) ==> guard.violationsOf(r) == guard.violationsOf(s))
  }

  /** The inventory never passes for the manifest: without entry ids, no entry of it has its metadata. */
  lemma {:induction false} InventoryViolates(surface: Fingerprint, manifest: seq<Expected>, entries: seq<Entry>)
    requires ReadsAs(manifest, entries) && entries != []
    ensures GuardViolations(surface, manifest, entries) != {}
  {
    CleanMeansMatching(surface, manifest, entries);
    if ManifestMatches(surface, manifest, entries) {
      var last := manifest[|manifest| - 1];
      assert last in manifest;
      var entry :| entry in entries && IsResidual(entry) && IsOwner(last, entry.owner);
      var j :| Decides(manifest, j, entry.owner) && Describes(surface, manifest[j], entry);
      CompleteExactly(manifest[j]);
      assert false;
    }
  }

  /** What the audit sees after the write: the same files, and the inventory in place of the manifest. */
  lemma {:induction false} ManifestReplaced<R(!new)>(audit: Audit<R>, t: Tree, at: string)
    requires MANIFEST in t
    ensures var (ready, o) := (EnsureOutputs(t, DEBT_OVER_MANIFEST), DEBT_OVER_MANIFEST);
            var (report, written) := (BuildReport(audit, ready, at), WriteReports(audit, t, o, at));
            && ViewOf(written).paths == ViewOf(ready).paths
            && MANIFEST in ViewOf(written).texts && ViewOf(written).texts[MANIFEST] == audit.renderDebt(report)
            && {o.json, o.markdown, o.debt} <= written.Keys && written[o.json] == audit.renderJson(report)
  {
    var ready := EnsureOutputs(t, DEBT_OVER_MANIFEST);
    EnsureKeeps(t, DEBT_OVER_MANIFEST);
    DefaultsAreSafe();
    ManifestAsOutput();
    assert WriteReports(audit, t, DEBT_OVER_MANIFEST, at).Keys == ready.Keys;
    assert IsRead(MANIFEST);
  }

  /**
   With the debt inventory written over the manifest, the check right after the write always fails, in
   every repository that has a manifest and entries and passed the guard before.
   */
  lemma {:induction false} ManifestOverwritten<R(!new)>(audit: Audit<R>, guard: Guard<R>, t: Tree, at: string)
    requires Reports(audit, guard) && ReadsBack(audit) && MANIFEST in t
    requires guard.violationsOf(BuildReport(audit, EnsureOutputs(t, DEBT_OVER_MANIFEST), at)) == {}
    requires guard.entries(EnsureOutputs(t, DEBT_OVER_MANIFEST).Keys) != []
    ensures var drift := DetectDrift(audit, WriteReports(audit, t, DEBT_OVER_MANIFEST, at), DEBT_OVER_MANIFEST);
            drift.Some? && DEBT_OVER_MANIFEST.json in drift.value
  {
    var (ready, written) := (EnsureOutputs(t, DEBT_OVER_MANIFEST), WriteReports(audit, t, DEBT_OVER_MANIFEST, at));
    var (report, again) := (BuildReport(audit, ready, at), BuildReport(audit, written, at));
    ManifestReplaced(audit, t, at);
    assert report == audit.build(ViewOf(ready), at) && again == audit.build(ViewOf(written), at);
    var (manifest, entries) := (ManifestIn(guard, ViewOf(written)), guard.entries(ViewOf(written).paths));
    assert ReadsAs(manifest, entries);
    InventoryViolates(guard.surface(ViewOf(written).texts - {MANIFEST}), manifest, entries);
    assert guard.violationsOf(again) != guard.violationsOf(report);
    assert audit.timestampOf(written[DEBT_OVER_MANIFEST.json]) == Some(at);
    assert audit.renderJson(again) != written[DEBT_OVER_MANIFEST.json];
  }

  lemma {:induction false} OverwriteSame(outputs: Outputs, x: Tree, y: Tree, json: string, markdown: string,
                                         debt: string)
    requires SameInputs(outputs, x, y)
    ensures x[outputs.json := json][outputs.markdown := markdown][outputs.debt := debt]
            == y[outputs.json := json][outputs.markdown := markdown][outputs.debt := debt]
  {
    var (v, w) := (x[outputs.json := json][outputs.markdown := markdown][outputs.debt := debt],
                   y[outputs.json := json][outputs.markdown := markdown][outputs.debt := debt]);
    assert v.Keys == w.Keys;
  }

  /** A second write with the same timestamp changes no file. */
  lemma {:induction false} WriteTwice<R(!new)>(audit: Audit<R>, t: Tree, outputs: Outputs, at: string)
    requires Unread(outputs)
    ensures var written := WriteReports(audit, t, outputs, at); WriteReports(audit, written, outputs, at) == written
  {
    var (ready, written) := (EnsureOutputs(t, outputs), WriteReports(audit, t, outputs, at));
    WrittenInputs(audit, t, outputs, at);
    EnsureKeeps(t, outputs);
    EnsureKeeps(written, outputs);
    assert EnsureOutputs(written, outputs) == written;
    var report := BuildReport(audit, ready, at);
    OutputsDoNotShow(audit, outputs, ready, written, at);
    OverwriteSame(outputs, ready, written, audit.renderJson(report), audit.renderMarkdown(report),
                  audit.renderDebt(report));
  }

  /** Drift means out of date: the files that drift are those that regenerating the report would change. */
  lemma {:induction false} NoDriftMeansUpToDate<R>(audit: Audit<R>, t: Tree, outputs: Outputs, at: string)
    requires Separate(outputs) && {outputs.json, outputs.markdown, outputs.debt} <= t.Keys
    requires audit.timestampOf(t[outputs.json]) == Some(at)
    ensures var (drift, written) := (DetectDrift(audit, t, outputs), WriteReports(audit, t, outputs, at));
            && drift.Some? && (drift == Some([]) <==> written == t) && written.Keys == t.Keys
            && forall p :: p in drift.value <==> p in t && written[p] != t[p]
  {
    EnsureKeeps(t, outputs);
    assert EnsureOutputs(t, outputs) == t;
    var (written, report) := (WriteReports(audit, t, outputs, at), BuildReport(audit, t, at));
    assert written[outputs.json] == audit.renderJson(report);
    assert written[outputs.markdown] == audit.renderMarkdown(report);
    assert written[outputs.debt] == audit.renderDebt(report);
  }

  /** What is written does not depend on what the outputs held, or on whether they were there. */
  lemma {:induction false} WriteForgetsOutputs<R(!new)>(audit: Audit<R>, a: Tree, b: Tree, outputs: Outputs, at: string)
    requires Unread(outputs)
    requires a.Keys + {outputs.json, outputs.markdown, outputs.debt} == b.Keys
             + {outputs.json, outputs.markdown, outputs.debt}
    requires forall p :: p in a && p in b && !IsOutput(outputs, p) ==> a[p] == b[p]
    ensures WriteReports(audit, a, outputs, at) == WriteReports(audit, b, outputs, at)
  {
    var (x, y) := (EnsureOutputs(a, outputs), EnsureOutputs(b, outputs));
    EnsureKeeps(a, outputs);
    EnsureKeeps(b, outputs);
    assert SameInputs(outputs, x, y) by {
      forall p | p in x && !IsOutput(outputs, p)
        ensures x[p] == y[p]
      {
        assert p in a && p in b;
      }
    }
    OutputsDoNotShow(audit, outputs, x, y, at);
    OverwriteSame(outputs, x, y, audit.renderJson(BuildReport(audit, x, at)),
                  audit.renderMarkdown(BuildReport(audit, x, at)), audit.renderDebt(BuildReport(audit, x, at)));
  }

  /** A checkout of the repository, whose files the writer changes. */
  class Repository {
    var files: Tree

    constructor (t: Tree)
      ensures files == t
    {
      files := t;
    }

    /** `_ensure_report_outputs_exist`. */
    method EnsureReportOutputsExist(outputs: Outputs)
      modifies this
      ensures files == EnsureOutputs(old(files), outputs)
    {
      var paths := AllOf(outputs);
      for i := 0 to |paths|
        invariant files == EnsureAll(old(files), paths[..i])
      {
        assert paths[..i + 1][..i] == paths[..i];
        if paths[i] !in files {
          files := files[paths[i] := ""];
        }
      }
      assert paths[..|paths|] == paths;
    }

    /** `write_report_artifacts`. */
    method WriteReportArtifacts<R>(audit: Audit<R>, outputs: Outputs, at: string)
      modifies this
      ensures files == WriteReports(audit, old(files), outputs, at)
    {
      EnsureReportOutputsExist(outputs);
      var report := BuildReport(audit, files, at);
      files := files[outputs.json := audit.renderJson(report)];
      files := files[outputs.markdown := audit.renderMarkdown(report)];
      files := files[outputs.debt := audit.renderDebt(report)];
    }

    /** `detect_report_drift`. */
    method DetectReportDrift<R>(audit: Audit<R>, outputs: Outputs) returns (drift: Option<seq<string>>)
      ensures drift == DetectDrift(audit, files, outputs)
    {
      if outputs.json !in files || outputs.markdown !in files || outputs.debt !in files
        || audit.timestampOf(files[outputs.json]).None? {
        return None;
      }
      var expected := BuildReport(audit, files, audit.timestampOf(files[outputs.json]).value);
      var stale: seq<string> := [];
      if files[outputs.json] != audit.renderJson(expected) {
        stale := stale + [outputs.json];
      }
      if files[outputs.markdown] != audit.renderMarkdown(expected) {
        stale := stale + [outputs.markdown];
      }
      if files[outputs.debt] != audit.renderDebt(expected) {
        stale := stale + [outputs.debt];
      }
      assert stale == DetectDrift(audit, files, outputs).value;
      return Some(stale);
    }
  }
}
