/**
 The guards of backend/scripts/structure_audit.py: the residual-boundary manifest, the ownership of
 backend/app files, and the verdicts drawn from them.
 */
module StructureAudit {
  import opened Wrappers
  import opened Strings

  /** An ownership entry with the files its patterns match; `_entry_to_dict` lists each file once. */
  datatype Entry = Entry(id: string, owner: string, category: string, severity: string, status: string,
                         existingPaths: seq<string>)

  /** A manifest entry; a missing key is an empty value, except the owner, which then reads as a text. */
  datatype Expected = Expected(
    owner: Option<string>, entryId: string, relatedIssue: string, rationale: string, removalCondition: string,
    verificationScope: string, paths: seq<string>, existingPaths: seq<string>, fingerprint: seq<string>)

  const RESIDUAL := "residual_legacy_feature_boundary"
  const UNMANAGED := "unmanaged_feature_surface"
  const ACCEPTED_DEBT := "accepted_architectural_debt"

  // ----- the residual-boundary guard

  datatype Violation =
    | MissingManifestEntry(owner: string)
    | StaleManifestEntry(owner: string)
    | MissingMetadata(owner: string)
    | WrongEntryId(owner: string)
    | NewPath(owner: string, item: string)
    | GonePath(owner: string, item: string)
    | NewSurface(owner: string, item: string)
    | GoneSurface(owner: string, item: string)

  function OwnerKey(e: Expected): string {
    if e.owner.Some? then e.owner.value else "None"
  }

  /** The manifest by owner; the last entry of an owner wins. */
  function ByOwner(manifest: seq<Expected>): map<string, Expected> {
    if manifest == [] then map[]
    else
      var last := manifest[|manifest| - 1];
      ByOwner(manifest[..|manifest| - 1])[OwnerKey(last) := last]
  }

  function Residual(entries: seq<Entry>): seq<Entry> {
    if entries == [] then []
    else
      var last := entries[|entries| - 1];
      Residual(entries[..|entries| - 1]) + (if last.category == RESIDUAL then [last] else [])
  }

  function Owners(entries: seq<Entry>): set<string> {
    set i | 0 <= i < |entries| :: entries[i].owner
  }

  /** Every piece of required metadata is there. */
  predicate HasMetadata(e: Expected) {
    && e.owner.Some? && e.owner.value != "" && e.entryId != "" && e.relatedIssue != "" && e.rationale != ""
    && e.removalCondition != "" && e.verificationScope != "" && e.paths != [] && e.existingPaths != []
       && e.fingerprint != []
  }

  const NO_EXPECTATION := Expected(None, "", "", "", "", "", [], [], [])

  type Fingerprint = set<string> -> set<string>

  function EntryViolations(surface: Fingerprint, expected: Expected, entry: Entry): set<Violation> {
    var (owner, paths, items) := (entry.owner, Elements(entry.existingPaths), surface(Elements(entry.existingPaths)));
    (if HasMetadata(expected) then {} else {MissingMetadata(owner)})
    + (if expected.entryId != "" && expected.entryId != entry.id then {WrongEntryId(owner)} else {})
    + (set p | p in paths - Elements(expected.existingPaths) :: NewPath(owner, p))
    + (set p | p in Elements(expected.existingPaths) - paths :: GonePath(owner, p))
    + (set x | x in items - Elements(expected.fingerprint) :: NewSurface(owner, x))
    + (set x | x in Elements(expected.fingerprint) - items :: GoneSurface(owner, x))
  }

  function ExpectedFor(byOwner: map<string, Expected>, entry: Entry): Expected {
    if entry.owner in byOwner then byOwner[entry.owner] else NO_EXPECTATION
  }

  function AllEntryViolations(surface: Fingerprint, byOwner: map<string, Expected>,
                              residual: seq<Entry>): set<Violation> {
    if residual == [] then {}
    else
      var last := residual[|residual| - 1];
      AllEntryViolations(surface, byOwner, residual[..|residual| - 1])
        + EntryViolations(surface, ExpectedFor(byOwner, last), last)
  }

  function OwnerViolations(expected: set<string>, actual: set<string>): set<Violation> {
    (set o | o in actual - expected :: MissingManifestEntry(o))
      + (set o | o in expected - actual :: StaleManifestEntry(o))
  }

  /** The owner a manifest entry is indexed by, as text. */
  ghost predicate IsOwner(expected: Expected, owner: string) {
    expected.owner == Some(owner) || (expected.owner == None && owner == "None")
  }

  /** Of the manifest entries of the owner, this is the last. */
  ghost predicate Decides(manifest: seq<Expected>, j: int, owner: string) {
    && 0 <= j < |manifest| && IsOwner(manifest[j], owner)
    && forall k :: j < k < |manifest| ==> !IsOwner(manifest[k], owner)
  }

  ghost predicate IsResidual(entry: Entry) {
    entry.category == "residual_legacy_feature_boundary"
  }

  /**
   The manifest describes exactly the residual entries: each is described by the last manifest entry of
   its owner, and no manifest entry is left over.
   */
  ghost predicate ManifestMatches(surface: Fingerprint, manifest: seq<Expected>, entries: seq<Entry>) {
    && (forall entry :: entry in entries && IsResidual(entry) ==>
          exists j :: Decides(manifest, j, entry.owner) && Describes(surface, manifest[j], entry))
    && (forall expected :: expected in manifest ==>
          exists entry :: entry in entries && IsResidual(entry) && IsOwner(expected, entry.owner))
  }

  /** Nothing that the manifest has to say of a boundary is missing or empty. */
  ghost predicate IsComplete(e: Expected) {
    && e.owner != None && e.owner != Some("")
    && (forall text :: text in [e.entryId, e.relatedIssue, e.rationale, e.removalCondition, e.verificationScope] ==>
          text != "")
    && (forall list :: list in [e.paths, e.existingPaths, e.fingerprint] ==> list != [])
  }

  ghost predicate Describes(surface: Fingerprint, expected: Expected, entry: Entry) {
    && IsComplete(expected) && expected.entryId == entry.id
    && (forall p :: p in expected.existingPaths <==> p in entry.existingPaths)
    && (forall x :: x in expected.fingerprint <==> x in surface(Elements(entry.existingPaths)))
  }

  lemma {:induction false} ByOwnerExactly(manifest: seq<Expected>, owner: string)
    ensures owner in ByOwner(manifest) <==> exists j :: 0 <= j < |manifest| && IsOwner(manifest[j], owner)
    ensures owner in ByOwner(manifest) ==>
              exists j :: Decides(manifest, j, owner) && manifest[j] == ByOwner(manifest)[owner]
    ensures forall j, k :: Decides(manifest, j, owner) && Decides(manifest, k, owner) ==> j == k
  {
    if manifest != [] {
      var (front, last) := (manifest[..|manifest| - 1], |manifest| - 1);
      ByOwnerExactly(front, owner);
      assert forall j :: 0 <= j < last ==> front[j] == manifest[j];
      if IsOwner(manifest[last], owner) {
        assert Decides(manifest, last, owner);
      } else if owner in ByOwner(front) {
        var j :| Decides(front, j, owner) && front[j] == ByOwner(front)[owner];
        assert Decides(manifest, j, owner);
      }
    }
  }

  lemma {:induction false} ResidualExactly(entries: seq<Entry>, e: Entry)
    ensures e in Residual(entries) <==> e in entries && IsResidual(e)
  {
    if entries != [] {
      ResidualExactly(entries[..|entries| - 1], e);
      assert entries == entries[..|entries| - 1] + [entries[|entries| - 1]];
    }
  }

  lemma {:induction false} CompleteExactly(e: Expected)
    ensures HasMetadata(e) <==> IsComplete(e)
  {
    var texts := [e.entryId, e.relatedIssue, e.rationale, e.removalCondition, e.verificationScope];
    var lists := [e.paths, e.existingPaths, e.fingerprint];
    assert texts[0] in texts && texts[1] in texts && texts[2] in texts && texts[3] in texts && texts[4] in texts;
    assert lists[0] in lists && lists[1] in lists && lists[2] in lists;
  }

  /** The entry is not as expected, in the way that the violation says. */
  ghost predicate Breaches(surface: Fingerprint, expected: Expected, entry: Entry, v: Violation) {
    match v
    case MissingMetadata(owner) => owner == entry.owner && !IsComplete(expected)
    case WrongEntryId(owner) => owner == entry.owner && expected.entryId !in {"", entry.id}
    case NewPath(owner, p) => owner == entry.owner && p in entry.existingPaths && p !in expected.existingPaths
    case GonePath(owner, p) => owner == entry.owner && p in expected.existingPaths && p !in entry.existingPaths
    case NewSurface(owner, x) =>
      owner == entry.owner && x in surface(Elements(entry.existingPaths)) && x !in expected.fingerprint
    case GoneSurface(owner, x) =>
      owner == entry.owner && x in expected.fingerprint && x !in surface(Elements(entry.existingPaths))
    case _ => false
  }

  lemma {:induction false} BreachesExactly(surface: Fingerprint, expected: Expected, entry: Entry, v: Violation)
    ensures v in EntryViolations(surface, expected, entry) <==> Breaches(surface, expected, entry, v)
  {
    CompleteExactly(expected);
  }

  lemma {:induction false} NoEntryViolations(surface: Fingerprint, expected: Expected, entry: Entry)
    ensures EntryViolations(surface, expected, entry) == {} <==> Describes(surface, expected, entry)
  {
    var (owner, found) := (entry.owner, EntryViolations(surface, expected, entry));
    var items := surface(Elements(entry.existingPaths));
    forall v
      ensures v in found <==> Breaches(surface, expected, entry, v)
    {
      BreachesExactly(surface, expected, entry, v);
    }
    assert !IsComplete(expected) ==> MissingMetadata(owner) in found;
    assert expected.entryId !in {"", entry.id} ==> WrongEntryId(owner) in found;
    assert forall p :: p in entry.existingPaths && p !in expected.existingPaths ==> NewPath(owner, p) in found;
    assert forall p :: p in expected.existingPaths && p !in entry.existingPaths ==> GonePath(owner, p) in found;
    assert forall x :: x in items && x !in expected.fingerprint ==> NewSurface(owner, x) in found;
    assert forall x :: x in expected.fingerprint && x !in items ==> GoneSurface(owner, x) in found;
    CompleteExactly(expected);
  }

  lemma {:induction false} FoundInAnEntry(surface: Fingerprint, byOwner: map<string, Expected>, residual: seq<Entry>,
        v: Violation)
    ensures v in AllEntryViolations(surface, byOwner, residual) <==>
            exists e :: e in residual && Breaches(surface, ExpectedFor(byOwner, e), e, v)
  {
    if residual != [] {
      var (front, last) := (residual[..|residual| - 1], residual[|residual| - 1]);
      FoundInAnEntry(surface, byOwner, front, v);
      BreachesExactly(surface, ExpectedFor(byOwner, last), last, v);
      assert residual == front + [last];
    }
  }

  lemma {:induction false} NoEntriesViolate(surface: Fingerprint, byOwner: map<string, Expected>, residual: seq<Entry>)
    ensures AllEntryViolations(surface, byOwner, residual) == {} <==>
            forall i :: 0 <= i < |residual| ==> Describes(surface, ExpectedFor(byOwner, residual[i]), residual[i])
  {
    var all := AllEntryViolations(surface, byOwner, residual);
    forall e | e in residual
      ensures EntryViolations(surface, ExpectedFor(byOwner, e), e) <= all
      ensures EntryViolations(surface, ExpectedFor(byOwner, e), e) == {} <==>
              Describes(surface, ExpectedFor(byOwner, e), e)
    {
      NoEntryViolations(surface, ExpectedFor(byOwner, e), e);
      forall v | v in EntryViolations(surface, ExpectedFor(byOwner, e), e)
        ensures v in all
      {
        BreachesExactly(surface, ExpectedFor(byOwner, e), e, v);
        FoundInAnEntry(surface, byOwner, residual, v);
      }
    }
    if v :| v in all {
      FoundInAnEntry(surface, byOwner, residual, v);
      var e :| e in residual && Breaches(surface, ExpectedFor(byOwner, e), e, v);
      BreachesExactly(surface, ExpectedFor(byOwner, e), e, v);
    }
  }

  lemma {:induction false} OwnersMatch(expected: set<string>, actual: set<string>)
    ensures OwnerViolations(expected, actual) == {} <==> expected == actual
  {
    forall o | o in actual && o !in expected
      ensures MissingManifestEntry(o) in OwnerViolations(expected, actual)
    {
      assert o in actual - expected;
    }
    forall o | o in expected && o !in actual
      ensures StaleManifestEntry(o) in OwnerViolations(expected, actual)
    {
      assert o in expected - actual;
    }
  }

  /** All violations together, and when there are none. */
  function GuardViolations(surface: Fingerprint, manifest: seq<Expected>, entries: seq<Entry>): set<Violation> {
    OwnerViolations(ByOwner(manifest).Keys, Owners(Residual(entries)))
    + AllEntryViolations(surface, ByOwner(manifest), Residual(entries))
  }

  lemma {:induction false} CleanMeansMatching(surface: Fingerprint, manifest: seq<Expected>, entries: seq<Entry>)
    ensures GuardViolations(surface, manifest, entries) == {} <==> ManifestMatches(surface, manifest, entries)
  {
    var (byOwner, residual) := (ByOwner(manifest), Residual(entries));
    var (owners, each) := (OwnerViolations(byOwner.Keys, Owners(residual)),
                           AllEntryViolations(surface, byOwner, residual));
    assert owners + each == {} <==> owners == {} && each == {};
    OwnersMatch(byOwner.Keys, Owners(residual));
    NoEntriesViolate(surface, byOwner, residual);
    assert forall i :: 0 <= i < |residual| ==> residual[i].owner in Owners(residual);
    IndexMatches(surface, manifest, entries);
  }

  /** The same by the index of the manifest and the list of residual entries. */
  ghost predicate IndexedMatches(surface: Fingerprint, byOwner: map<string, Expected>, residual: seq<Entry>) {
    && byOwner.Keys == Owners(residual)
    && forall i :: 0 <= i < |residual| ==>
         residual[i].owner in byOwner && Describes(surface, byOwner[residual[i].owner], residual[i])
  }

  lemma {:induction false} IndexMatches(surface: Fingerprint, manifest: seq<Expected>, entries: seq<Entry>)
    ensures IndexedMatches(surface, ByOwner(manifest), Residual(entries))
            <==> ManifestMatches(surface, manifest, entries)
  {
    if IndexedMatches(surface, ByOwner(manifest), Residual(entries)) {
      IndexToManifest(surface, manifest, entries);
    }
    if ManifestMatches(surface, manifest, entries) {
      ManifestToIndex(surface, manifest, entries);
    }
  }

  lemma {:induction false} IndexToManifest(surface: Fingerprint, manifest: seq<Expected>, entries: seq<Entry>)
    requires IndexedMatches(surface, ByOwner(manifest), Residual(entries))
    ensures ManifestMatches(surface, manifest, entries)
  {
    var (byOwner, residual) := (ByOwner(manifest), Residual(entries));
    forall entry | entry in entries && IsResidual(entry)
      ensures exists j :: Decides(manifest, j, entry.owner) && Describes(surface, manifest[j], entry)
    {
      ResidualExactly(entries, entry);
      var k :| 0 <= k < |residual| && residual[k] == entry;
      ByOwnerExactly(manifest, entry.owner);
    }
    forall expected | expected in manifest
      ensures exists entry :: entry in entries && IsResidual(entry) && IsOwner(expected, entry.owner)
    {
      var owner := OwnerKey(expected);
      ByOwnerExactly(manifest, owner);
      assert IsOwner(expected, owner) && owner in Owners(residual);
      var k :| 0 <= k < |residual| && residual[k].owner == owner;
      ResidualExactly(entries, residual[k]);
    }
  }

  lemma {:induction false} DecidedByIndex(surface: Fingerprint, manifest: seq<Expected>, entries: seq<Entry>,
        entry: Entry)
    requires ManifestMatches(surface, manifest, entries) && entry in entries && IsResidual(entry)
    ensures var byOwner := ByOwner(manifest);
            entry.owner in byOwner && Describes(surface, byOwner[entry.owner], entry)
  {
    ByOwnerExactly(manifest, entry.owner);
  }

  lemma {:induction false} NoOwnerLeft(surface: Fingerprint, manifest: seq<Expected>, entries: seq<Entry>,
        owner: string)
    requires ManifestMatches(surface, manifest, entries) && owner in ByOwner(manifest)
    ensures owner in Owners(Residual(entries))
  {
    ByOwnerExactly(manifest, owner);
    var j :| 0 <= j < |manifest| && IsOwner(manifest[j], owner);
    assert manifest[j] in manifest;
    var entry :| entry in entries && IsResidual(entry) && IsOwner(manifest[j], entry.owner);
    ResidualExactly(entries, entry);
  }

  lemma {:induction false} ManifestToIndex(surface: Fingerprint, manifest: seq<Expected>, entries: seq<Entry>)
    requires ManifestMatches(surface, manifest, entries)
    ensures IndexedMatches(surface, ByOwner(manifest), Residual(entries))
  {
    var (byOwner, residual) := (ByOwner(manifest), Residual(entries));
    forall k | 0 <= k < |residual|
      ensures residual[k].owner in byOwner && Describes(surface, byOwner[residual[k].owner], residual[k])
    {
      ResidualExactly(entries, residual[k]);
      DecidedByIndex(surface, manifest, entries, residual[k]);
    }
    forall owner | owner in byOwner
      ensures owner in Owners(residual)
    {
      NoOwnerLeft(surface, manifest, entries, owner);
    }
  }


  /** What the manifest expects of an owner: its last entry, or nothing at all. */
  ghost predicate Expects(manifest: seq<Expected>, owner: string, expected: Expected) {
    if forall e :: e in manifest ==> !IsOwner(e, owner) then
      expected == Expected(None, "", "", "", "", "", [], [], [])
    else exists j :: Decides(manifest, j, owner) && expected == manifest[j]
  }

  lemma {:induction false} ExpectsExactly(manifest: seq<Expected>, entry: Entry, expected: Expected)
    ensures Expects(manifest, entry.owner, expected) <==> expected == ExpectedFor(ByOwner(manifest), entry)
  {
    ByOwnerExactly(manifest, entry.owner);
    if entry.owner in ByOwner(manifest) {
      var j :| Decides(manifest, j, entry.owner) && manifest[j] == ByOwner(manifest)[entry.owner];
      assert manifest[j] in manifest;
    }
  }

  ghost predicate IsExpectedOwner(manifest: seq<Expected>, owner: string) {
    exists e :: e in manifest && IsOwner(e, owner)
  }

  ghost predicate IsResidualOwner(entries: seq<Entry>, owner: string) {
    exists e :: e in entries && IsResidual(e) && e.owner == owner
  }

  ghost predicate IsViolation(surface: Fingerprint, manifest: seq<Expected>, entries: seq<Entry>, v: Violation) {
    match v
    case MissingManifestEntry(owner) => IsResidualOwner(entries, owner) && !IsExpectedOwner(manifest, owner)
    case StaleManifestEntry(owner) => IsExpectedOwner(manifest, owner) && !IsResidualOwner(entries, owner)
    case _ =>
      exists e, expected ::
        e in entries && IsResidual(e) && Expects(manifest, e.owner, expected) && Breaches(surface, expected, e, v)
  }

  lemma {:induction false} OwnersExactlyThose(manifest: seq<Expected>, entries: seq<Entry>, owner: string)
    ensures owner in ByOwner(manifest) <==> IsExpectedOwner(manifest, owner)
    ensures owner in Owners(Residual(entries)) <==> IsResidualOwner(entries, owner)
  {
    ByOwnerExactly(manifest, owner);
    if e :| e in manifest && IsOwner(e, owner) {
      var j :| 0 <= j < |manifest| && manifest[j] == e;
      assert IsOwner(manifest[j], owner);
    }
    var residual := Residual(entries);
    forall e
      ensures e in residual <==> e in entries && IsResidual(e)
    {
      ResidualExactly(entries, e);
    }
    assert owner in Owners(residual) ==> exists e :: e in residual && e.owner == owner;
  }

  /** The guard finds exactly the violations there are. */
  lemma {:induction false} ViolationsExactly(surface: Fingerprint, manifest: seq<Expected>, entries: seq<Entry>,
        v: Violation)
    ensures v in GuardViolations(surface, manifest, entries) <==> IsViolation(surface, manifest, entries, v)
  {
    var (byOwner, residual) := (ByOwner(manifest), Residual(entries));
    FoundInAnEntry(surface, byOwner, residual, v);
    match v
    case MissingManifestEntry(owner) => OwnersExactlyThose(manifest, entries, owner);
    case StaleManifestEntry(owner) => OwnersExactlyThose(manifest, entries, owner);
    case _ =>
      forall e
        ensures e in residual <==> e in entries && IsResidual(e)
        ensures forall expected :: Expects(manifest, e.owner, expected) <==> expected == ExpectedFor(byOwner, e)
      {
        ResidualExactly(entries, e);
        forall expected
          ensures Expects(manifest, e.owner, expected) <==> expected == ExpectedFor(byOwner, e)
        {
          ExpectsExactly(manifest, e, expected);
        }
      }
  }

  /** The first loop of the guard: the manifest indexed by owner. */
  method IndexByOwner(manifest: seq<Expected>) returns (byOwner: map<string, Expected>)
    ensures byOwner == ByOwner(manifest)
  {
    byOwner := map[];
    for i := 0 to |manifest|
      invariant byOwner == ByOwner(manifest[..i])
    {
      assert manifest[..i + 1][..i] == manifest[..i];
      byOwner := byOwner[OwnerKey(manifest[i]) := manifest[i]];
    }
    assert manifest[..|manifest|] == manifest;
  }

  /** The second loop of the guard: each residual entry against its expectation. */
  method CheckEntries(surface: Fingerprint, byOwner: map<string, Expected>, residual: seq<Entry>,
                      owners: set<Violation>)
    returns (violations: set<Violation>)
    ensures violations == owners + AllEntryViolations(surface, byOwner, residual)
  {
    violations := owners;
    for i := 0 to |residual|
      invariant violations == owners + AllEntryViolations(surface, byOwner, residual[..i])
    {
      assert residual[..i + 1][..i] == residual[..i];
      var found := EntryViolations(surface, ExpectedFor(byOwner, residual[i]), residual[i]);
      assert AllEntryViolations(surface, byOwner, residual[..i + 1])
        == AllEntryViolations(surface, byOwner, residual[..i]) + found;
      violations := violations + found;
    }
    assert residual[..|residual|] == residual;
  }

  /** `_residual_boundary_guard`: no violation exactly when the manifest matches the residual entries. */
  method ResidualBoundaryGuard(surface: Fingerprint, manifest: seq<Expected>,
        entries: seq<Entry>) returns (violations: set<Violation>)
    ensures violations == {} <==> ManifestMatches(surface, manifest, entries)
    ensures forall v :: v in violations <==> IsViolation(surface, manifest, entries, v)
    ensures violations == GuardViolations(surface, manifest, entries)
  {
    var byOwner := IndexByOwner(manifest);
    var residual := Residual(entries);
    violations := CheckEntries(surface, byOwner, residual, OwnerViolations(byOwner.Keys, Owners(residual)));
    CleanMeansMatching(surface, manifest, entries);
    forall v
      ensures v in violations <==> IsViolation(surface, manifest, entries, v)
    {
      ViolationsExactly(surface, manifest, entries, v);
    }
  }

  /**
   What a clean guard implies whatever the manifest says: every residual entry has a file and a
   public surface (so an entry of purely private code can never be clean), and entries that share an
   owner are one and the same boundary.
   */
  lemma {:induction false} CleanGuardImplies(surface: Fingerprint, manifest: seq<Expected>, entries: seq<Entry>,
        a: Entry, b: Entry)
    requires ManifestMatches(surface, manifest, entries)
    requires a in entries && b in entries && IsResidual(a) && IsResidual(b)
    ensures a.existingPaths != [] && surface(Elements(a.existingPaths)) != {}
    ensures a.owner == b.owner ==> a.id == b.id && Elements(a.existingPaths) == Elements(b.existingPaths)
  {
    DecidedByIndex(surface, manifest, entries, a);
    DecidedByIndex(surface, manifest, entries, b);
    var expected := ByOwner(manifest)[a.owner];
    HasSurface(surface, expected, a);
    if a.owner == b.owner {
      SameBoundary(surface, expected, a, b);
    }
  }

  lemma {:induction false} HasSurface(surface: Fingerprint, expected: Expected, entry: Entry)
    requires Describes(surface, expected, entry)
    ensures entry.existingPaths != [] && surface(Elements(entry.existingPaths)) != {}
  {
    CompleteExactly(expected);
    assert expected.existingPaths[0] in entry.existingPaths;
    assert expected.fingerprint[0] in surface(Elements(entry.existingPaths));
  }

  lemma {:induction false} SameBoundary(surface: Fingerprint, expected: Expected, a: Entry, b: Entry)
    requires Describes(surface, expected, a) && Describes(surface, expected, b)
    ensures a.id == b.id && Elements(a.existingPaths) == Elements(b.existingPaths)
  {
    assert forall p :: p in Elements(a.existingPaths) <==> p in expected.existingPaths;
    assert forall p :: p in Elements(b.existingPaths) <==> p in expected.existingPaths;
  }

  // ----- ownership of backend/app files

  predicate InApp(path: string) {
    "backend/app/" <= path
  }

  /** `_untracked_backend_app_files`. */
  function Untracked(files: seq<string>, entries: seq<Entry>): set<string> {
    set f | f in files && !exists i :: 0 <= i < |entries| && f in entries[i].existingPaths && InApp(f)
  }

  /** The ids of the entries that list a file, in the order of the entries. */
  function OwnersOf(entries: seq<Entry>, path: string): seq<string> {
    if entries == [] then []
    else
      var last := entries[|entries| - 1];
      OwnersOf(entries[..|entries| - 1], path) + (if path in last.existingPaths then [last.id] else [])
  }

  ghost predicate Owns(entries: seq<Entry>, path: string, i: int) {
    0 <= i < |entries| && path in entries[i].existingPaths
  }

  /** The ids are those of the entries that list the path, at these indices, in the order of the entries. */
  ghost predicate AreOwners(entries: seq<Entry>, path: string, indices: seq<int>, ids: seq<string>) {
    && |ids| == |indices|
    && (forall a, b :: 0 <= a < b < |indices| ==> indices[a] < indices[b])
    && (forall a :: 0 <= a < |indices| ==> Owns(entries, path, indices[a]) && ids[a] == entries[indices[a]].id)
    && (forall i :: Owns(entries, path, i) ==> i in indices)
  }

  lemma {:induction false} OwnersExactly(entries: seq<Entry>, path: string) returns (indices: seq<int>)
    ensures AreOwners(entries, path, indices, OwnersOf(entries, path))
  {
    indices := [];
    if entries != [] {
      var (front, last) := (entries[..|entries| - 1], |entries| - 1);
      var before := OwnersExactly(front, path);
      OneMoreOwner(entries, path, before, OwnersOf(front, path));
      if path in entries[last].existingPaths {
        indices := before + [last];
      } else {
        indices := before;
        assert OwnersOf(entries, path) == OwnersOf(front, path);
      }
    }
  }

  lemma {:induction false} OneMoreOwner(entries: seq<Entry>, path: string, before: seq<int>, ids: seq<string>)
    requires entries != [] && AreOwners(entries[..|entries| - 1], path, before, ids)
    ensures var last := |entries| - 1;
            if path in entries[last].existingPaths
            then AreOwners(entries, path, before + [last], ids + [entries[last].id])
            else AreOwners(entries, path, before, ids)
  {
    var (front, last) := (entries[..|entries| - 1], |entries| - 1);
    forall a | 0 <= a < |before|
      ensures before[a] < last && Owns(entries, path, before[a]) && ids[a] == entries[before[a]].id
    {
      assert Owns(front, path, before[a]);
    }
    forall i | Owns(entries, path, i)
      ensures i == last || i in before
    {
      assert i < last ==> Owns(front, path, i);
    }
  }

  ghost predicate OwnedTwice(entries: seq<Entry>, path: string) {
    exists i, j :: i < j && Owns(entries, path, i) && Owns(entries, path, j)
  }

  predicate Overlaps(entries: seq<Entry>, path: string) {
    InApp(path) && |OwnersOf(entries, path)| > 1
  }

  lemma {:induction false} OverlapsExactly(entries: seq<Entry>, path: string)
    ensures Overlaps(entries, path) <==>
            "backend/app/" <= path && OwnedTwice(entries, path)
  {
    var indices := OwnersExactly(entries, path);
    if |indices| > 1 {
      assert indices[0] in indices && indices[1] in indices;
    }
    if OwnedTwice(entries, path) {
      var i, j :| i < j && Owns(entries, path, i) && Owns(entries, path, j);
      assert i in indices && j in indices;
    }
  }

  function InAppAmong(paths: seq<string>): set<string> {
    set p | p in paths && InApp(p)
  }

  /** `more` is `before` with an id appended for each of the files. */
  ghost predicate Adds(before: map<string, seq<string>>, more: map<string, seq<string>>, files: set<string>,
                       id: string) {
    && more.Keys == before.Keys + files
    && forall p :: p in more ==> more[p] == (if p in before then before[p] else []) + (if p in files then [id] else [])
  }

  /** `owners.setdefault(path, []).append(id)`. */
  function AppendOwner(owners: map<string, seq<string>>, path: string, id: string): map<string, seq<string>> {
    owners[path := (if path in owners then owners[path] else []) + [id]]
  }

  lemma {:induction false} AddsOneMore(before: map<string, seq<string>>, more: map<string, seq<string>>,
        files: set<string>, path: string, id: string)
    requires Adds(before, more, files, id) && path !in files
    ensures Adds(before, AppendOwner(more, path, id), files + {path}, id)
  {
  }

  /** One entry adds its id to each of its files. */
  method AddOwner(owners: map<string, seq<string>>, entry: Entry) returns (more: map<string, seq<string>>)
    requires NoRepeats(entry.existingPaths)
    ensures Adds(owners, more, InAppAmong(entry.existingPaths), entry.id)
  {
    more := owners;
    var paths := entry.existingPaths;
    for i := 0 to |paths|
      invariant Adds(owners, more, InAppAmong(paths[..i]), entry.id)
    {
      assert paths[..i + 1] == paths[..i] + [paths[i]];
      assert InAppAmong(paths[..i + 1]) == InAppAmong(paths[..i]) + (if InApp(paths[i]) then {paths[i]} else {});
      if InApp(paths[i]) {
        assert paths[i] !in paths[..i];
        AddsOneMore(owners, more, InAppAmong(paths[..i]), paths[i], entry.id);
        more := AppendOwner(more, paths[i], entry.id);
      }
    }
    assert paths[..|paths|] == paths;
  }

  /** `_overlapping_backend_app_files`: the files listed by more than one entry, with those entries. */
  method OverlappingFiles(entries: seq<Entry>) returns (overlapping: map<string, seq<string>>)
    requires forall i :: 0 <= i < |entries| ==> NoRepeats(entries[i].existingPaths)
    ensures forall p :: p in overlapping <==> "backend/app/" <= p && OwnedTwice(entries, p)
    ensures forall p :: p in overlapping ==> overlapping[p] == OwnersOf(entries, p)
  {
    var owners: map<string, seq<string>> := map[];
    for i := 0 to |entries|
      invariant forall p :: p in owners <==> InApp(p) && OwnersOf(entries[..i], p) != []
      invariant forall p :: p in owners ==> owners[p] == OwnersOf(entries[..i], p)
    {
      assert entries[..i + 1][..i] == entries[..i];
      owners := AddOwner(owners, entries[i]);
      assert forall p :: p in InAppAmong(entries[i].existingPaths) <==> p in entries[i].existingPaths && InApp(p);
    }
    assert entries[..|entries|] == entries;
    overlapping := map p | p in owners && |owners[p]| > 1 :: owners[p];
    forall p
      ensures p in overlapping <==> "backend/app/" <= p && OwnedTwice(entries, p)
    {
      OverlapsExactly(entries, p);
    }
  }

  // ----- the verdicts

  /** What the verdicts are drawn from. */
  datatype Inventory = Inventory(entries: seq<Entry>, untracked: set<string>, overlapping: set<string>,
                                 violations: set<Violation>)

  function Count(entries: seq<Entry>, category: string, severity: Option<string>): nat {
    if entries == [] then 0
    else
      var last := entries[|entries| - 1];
      Count(entries[..|entries| - 1], category, severity)
      + (if last.status == "open" && last.category == category
         && (severity.None? || severity.value == last.severity) then 1 else 0)
  }

  datatype Summary = Summary(unmanaged: nat, highRisk: nat, residual: nat)

  /** `_debt_summary`. */
  function DebtSummary(entries: seq<Entry>): Summary {
    Summary(Count(entries, UNMANAGED, None), Count(entries, UNMANAGED, Some("high")), Count(entries, RESIDUAL, None))
  }

  lemma {:induction false} HighRiskIsUnmanaged(entries: seq<Entry>)
    ensures DebtSummary(entries).highRisk <= DebtSummary(entries).unmanaged
  {
    if entries != [] {
      HighRiskIsUnmanaged(entries[..|entries| - 1]);
    }
  }

  datatype Status = Red | Yellow | Green

  /** `_backend_overall_status`. */
  function OverallStatus(inv: Inventory): Status {
    var summary := DebtSummary(inv.entries);
    if inv.untracked != {} || inv.overlapping != {} || inv.violations != {} then Red
    else if summary.highRisk > 0 then Red
    else if summary.unmanaged > 0 || summary.residual > 0 then Yellow
    else if Count(inv.entries, ACCEPTED_DEBT, None) > 0 then Yellow
    else Green
  }

  datatype Severity = High | Medium | Info

  /** `_structure_001_finding`. */
  function Finding001(summary: Summary, classificationIssues: set<string>, violations: set<Violation>): Severity {
    if classificationIssues != {} || violations != {} then High
    else if summary.highRisk > 0 then High
    else if summary.unmanaged > 0 || summary.residual > 0 then Medium
    else Info
  }

  /** `_structure_008_finding`. */
  function Finding008(summary: Summary, classificationIssues: set<string>, violations: set<Violation>): Severity {
    if classificationIssues != {} || violations != {} then High
    else if summary.unmanaged > 0 || summary.residual > 0 then (if summary.highRisk > 0 then High else Medium)
    else Info
  }

  /** The status and both findings turn bad together, and green means that all three are clean. */
  lemma {:induction false} VerdictsAgree(inv: Inventory)
    ensures var (summary, issues) := (DebtSummary(inv.entries), inv.untracked + inv.overlapping);
            && (OverallStatus(inv) == Red <==> Finding001(summary, issues, inv.violations) == High)
            && (OverallStatus(inv) == Red <==> Finding008(summary, issues, inv.violations) == High)
            && (OverallStatus(inv) == Green ==>
                  Finding001(summary, issues, inv.violations) == Info
                    && Finding008(summary, issues, inv.violations) == Info)
  {
    HighRiskIsUnmanaged(inv.entries);
    assert inv.untracked + inv.overlapping == {} <==> inv.untracked == {} && inv.overlapping == {};
  }

  /** The entry is open and of the category. */
  ghost predicate IsOpen(entry: Entry, category: string) {
    entry.status == "open" && entry.category == category
  }

  ghost predicate AnyOpen(entries: seq<Entry>, category: string) {
    exists e :: e in entries && IsOpen(e, category)
  }

  ghost predicate AnyHighRisk(entries: seq<Entry>) {
    exists e :: e in entries && IsOpen(e, "unmanaged_feature_surface") && e.severity == "high"
  }

  ghost predicate Counts(e: Entry, category: string, severity: Option<string>) {
    IsOpen(e, category) && (severity.Some? ==> e.severity == severity.value)
  }

  lemma {:induction false} CountExactly(entries: seq<Entry>, category: string, severity: Option<string>)
    ensures Count(entries, category, severity) > 0 <==> exists e :: e in entries && Counts(e, category, severity)
  {
    if entries != [] {
      var (front, last) := (entries[..|entries| - 1], entries[|entries| - 1]);
      CountExactly(front, category, severity);
      assert entries == front + [last];
      assert Count([last], category, severity) == 1 <==> Counts(last, category, severity);
      forall e | e in entries && Counts(e, category, severity)
        ensures e == last || e in front
      {
      }
    }
  }

  lemma {:induction false} SummaryExactly(entries: seq<Entry>)
    ensures DebtSummary(entries).highRisk > 0 <==> AnyHighRisk(entries)
    ensures DebtSummary(entries).unmanaged > 0 <==> AnyOpen(entries, "unmanaged_feature_surface")
    ensures DebtSummary(entries).residual > 0 <==> AnyOpen(entries, "residual_legacy_feature_boundary")
    ensures Count(entries, ACCEPTED_DEBT, None) > 0 <==> AnyOpen(entries, "accepted_architectural_debt")
  {
    CountExactly(entries, UNMANAGED, Some("high"));
    CountExactly(entries, UNMANAGED, None);
    CountExactly(entries, RESIDUAL, None);
    CountExactly(entries, ACCEPTED_DEBT, None);
    assert forall e ::
        Counts(e, UNMANAGED, Some("high")) <==> IsOpen(e, "unmanaged_feature_surface") && e.severity == "high";
    assert forall e, category :: Counts(e, category, None) <==> IsOpen(e, category);
  }

  /** A file is not classified once, or the guard found something. */
  ghost predicate IsMisclassified(inv: Inventory) {
    inv.untracked != {} || inv.overlapping != {} || inv.violations != {}
  }

  /**
   The status by the entries themselves: red for a misclassified file, a violation or an open high-risk
   surface, and else green only with no open entry of the three categories of debt.
   */
  lemma {:induction false} StatusExactly(inv: Inventory)
    ensures OverallStatus(inv) == Red <==> IsMisclassified(inv) || AnyHighRisk(inv.entries)
    ensures OverallStatus(inv) == Green <==>
            !IsMisclassified(inv) && !AnyOpen(inv.entries, "unmanaged_feature_surface")
            && !AnyOpen(inv.entries, "residual_legacy_feature_boundary")
            && !AnyOpen(inv.entries, "accepted_architectural_debt")
  {
    SummaryExactly(inv.entries);
  }

  /** Both findings by the entries themselves: they are high, medium and informational together. */
  lemma {:induction false} FindingsExactly(entries: seq<Entry>, issues: set<string>, violations: set<Violation>)
    ensures var summary := DebtSummary(entries);
            var (first, second) := (Finding001(summary, issues, violations), Finding008(summary, issues, violations));
            && first == second
            && (first == High <==> issues != {} || violations != {} || AnyHighRisk(entries))
            && (first == Info <==>
                issues == {} && violations == {} && !AnyOpen(entries, "unmanaged_feature_surface")
                && !AnyOpen(entries, "residual_legacy_feature_boundary"))
  {
    SummaryExactly(entries);
    HighRiskIsUnmanaged(entries);
  }

  /** The inventory `build_debt_inventory` draws up from the files, the entries and the guard. */
  ghost predicate DrawnUp(inv: Inventory, files: seq<string>, surface: Fingerprint, manifest: seq<Expected>) {
    && inv.untracked == Untracked(files, inv.entries)
    && (forall p :: p in inv.overlapping <==> Overlaps(inv.entries, p))
    && inv.violations == GuardViolations(surface, manifest, inv.entries)
  }

  ghost predicate HasOneOwner(entries: seq<Entry>, path: string) {
    exists i :: Owns(entries, path, i) && forall j :: Owns(entries, path, j) ==> j == i
  }

  /** Every file lies under backend/app, and exactly one entry lists it. */
  ghost predicate Classified(files: seq<string>, entries: seq<Entry>) {
    && (forall f :: f in files ==> "backend/app/" <= f && exists i :: Owns(entries, f, i))
    && (forall f :: "backend/app/" <= f ==> !OwnedTwice(entries, f))
  }

  lemma {:induction false} ClassifiedExactly(inv: Inventory, files: seq<string>, surface: Fingerprint,
        manifest: seq<Expected>)
    requires DrawnUp(inv, files, surface, manifest)
    ensures inv.untracked == {} && inv.overlapping == {} <==> Classified(files, inv.entries)
  {
    forall f | f in files
      ensures f !in inv.untracked <==> "backend/app/" <= f && exists i :: Owns(inv.entries, f, i)
    {
      assert forall i :: Owns(inv.entries, f, i) <==>
                         0 <= i < |inv.entries| && f in inv.entries[i].existingPaths;
    }
    forall f
      ensures f in inv.overlapping <==> "backend/app/" <= f && OwnedTwice(inv.entries, f)
    {
      OverlapsExactly(inv.entries, f);
    }
    if f :| f in inv.untracked + inv.overlapping {
      assert f in inv.untracked ==> f in files;
      assert !Classified(files, inv.entries);
    }
  }

  lemma {:induction false} ClassifiedOnce(files: seq<string>, entries: seq<Entry>)
    requires Classified(files, entries)
    ensures forall file :: file in files ==> "backend/app/" <= file && HasOneOwner(entries, file)
  {
    forall file | file in files
      ensures HasOneOwner(entries, file)
    {
      var i :| Owns(entries, file, i);
      assert !OwnedTwice(entries, file);
    }
  }

  /**
   The status is red exactly when a backend/app file does not belong to exactly one entry, the manifest
   does not match the residual entries, or an unmanaged surface of high severity is open.
   */
  lemma {:induction false} RedExactly(inv: Inventory, files: seq<string>, surface: Fingerprint,
        manifest: seq<Expected>)
    requires DrawnUp(inv, files, surface, manifest)
    ensures OverallStatus(inv) == Red <==>
            !Classified(files, inv.entries) || !ManifestMatches(surface, manifest, inv.entries)
            || AnyHighRisk(inv.entries)
  {
    StatusExactly(inv);
    ClassifiedExactly(inv, files, surface, manifest);
    CleanMeansMatching(surface, manifest, inv.entries);
  }

  lemma {:induction false} NotRedMeansOneOwner(inv: Inventory, files: seq<string>, surface: Fingerprint,
      manifest: seq<Expected>)
    requires DrawnUp(inv, files, surface, manifest) && OverallStatus(inv) != Red
    ensures ManifestMatches(surface, manifest, inv.entries)
    ensures forall file :: file in files ==> "backend/app/" <= file && HasOneOwner(inv.entries, file)
  {
    RedExactly(inv, files, surface, manifest);
    ClassifiedOnce(files, inv.entries);
  }
}
