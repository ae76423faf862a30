/**
  The app validator: for each entry of the `apps` directory it checks, in a
  fixed order, that the entry's directory exists, that it holds an
  `app.yaml`, that the file loads as YAML, that the document satisfies the
  app schema, that `logo.png` exists and starts with the PNG signature, and
  that a present `date_added` parses as a date. The runner validates the
  named entries (or every subdirectory) and exits with status 1 if any entry
  reported an error.

  The filesystem and the two foreign libraries (the YAML loader and the
  compiled JSON schema) are replaced by what the validator observes of them:
  `Apps` maps each name under the apps directory to what is there.
 */
module Validate {
  import PngSignature

  datatype Option<T> = None | Some(value: T)

  /** One error reported by the compiled app schema (collecting all errors). */
  datatype Violation = Violation(instancePath: string, message: string)

  /** The `date_added` field of a loaded document, as the date check sees it. */
  datatype DateAdded =
    | Falsy                       // absent, or a falsy value such as null, false, 0 or ""
    | Truthy(parsesAsDate: bool)  // present; whether the host's date parser gives a valid time

  /**
    A loaded `app.yaml` document, represented by what the later checks read
    from it: the violations the compiled schema reports for it, in the
    schema engine's order, and its `date_added` field.
   */
  datatype Document = Document(violations: seq<Violation>, dateAdded: DateAdded)

  /** The outcome of reading and loading `app.yaml`. */
  datatype AppYaml =
    | Unloadable(reason: string)  // the read or the YAML load threw; its error message
    | Loaded(doc: Document)

  /** What exists at `apps/<name>`. */
  datatype Node =
    | PlainFile                   // exists, but is not a directory
    | Directory(appYaml: Option<AppYaml>, logo: Option<seq<bv8>>)

  /** The apps directory: a name absent from the map does not exist. */
  type Apps = map<string, Node>

  /** One finding of the validator, in the order of the stage that produces it. */
  datatype Issue =
    | DirectoryMissing
    | AppYamlMissing
    | InvalidYaml(reason: string)
    | SchemaViolation(violation: Violation)
    | LogoMissing
    | LogoNotPng
    | InvalidDateAdded
  {
    /** The findings after which validation of the entry stops. */
    predicate Stops()
    {
      DirectoryMissing? || AppYamlMissing? || InvalidYaml?
    }

    /** The position of the producing check in the fixed sequence of checks. */
    function Stage(): nat
    {
      match this
      case DirectoryMissing => 0
      case AppYamlMissing => 1
      case InvalidYaml(_) => 2
      case SchemaViolation(_) => 3
      case LogoMissing => 4
      case LogoNotPng => 4
      case InvalidDateAdded => 5
    }
  }

  /** The error string reported for a finding about entry `appDir`. */
  function Message(appDir: string, issue: Issue): string
  {
    match issue
    case DirectoryMissing => "Directory does not exist: " + appDir
    case AppYamlMissing => "Missing app.yaml in " + appDir
    case InvalidYaml(reason) => "Invalid YAML in " + appDir + ": " + reason
    case SchemaViolation(v) => appDir + ": " + v.instancePath + " " + v.message
    case LogoMissing => "Missing logo.png in " + appDir
    case LogoNotPng => "Invalid PNG file in " + appDir + ": logo.png is not a valid PNG"
    case InvalidDateAdded => appDir + ": Invalid date_added format"
  }

  function Messages(appDir: string, issues: seq<Issue>): seq<string>
  {
    seq(|issues|, i requires 0 <= i < |issues| => Message(appDir, issues[i]))
  }

  /** `errors.push(...)`: appends the message of one more finding. */
  function Push(errors: seq<string>, appDir: string, ghost found: seq<Issue>, issue: Issue): (r: seq<string>)
    requires errors == Messages(appDir, found)
    ensures r == Messages(appDir, found + [issue])
  {
    errors + [Message(appDir, issue)]
  }

  // ---------------------------------------------------------------------
  // The checks, stage by stage, as a reference definition
  // ---------------------------------------------------------------------

  /** The document stages 1-3 hand on to the later checks, if they all pass. */
  function LoadedDocument(apps: Apps, appDir: string): Option<Document>
  {
    if appDir in apps && apps[appDir].Directory? && apps[appDir].appYaml.Some?
       && apps[appDir].appYaml.value.Loaded?
    then Some(apps[appDir].appYaml.value.doc)
    else None
  }

  /** The logo file of an existing app directory. */
  function Logo(apps: Apps, appDir: string): Option<seq<bv8>>
  {
    if appDir in apps && apps[appDir].Directory? then apps[appDir].logo else None
  }

  function SchemaIssues(violations: seq<Violation>): seq<Issue>
  {
    seq(|violations|, i requires 0 <= i < |violations| => SchemaViolation(violations[i]))
  }

  function LogoIssues(logo: Option<seq<bv8>>): seq<Issue>
  {
    match logo
    case None => [LogoMissing]
    case Some(buffer) => if PngSignature.HasSignature(buffer) then [] else [LogoNotPng]
  }

  function DateIssues(dateAdded: DateAdded): seq<Issue>
  {
    match dateAdded
    case Falsy => []
    case Truthy(parsesAsDate) => if parsesAsDate then [] else [InvalidDateAdded]
  }

  /** All findings for entry `appDir`, in the order they are reported. */
  function Issues(apps: Apps, appDir: string): seq<Issue>
  {
    if appDir !in apps then [DirectoryMissing]
    else match apps[appDir]
      case PlainFile => [AppYamlMissing]
      case Directory(None, _) => [AppYamlMissing]
      case Directory(Some(Unloadable(reason)), _) => [InvalidYaml(reason)]
      case Directory(Some(Loaded(doc)), logo) =>
        SchemaIssues(doc.violations) + LogoIssues(logo) + DateIssues(doc.dateAdded)
  }

  /** The error list validation of `appDir` returns. */
  function ValidationErrors(apps: Apps, appDir: string): seq<string>
  {
    Messages(appDir, Issues(apps, appDir))
  }

  /** The error strings of the three stopping stages and of the schema stage. */
  lemma ErrorTemplates(apps: Apps, appDir: string)
    ensures appDir !in apps ==>
      ValidationErrors(apps, appDir) == ["Directory does not exist: " + appDir]
    ensures appDir in apps && (apps[appDir].PlainFile? || apps[appDir].appYaml.None?) ==>
      ValidationErrors(apps, appDir) == ["Missing app.yaml in " + appDir]
    ensures (appDir in apps && apps[appDir].Directory? && apps[appDir].appYaml.Some?
             && apps[appDir].appYaml.value.Unloadable?) ==>
      ValidationErrors(apps, appDir) == ["Invalid YAML in " + appDir + ": " + apps[appDir].appYaml.value.reason]
    ensures LoadedDocument(apps, appDir).Some? ==>
      var violations := LoadedDocument(apps, appDir).value.violations;
      var errors := ValidationErrors(apps, appDir);
      |violations| <= |errors| <= |violations| + 2 &&
      forall i :: 0 <= i < |violations| ==>
        errors[i] == appDir + ": " + violations[i].instancePath + " " + violations[i].message
  {
  }

  // ---------------------------------------------------------------------
  // validateApp
  // ---------------------------------------------------------------------

  /**
    Validates one entry, growing the error list check by check and
    returning early when a missing directory, a missing `app.yaml` or an
    unloadable `app.yaml` makes the later checks meaningless.
   */
  method ValidateApp(apps: Apps, appDir: string) returns (errors: seq<string>)
    ensures errors == ValidationErrors(apps, appDir)
    ensures appDir !in apps ==> errors == ["Directory does not exist: " + appDir]
    ensures appDir in apps && (apps[appDir].PlainFile? || apps[appDir].appYaml.None?) ==>
      errors == ["Missing app.yaml in " + appDir]
    ensures (appDir in apps && apps[appDir].Directory? && apps[appDir].appYaml.Some?
             && apps[appDir].appYaml.value.Unloadable?) ==>
      errors == ["Invalid YAML in " + appDir + ": " + apps[appDir].appYaml.value.reason]
    ensures LoadedDocument(apps, appDir).Some? ==>
      var violations := LoadedDocument(apps, appDir).value.violations;
      |violations| <= |errors| <= |violations| + 2 &&
      forall i :: 0 <= i < |violations| ==>
        errors[i] == appDir + ": " + violations[i].instancePath + " " + violations[i].message
  {
    errors := [];
    ghost var found: seq<Issue> := [];

    if appDir !in apps {
      errors := Push(errors, appDir, found, DirectoryMissing);
      found := found + [DirectoryMissing];
      ErrorTemplates(apps, appDir);
      return;
    }
    var entry := apps[appDir];

    if entry.PlainFile? || entry.appYaml.None? {
      errors := Push(errors, appDir, found, AppYamlMissing);
      found := found + [AppYamlMissing];
      ErrorTemplates(apps, appDir);
      return;
    }

    var app: Document;
    match entry.appYaml.value {
      case Unloadable(reason) =>
        errors := Push(errors, appDir, found, InvalidYaml(reason));
        found := found + [InvalidYaml(reason)];
        ErrorTemplates(apps, appDir);
      return;
      case Loaded(doc) =>
        app := doc;
    }

    var violations := app.violations;
    if violations != [] {
      for i := 0 to |violations|
        invariant found == SchemaIssues(violations[..i])
        invariant errors == Messages(appDir, found)
      {
        errors := Push(errors, appDir, found, SchemaViolation(violations[i]));
        found := found + [SchemaViolation(violations[i])];
      }
    }
    assert found == SchemaIssues(violations);

    match entry.logo {
      case None =>
        errors := Push(errors, appDir, found, LogoMissing);
        found := found + [LogoMissing];
      case Some(buffer) =>
        if !PngSignature.HasSignature(buffer) {
          errors := Push(errors, appDir, found, LogoNotPng);
          found := found + [LogoNotPng];
        }
    }
    assert found == SchemaIssues(violations) + LogoIssues(entry.logo);

    match app.dateAdded {
      case Falsy =>
      case Truthy(parsesAsDate) =>
        if !parsesAsDate {
          errors := Push(errors, appDir, found, InvalidDateAdded);
          found := found + [InvalidDateAdded];
        }
    }
    assert found == Issues(apps, appDir);
    ErrorTemplates(apps, appDir);
  }

  // ---------------------------------------------------------------------
  // Properties of the staged checks
  // ---------------------------------------------------------------------

  /**
    A missing directory, a missing `app.yaml` and an unloadable `app.yaml`
    each end validation with exactly that one finding; once the document
    has loaded, no finding stops validation.
   */
  lemma StoppingFindingsStandAlone(apps: Apps, appDir: string)
    ensures LoadedDocument(apps, appDir).None? ==>
      |Issues(apps, appDir)| == 1 && Issues(apps, appDir)[0].Stops()
    ensures LoadedDocument(apps, appDir).Some? ==>
      forall i :: 0 <= i < |Issues(apps, appDir)| ==> !Issues(apps, appDir)[i].Stops()
  {
  }

  /**
    What the stopping stages see decides the result on its own: two
    filesystems that agree up to the point where validation stops give the
    same findings, whatever the later stages would have seen.
   */
  lemma StopsBeforeLaterChecks(apps1: Apps, apps2: Apps, appDir: string)
    requires appDir in apps1 <==> appDir in apps2
    requires appDir in apps1 ==>
      (apps1[appDir].PlainFile? || apps1[appDir].appYaml.None?) ==
      (apps2[appDir].PlainFile? || apps2[appDir].appYaml.None?)
    requires (appDir in apps1 && apps1[appDir].Directory? && apps1[appDir].appYaml.Some?
              && apps1[appDir].appYaml.value.Unloadable?) ==>
      apps2[appDir].Directory? && apps2[appDir].appYaml == apps1[appDir].appYaml
    requires LoadedDocument(apps1, appDir).None?
    ensures Issues(apps1, appDir) == Issues(apps2, appDir)
  {
  }

  /**
    Findings appear in the order of the checks: schema violations first,
    then at most one logo finding, then at most one date finding.
   */
  lemma IssuesInStageOrder(apps: Apps, appDir: string)
    ensures forall i, j :: 0 <= i < j < |Issues(apps, appDir)| ==>
      Issues(apps, appDir)[i].Stage() < Issues(apps, appDir)[j].Stage() ||
      (Issues(apps, appDir)[i].SchemaViolation? && Issues(apps, appDir)[j].SchemaViolation?)
  {
  }

  /**
    Once the document has loaded, its k schema violations become the first
    k findings, in the schema engine's order, and the logo and date checks
    add at most one finding each.
   */
  lemma SchemaViolationsFirst(apps: Apps, appDir: string)
    requires LoadedDocument(apps, appDir).Some?
    ensures var doc := LoadedDocument(apps, appDir).value;
      var r := Issues(apps, appDir);
      && |r| == |doc.violations|
                + (if Logo(apps, appDir).Some? && PngSignature.HasSignature(Logo(apps, appDir).value) then 0 else 1)
                + (if doc.dateAdded == Truthy(false) then 1 else 0)
      && (forall i :: 0 <= i < |doc.violations| ==> r[i] == SchemaViolation(doc.violations[i]))
      && (forall i :: |doc.violations| <= i < |r| ==> !r[i].SchemaViolation?)
  {
  }

  /**
    A schema failure never stops the logo and date checks: what follows the
    schema findings depends only on the logo file and `date_added`, not on
    the violations.
   */
  lemma SchemaFailureDoesNotStop(apps1: Apps, apps2: Apps, appDir: string)
    requires LoadedDocument(apps1, appDir).Some? && LoadedDocument(apps2, appDir).Some?
    requires LoadedDocument(apps1, appDir).value.dateAdded == LoadedDocument(apps2, appDir).value.dateAdded
    requires Logo(apps1, appDir) == Logo(apps2, appDir)
    ensures
      var k1, k2 := |LoadedDocument(apps1, appDir).value.violations|, |LoadedDocument(apps2, appDir).value.violations|;
      k1 <= |Issues(apps1, appDir)| && k2 <= |Issues(apps2, appDir)| &&
      Issues(apps1, appDir)[k1..] == Issues(apps2, appDir)[k2..]
  {
  }

  /**
    The logo check: once the document has loaded, "Missing logo.png" is
    reported exactly when the file is absent, "Invalid PNG file" exactly
    when it is present without the signature, and never both.
   */
  lemma LogoVerdict(apps: Apps, appDir: string)
    requires LoadedDocument(apps, appDir).Some?
    ensures LogoMissing in Issues(apps, appDir) <==> Logo(apps, appDir).None?
    ensures LogoNotPng in Issues(apps, appDir) <==>
      Logo(apps, appDir).Some? && !PngSignature.HasSignature(Logo(apps, appDir).value)
    ensures !(LogoMissing in Issues(apps, appDir) && LogoNotPng in Issues(apps, appDir))
  {
  }

  /**
    The date check: "Invalid date_added format" is reported exactly when the
    document loaded and its `date_added` is truthy but not a valid date; an
    absent or falsy `date_added` never causes an error.
   */
  lemma DateVerdict(apps: Apps, appDir: string)
    ensures InvalidDateAdded in Issues(apps, appDir) <==>
      LoadedDocument(apps, appDir).Some? && LoadedDocument(apps, appDir).value.dateAdded == Truthy(false)
  {
  }

  /**
    An entry passes exactly when its `app.yaml` loads, the schema reports
    nothing, the logo carries the PNG signature and `date_added` is absent,
    falsy or a valid date.
   */
  lemma PassesIffAllChecksPass(apps: Apps, appDir: string)
    ensures ValidationErrors(apps, appDir) == [] <==>
      && LoadedDocument(apps, appDir).Some?
      && LoadedDocument(apps, appDir).value.violations == []
      && Logo(apps, appDir).Some? && PngSignature.HasSignature(Logo(apps, appDir).value)
      && LoadedDocument(apps, appDir).value.dateAdded != Truthy(false)
  {
  }

  /**
    An entry with no directory reports only that. With `Run`'s
    postcondition, a run that validates `foo` therefore exits with status 1
    (see `ScenarioRuns`).
   */
  lemma ScenarioMissingDirectory(apps: Apps)
    requires "foo" !in apps
    ensures ValidationErrors(apps, "foo") == ["Directory does not exist: foo"]
  {
    assert "Directory does not exist: " + "foo" == "Directory does not exist: foo";
  }

  /**
    A schema-valid document without `date_added` and a signed logo pass.
    With `Run`'s postcondition, a run that validates only `bar` therefore
    exits with status 0 (see `ScenarioRuns`).
   */
  lemma ScenarioValidApp(rest: seq<bv8>)
    ensures ValidationErrors(
      map["bar" := Directory(Some(Loaded(Document([], Falsy))), Some(PngSignature.Signature + rest))],
      "bar") == []
  {
  }

  /**
    A `date_added` that does not parse is the only error of an otherwise
    valid app. With `Run`'s postcondition, a run that validates `baz`
    therefore exits with status 1 (see `ScenarioRuns`).
   */
  lemma ScenarioBadDate(logo: seq<bv8>)
    requires PngSignature.HasSignature(logo)
    ensures ValidationErrors(
      map["baz" := Directory(Some(Loaded(Document([], Truthy(false)))), Some(logo))],
      "baz") == ["baz: Invalid date_added format"]
  {
    assert "baz" + ": Invalid date_added format" == "baz: Invalid date_added format";
  }

  // ---------------------------------------------------------------------
  // main
  // ---------------------------------------------------------------------

  /** The subdirectories among the names of a directory scan, in scan order. */
  function Subdirectories(apps: Apps, listing: seq<string>): seq<string>
  {
    if listing == [] then []
    else (if listing[0] in apps && apps[listing[0]].Directory? then [listing[0]] else [])
         + Subdirectories(apps, listing[1..])
  }

  /** The entries to validate: the command-line arguments, or else every subdirectory. */
  function EntriesToValidate(apps: Apps, args: seq<string>, listing: seq<string>): seq<string>
  {
    if |args| > 0 then args else Subdirectories(apps, listing)
  }

  predicate Distinct(names: seq<string>)
  {
    forall i, j :: 0 <= i < j < |names| ==> names[i] != names[j]
  }

  /** `sub` is `names` with some elements dropped: what remains keeps its relative order. */
  predicate IsSubsequence(sub: seq<string>, names: seq<string>)
    decreases |names|
  {
    if sub == [] then true
    else if names == [] then false
    else (sub[0] == names[0] && IsSubsequence(sub[1..], names[1..]))
         || IsSubsequence(sub, names[1..])
  }

  /** `listing` is a scan of the apps directory: each of its entries exactly once. */
  predicate IsScanOf(listing: seq<string>, apps: Apps)
  {
    && Distinct(listing)
    && (forall i :: 0 <= i < |listing| ==> listing[i] in apps)
    && (forall name :: name in apps ==> name in listing)
  }

  /** Filtering a scan keeps exactly the directories, in scan order, each once. */
  lemma {:induction false} SubdirectoriesFilter(apps: Apps, listing: seq<string>)
    ensures forall name :: name in Subdirectories(apps, listing) <==>
      name in listing && name in apps && apps[name].Directory?
    ensures IsSubsequence(Subdirectories(apps, listing), listing)
    ensures Distinct(listing) ==> Distinct(Subdirectories(apps, listing))
  {
    if listing != [] {
      SubdirectoriesFilter(apps, listing[1..]);
      var head := if listing[0] in apps && apps[listing[0]].Directory? then [listing[0]] else [];
      var rest := Subdirectories(apps, listing[1..]);
      assert Subdirectories(apps, listing) == head + rest;
      var sub := head + rest;
      if head != [] {
        assert sub[0] == listing[0] && sub[1..] == rest;
        assert IsSubsequence(sub, listing);
      } else if rest != [] {
        assert sub == rest;
        assert IsSubsequence(sub, listing);
      }
      assert forall name :: name in listing <==> name == listing[0] || name in listing[1..];
      if Distinct(listing) {
        assert Distinct(listing[1..]);
        assert listing[0] !in listing[1..];
      }
    }
  }

  /**
    With no arguments, every subdirectory of the apps directory is validated
    exactly once, in scan order.
   */
  lemma EverySubdirectoryOnce(apps: Apps, listing: seq<string>)
    requires IsScanOf(listing, apps)
    ensures forall name :: name in EntriesToValidate(apps, [], listing) <==>
      name in apps && apps[name].Directory?
    ensures IsSubsequence(EntriesToValidate(apps, [], listing), listing)
    ensures Distinct(EntriesToValidate(apps, [], listing))
  {
    SubdirectoriesFilter(apps, listing);
  }

  /**
    Validates each entry once, in order, and yields the error list of each
    (what is printed for it) and the process exit status: 1 if any entry
    reported an error, 0 otherwise.
   */
  method Run(apps: Apps, args: seq<string>, listing: seq<string>)
    returns (reports: seq<seq<string>>, exitCode: int)
    ensures var entries := EntriesToValidate(apps, args, listing);
      |reports| == |entries| &&
      forall i :: 0 <= i < |entries| ==> reports[i] == ValidationErrors(apps, entries[i])
    ensures |args| > 0 ==>
      |reports| == |args| && forall i :: 0 <= i < |args| ==> reports[i] == ValidationErrors(apps, args[i])
    ensures exitCode == 1 <==> exists i :: 0 <= i < |reports| && reports[i] != []
    ensures exitCode == 0 <==> forall i :: 0 <= i < |reports| ==> reports[i] == []
  {
    var entries := EntriesToValidate(apps, args, listing);
    var hasErrors := false;
    reports := [];
    for k := 0 to |entries|
      invariant |reports| == k
      invariant forall i :: 0 <= i < k ==> reports[i] == ValidationErrors(apps, entries[i])
      invariant hasErrors <==> exists i :: 0 <= i < k && reports[i] != []
    {
      var errors := ValidateApp(apps, entries[k]);
      if |errors| > 0 {
        hasErrors := true;
      }
      reports := reports + [errors];
    }
    exitCode := if hasErrors then 1 else 0;
  }

  /** The exit status is 0 exactly when every validated entry has no finding at all. */
  lemma ExitStatusZeroIffAllPass(apps: Apps, entries: seq<string>, reports: seq<seq<string>>)
    requires |reports| == |entries|
    requires forall i :: 0 <= i < |entries| ==> reports[i] == ValidationErrors(apps, entries[i])
    ensures (forall i :: 0 <= i < |reports| ==> reports[i] == []) <==>
      forall i :: 0 <= i < |entries| ==> Issues(apps, entries[i]) == []
  {
  }

  /** The three example runs: the exit status follows from `Run`'s contract and the scenario lemmas. */
  method ScenarioRuns(rest: seq<bv8>)
  {
    var logo := PngSignature.Signature + rest;
    PngSignature.HasSignatureIffPrefixed(logo);

    var reports, exitCode := Run(map[], ["foo"], []);
    ScenarioMissingDirectory(map[]);
    assert reports[0] != [];
    assert exitCode == 1;

    var bar := map["bar" := Directory(Some(Loaded(Document([], Falsy))), Some(logo))];
    reports, exitCode := Run(bar, ["bar"], []);
    ScenarioValidApp(rest);
    assert exitCode == 0;

    var baz := map["baz" := Directory(Some(Loaded(Document([], Truthy(false)))), Some(logo))];
    reports, exitCode := Run(baz, [], ["baz"]);
    ScenarioBadDate(logo);
    assert Subdirectories(baz, ["baz"]) == ["baz"];
    assert reports[0] != [];
    assert exitCode == 1;
  }
}
