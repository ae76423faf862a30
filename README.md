# App directory validator — Dafny model

This project models the validator script of a catalogue of apps. Each app
lives in its own directory under `apps/`. For one entry, the validator runs
a fixed sequence of checks and collects human-readable error strings:

1. the entry's directory exists;
2. it holds an `app.yaml`;
3. that file can be read and loaded as YAML;
4. the document satisfies the app JSON schema (all violations are collected);
5. `logo.png` exists and begins with the 8-byte PNG signature;
6. a truthy `date_added` parses as a date.

Failures of steps 1–3 end validation with exactly one error. Failures of
steps 4–6 never stop a later step. The runner validates the entries named
on the command line, or else every subdirectory of `apps/` in scan order.
It exits with status 1 if any entry reported an error, and 0 otherwise.

Two modules:

- `PngSignature` (`png_signature.dfy`): the signature constant
  `89 50 4E 47 0D 0A 1A 0A` from section 5.2 of the PNG specification
  (ISO/IEC 15948), and the predicate the logo check applies.
- `Validate` (`validate.dfy`): the observed filesystem, the findings, and
  `validateApp` and `main` as imperative methods. `ValidateApp` grows its
  error list with early returns and a loop over the schema violations. `Run`
  loops over the entries and keeps a `hasErrors` flag. Both are proved
  against a stage-by-stage reference definition, `Issues`, and the
  properties of the checks are lemmas about `Issues`.

How the environment is represented:

- The filesystem is `Apps`, a map from names under `apps/` to what is there.
  A missing key means `existsSync` is false. `PlainFile` is a path that
  exists but is not a directory. For such a path the `app.yaml` lookup
  fails, so it is reported as "Missing app.yaml".
- Reading and loading `app.yaml` (the `js-yaml` library) is an input:
  `Unloadable(reason)` carries the thrown error's message, and
  `Loaded(doc)` carries the document.
- The compiled schema (Ajv with `allErrors` and the format plugin) is a
  foreign engine. A loaded `Document` carries the violations it reports for
  that document, in order. The schema passes exactly when that list is empty.
- `new Date(date_added)` and its validity test are an input bit:
  `Falsy` or `Truthy(parsesAsDate)`.
- The order of the directory scan is an input `listing`. The `isDirectory`
  filter is the `Directory?` test on the map.
- Console output is modelled by the per-entry error lists `Run` returns.
  `process.exit` is modelled by the exit code it returns.

`ScenarioRuns` calls `Run` on the three example entries and checks
their exit statuses (1, 0 and 1) from the contracts alone.

Because every member is deterministic, validating the same unchanged entry
twice gives the same errors: `ValidateApp`'s result is fixed by its
postcondition.

## Model

| member | source | states |
|---|---|---|
| `PngSignature.ShortBufferRejected` | scripts/validate.js:60-61 | a logo shorter than 8 bytes is always reported invalid |
| `PngSignature.HasSignatureBytewise` | scripts/validate.js:60-61 | the logo is accepted iff it has at least 8 bytes and bytes 0..7 equal 89 50 4E 47 0D 0A 1A 0A one by one |
| `PngSignature.HasSignatureIffPrefixed` | scripts/validate.js:60-61 | the accepted buffers are exactly the signature followed by arbitrary bytes |
| `Validate.ValidateApp` | scripts/validate.js:18-75 | the returned errors are the messages of the staged findings; a missing directory gives exactly `["Directory does not exist: " + appDir]`; a missing `app.yaml` gives exactly `["Missing app.yaml in " + appDir]`; an unloadable one gives exactly `["Invalid YAML in " + appDir + ": " + reason]`; after a load, the k schema violations give the first k errors, `appDir + ": " + instancePath + " " + message`, in order, followed by at most two more |
| `Validate.StoppingFindingsStandAlone` | scripts/validate.js:23-43 | when stages 1–3 do not all pass, the result is exactly one stopping finding; after a successful load no finding is a stopping one |
| `Validate.StopsBeforeLaterChecks` | scripts/validate.js:23-43 | once validation stops, nothing the later checks would read (schema verdict, logo, date) changes the result |
| `Validate.IssuesInStageOrder` | scripts/validate.js:46-72 | findings come in check order: schema violations, then at most one logo finding, then at most one date finding |
| `Validate.SchemaViolationsFirst` | scripts/validate.js:46-51 | after a load, there are exactly k + (logo bad ? 1 : 0) + (date bad ? 1 : 0) findings, the first k are the k schema violations in the engine's order, and no later one is a schema finding |
| `Validate.SchemaFailureDoesNotStop` | scripts/validate.js:46-72 | what follows the schema findings depends only on the logo and `date_added`, never on the violations |
| `Validate.LogoVerdict` | scripts/validate.js:55-64 | after a load, "Missing logo.png" is reported iff the file is absent, "Invalid PNG file" iff it is present without the signature, and never both |
| `Validate.DateVerdict` | scripts/validate.js:67-72 | "Invalid date_added format" is reported iff the document loaded and `date_added` is truthy but not a valid date; an absent or falsy `date_added` never causes an error |
| `Validate.PassesIffAllChecksPass` | scripts/validate.js:18-75 | an entry has no errors iff `app.yaml` loads, the schema reports nothing, the logo carries the signature and `date_added` is not an invalid truthy value |
| `Validate.ScenarioMissingDirectory` | scripts/validate.js:23-26 | entry `foo` without a directory gives `["Directory does not exist: foo"]`, so with `Run`'s contract a run over it exits with status 1 |
| `Validate.ScenarioValidApp` | scripts/validate.js:18-75 | a schema-valid document without `date_added` and a logo starting with the signature give no errors, so with `Run`'s contract a run over only that entry exits with status 0 |
| `Validate.ScenarioBadDate` | scripts/validate.js:67-72 | an otherwise valid `baz` whose `date_added` does not parse gives `["baz: Invalid date_added format"]`, so with `Run`'s contract a run over it exits with status 1 |
| `Validate.SubdirectoriesFilter` | scripts/validate.js:83-85 | filtering the scan keeps exactly the listed names that are directories; the result is a subsequence of the listing, so scan order is kept; a duplicate-free listing stays duplicate-free |
| `Validate.EverySubdirectoryOnce` | scripts/validate.js:81-85 | with no arguments, every subdirectory of `apps/` is validated, each exactly once, in scan order, and nothing else |
| `Validate.Run` | scripts/validate.js:77-109 | each entry (the arguments, or else the subdirectories) is validated exactly once, in order, and its report is its error list; with arguments, exactly those are validated, in the given order, each report being that argument's error list; the exit code is 1 iff some entry's error list is non-empty, and 0 iff all are empty |
| `Validate.ExitStatusZeroIffAllPass` | scripts/validate.js:93-108 | the reports are all empty iff every validated entry has no finding at all |

## Left out

- Filesystem access, the YAML loader, the Ajv schema engine and JavaScript date parsing are not modelled. Their results are inputs, as described above.
- The schema file itself (scripts/validate.js:10-16) is not modelled. Each loaded document carries the violations the compiled schema reports for it.
- Path joining and normalisation are not modelled. An argument is looked up as a direct name under `apps/`, so names such as `../x` or `a/b` are not resolved as paths.
- Symbolic links are not modelled. `existsSync` follows them but `Dirent.isDirectory` does not.
- A YAML file that loads to `null` or `undefined` (an empty document) is not modelled. The source then throws an uncaught `TypeError` at `app.date_added` (line 67), after the schema and logo checks. A `Document` is always a loaded value whose `date_added` can be read.
- Unexpected I/O faults are not modelled. Examples: `logo.png` being a directory, or a permission error reading it. The source does not catch them, so they end the whole run.
- The console lines (`Validating …`, the per-error lines with their prefixes, the final summary) are not modelled. Only the error lists and the exit code are.
