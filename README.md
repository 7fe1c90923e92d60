# seamm_datastore: building and importing the datastore

This project models `seamm_datastore/database/build.py` in Dafny. The file holds the two operations that populate a SEAMM datastore.

- `_build_initial` seeds an empty store. It creates the roles `user`, `group manager` and `admin`, an `admin` group and an `admin` user. It also creates a user and a group for the account running the program, and a default project owned by them.
- `import_datastore` walks a projects directory. Each directory directly under it is a project. Each directory directly under a project that holds a `job_data.json` manifest is a job. The walk registers every project and job the store does not hold yet. It returns the newly registered jobs and the newly registered projects, re-read from the store. Its docstring (build.py:79-82) promises the counts `(n_projects, n_jobs)`, but the code (build.py:147) returns the lists `jobs, projects`, in that order. The model follows the code.

The model has these modules:

- `Wrappers` (`wrappers.dfy`): `Option` and `Result`.
- `Manifest` (`manifest.dfy`): reading a manifest. This covers the text-mode read with universal newlines, Python's `str.splitlines`, `"\n".join`, and the legacy-header test (`ExtractJson`). It also holds the round-trip and header lemmas.
- `Filesystem` (`filesystem.dfy`): an immutable snapshot of the directory tree, plus `os.path.join` and `os.path.basename`.
- `Datastore` (`datastore.dfy`): the store as a class. It has sets and maps of roles, groups, users, projects and job identifiers. It also has the two `api` calls, which either insert or report a duplicate (the `ValueError` path), and the project query.
- `Importer` (`importer.dfy`): the walk, stated as a fold over the snapshot (`Import`). `ImportDatastore` and `ImportJobs` are the two nested loops. They are proved to end in exactly the store state and result that `Import` gives.
- `ImportProperties` (`import_properties.dfy`): what a run does, described without the walk. It covers which manifests are read, which jobs and projects come back, when the run aborts, what a second run does, and that non-candidate entries are ignored.
- `Initializer` (`initializer.dfy`): `BuildInitial`, with its role loop and its commit points.

I/O is replaced by inputs:

- The directory listing, `isdir`, ownership and file contents come from the snapshot. Listing order is the order of the snapshot's sequences.
- `json.loads` is a function parameter `loads`. It returns `None` where Python would raise.
- `parse_job_data` followed by `add_job`'s use of the job identity is a function parameter `idOf` from parsed data to the job identifier.
- The host identity lookup is a `HostLookup` value. It holds either the home directory's owner and group, or "ownership unsupported" together with the `USERNAME` variable if it is set.

Three behaviours of the code may be surprising. The model follows the code in each:

- A project's name is recorded only when `add_project` succeeds (build.py:110-111). A project that already existed is not returned, although one might expect every project under the location to be. After a completed run, a second run returns no projects (`ImportIdempotent`).
- Only `ValueError` from the two add calls is caught. An empty manifest, or an empty first line, raises `IndexError` at `lines[0][0]`. A manifest that `json.loads` rejects raises too. Either one aborts the whole import rather than skipping that job (`ImportAbortsExactly`). The projects and jobs added before the failing manifest stay in the store. `ImportDatastore` ends in the state of the walk `Import` stopped at that manifest, and `ImportOnlyAdds` shows that no run, aborted or not, removes anything or changes an existing record.
- `_build_initial` creates the host group even when it is named `admin`, although one might expect that group to be skipped. Under unique group names this makes the last commit fail (`EmptyStoreSeeds`).

The model assumes that role names, group names, usernames and project names are unique, and so are job identifiers. The table definitions are not part of this model.

## Model

| member | source | states |
|---|---|---|
| Manifest.SplitLines | seamm_datastore/database/build.py:127 | every line is free of line breaks; there are no lines exactly when the text is empty; the first line is empty exactly when the text starts with a line break, and otherwise starts with the text's first character |
| Manifest.UniversalNewlines | seamm_datastore/database/build.py:126-127 | reading in text mode leaves no '\r' and never lengthens the text |
| Manifest.SplitJoin | seamm_datastore/database/build.py:127-130 | splitting the "\n"-join of break-free lines gives those lines back, when the last line is not empty |
| Manifest.JoinSplit | seamm_datastore/database/build.py:127-130 | "\n"-joining the split of text whose only break is '\n' and that has no final break gives the text back |
| Manifest.ExtractFailsExactly | seamm_datastore/database/build.py:129 | the first-character test fails (IndexError) exactly on an empty file or a file whose first character is a line break; it fails on `lines[0]` exactly when the file is empty |
| Manifest.HeaderFreeUnchanged | seamm_datastore/database/build.py:129-130 | a manifest that starts with '{' and is in normal form reaches the JSON parser unchanged |
| Manifest.LegacyHeaderDropped | seamm_datastore/database/build.py:131-132 | after one non-empty header line not starting with '{', the parser gets the body's lines rejoined; for a body starting with '{' this is exactly what the body alone gives |
| Manifest.ExtractJson | seamm_datastore/database/build.py:127-132 | when the first-line test passes, the text handed to the parser has '\n' as its only line break and is no longer than the file |
| Manifest.JoinLength | seamm_datastore/database/build.py:130-132 | the "\n"-join of a non-empty list of lines is as long as the lines together plus one separator between each pair |
| Manifest.JoinBreaks | seamm_datastore/database/build.py:130-132 | "\n"-joining lines that hold no line break gives text whose only line break is '\n' |
| Manifest.TextModeInvisible | seamm_datastore/database/build.py:126-132 | the universal-newline translation of the read does not change the text handed to the parser |
| Filesystem.PathJoinShape | seamm_datastore/database/build.py:92 | the joined path ends with the entry's name; it starts with the directory unless the name is absolute, and is then the name itself |
| Filesystem.BasenameIsLastPart | seamm_datastore/database/build.py:98 | the base name is the end of the path, and is either the whole path or follows a '/' |
| Filesystem.BasenameOfJoin | seamm_datastore/database/build.py:92-98 | the base name of the joined project path is the directory entry's own name |
| Datastore.Store.AddProject | seamm_datastore/database/build.py:109-115 | creates the project record (owner, group, path) exactly when no project has that name, and otherwise reports a duplicate and changes nothing |
| Datastore.Store.AddJob | seamm_datastore/database/build.py:136-142 | creates the job exactly when its identifier is not stored, and otherwise reports a duplicate; afterwards the identifier is stored |
| Datastore.ProjectsNamed | seamm_datastore/database/build.py:145 | returns exactly the stored projects whose names are in the given set, with their records |
| Importer.DecodeManifestMeaning | seamm_datastore/database/build.py:126-134 | a failed decode names its manifest; the IndexError is raised exactly on an empty file or one whose first character is a line break; otherwise the job is what parsing the stripped raw text gives, whether or not the read translated its newlines, and the decode fails exactly when that parse fails |
| Importer.RegisterProjectEffect | seamm_datastore/database/build.py:109-115 | registering a project folder keeps the jobs and every stored record and makes the folder's name stored; the name is appended to the project names exactly when it was not stored, and the new record has the folder's owner, group and joined path |
| Importer.JobStepEffect | seamm_datastore/database/build.py:120-142 | one entry of a project folder leaves projects and names alone; it raises exactly when it is a job folder whose manifest does not decode; otherwise the manifest's identifier becomes stored and is appended to the jobs exactly when it was not stored before; an entry that is not a job folder changes nothing |
| Importer.ImportDatastore | seamm_datastore/database/build.py:70-147 | the nested loops leave the store in the state of the fold `Import` and return its outcome: the collected jobs and the recorded projects re-read from the store, or the exception that aborted the walk |
| Importer.ImportJobs | seamm_datastore/database/build.py:117-142 | the inner loop over one project folder ends in the state of the fold `ScanJobs` |
| ImportProperties.ScanJobsMeaning | seamm_datastore/database/build.py:117-142 | walking a project folder leaves projects alone; the jobs collected are the identifiers of its manifests that were not stored, in order, and all of them end up stored; otherwise the first undecodable manifest aborts the walk |
| ImportProperties.ScanProjectsMeaning | seamm_datastore/database/build.py:91-142 | walking the root keeps stored project records; when every manifest decodes, the jobs and the project names collected are exactly the candidates not stored before, in traversal order, and all of them end up stored; otherwise the first undecodable manifest's error ends the walk |
| ImportProperties.ImportAbortsExactly | seamm_datastore/database/build.py:125-134 | a run aborts if and only if some manifest in a job folder of a project folder cannot be decoded, and then with the first such error |
| ImportProperties.ImportOnlyAdds | seamm_datastore/database/build.py:109-142 | whether or not a run aborts, every stored project keeps its record and every stored job stays |
| ImportProperties.AbortIndependentOfStore | seamm_datastore/database/build.py:125-134 | whether a run aborts, and with which error, does not depend on what the store already holds |
| ImportProperties.ImportedJobs | seamm_datastore/database/build.py:117-142 | a completed run returns the identifiers of all manifests in job folders, including those of already-stored projects, minus those already stored, without repeats, in traversal order; there are at most as many as there are manifests; all of them end up stored |
| ImportProperties.ImportedProjects | seamm_datastore/database/build.py:98-147 | a completed run returns exactly the project folders whose names were not stored before, each with the owner, group and path of a folder of that name; every folder name ends up stored and existing records are kept |
| ImportProperties.RecordsFromFolders | seamm_datastore/database/build.py:98-111 | every project a walk adds carries the owner, group and joined path of a project folder with that name |
| ImportProperties.RecordedNamesReturned | seamm_datastore/database/build.py:109-147 | after a completed run, the re-queried projects are exactly the names recorded during the run, and none of those names was stored before it |
| ImportProperties.ImportIdempotent | seamm_datastore/database/build.py:109-142 | after a completed run, a second run over the same tree leaves the store as it is and returns no jobs and no projects |
| ImportProperties.PartialPriorImport | seamm_datastore/database/build.py:109-142 | when none of the manifests' distinct identifiers is stored, a run returns all of them in traversal order, even for projects that already existed |
| ImportProperties.NonJobEntryIgnored | seamm_datastore/database/build.py:120-125 | an entry of a project folder that is not a directory holding `job_data.json` changes neither the result nor the store, and raises nothing |
| ImportProperties.NonDirectoryIgnored | seamm_datastore/database/build.py:97 | an entry of the root location that is not a directory changes neither the result nor the store |
| ImportProperties.LegacyHeaderDecodesAlike | seamm_datastore/database/build.py:126-134 | a manifest with one legacy header line decodes to the same job, or the same error, as its body alone |
| Initializer.BuildInitial | seamm_datastore/database/build.py:14-67 | succeeds exactly when no seed role, no `admin` group and no clashing user, group or project exists and the host identity resolves. On success: exactly the roles `user`, `group manager`, `admin` are added; the groups `admin` and the host group are added; user `admin` (password `admin`) and the host user (password `default`) both get the admin role; `admin` belongs to both groups; the default project is owned by the host user and group, which is `staff` on the fallback path. On failure, the error is fixed by the first failing step. If a seed role is stored, the error is `RoleExists` for the first stored role in `user`, `group manager`, `admin` order, and only the roles before it are added. Otherwise, if an `admin` group exists, the error is `AdminGroupExists` and the three roles stay. Otherwise, if `USERNAME` is missing, the error is `UsernameVariableMissing` (the `KeyError`), and the roles and the admin group stay. Otherwise the error is `SeedConflict`, with the same state. No failure stores a user or a project |
| Initializer.EmptyStoreSeeds | seamm_datastore/database/build.py:20-67 | on an empty store, seeding succeeds exactly when the host identity resolves to a user and a group that are both not named `admin` |

## Left out

- `seamm_datastore/seamm_import.py` is not part of this model. It does argument parsing, password prompting and printing.
- The SQLAlchemy session (`session.add`, flushing, rollback after a failed commit) and the ORM objects are left out. The store is sets and maps. Each commit in `_build_initial` is all-or-nothing. Each successful `add_project`/`add_job` is in the store at once.
- `api.add_project`, `api.add_job` and `parse_job_data` are not part of this model. They are represented by their observable contract: insert, or report a duplicate by name or identifier. The job that `add_job` returns is represented by its identifier, and the `as_json` flag is not modelled.
- `json.loads` decoding is an opaque parameter. What counts as valid JSON is not modelled.
- Real filesystem access is left out: the snapshot stands in for it. Errors raised while listing or reading are not modelled. These include permission errors, a `job_data.json` that is a directory, and bytes that do not decode as text.
- Initializer.BuildInitial: `Path.home()` failing for any reason other than `NotImplementedError` is not modelled. Nor is `item.owner()`/`item.group()` at seamm_datastore/database/build.py:39-40 raising `KeyError` for a uid or gid with no name: that exception escapes `_build_initial`, and a `HostLookup` cannot represent it.
- Passwords are only the literal strings `admin` and `default`. No credential handling is modelled.
- ImportProperties.ImportAbortsExactly: the "if and only if" treats as total three steps that can raise in Python: `Path(...).owner()`/`.group()` at build.py:100-101, `parse_job_data` at build.py:134, and exceptions other than `ValueError` from `api.add_project`/`api.add_job`. Each of these would also abort the real import. The model does not represent them.
- The errors `ManifestIndexError` and `JsonDecodeError` carry the manifest's path so that the model can say which manifest failed. The Python exceptions do not carry it.
