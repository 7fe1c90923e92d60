/**
 * `import_datastore`: walk the project folders directly under a location and
 * the job folders directly under each project, register every project and
 * job the store does not hold yet, and report what was newly registered.
 *
 * `Import` states the walk as a fold over the snapshot; `ImportDatastore` is
 * the loop itself, proved to end in the state `Import` describes. The lemmas
 * then describe `Import` without reference to the walk: which entries are
 * candidates, which jobs and projects come out, when the walk aborts.
 */
module Importer {
  import opened Wrappers
  import opened Manifest
  import opened Filesystem
  import opened Datastore

  /** The exceptions that escape `import_datastore`; each names the manifest that raised it. */
  datatype ImportError =
    | ManifestIndexError(manifest: string)  // `lines[0][0]` on an empty file or empty first line
    | JsonDecodeError(manifest: string)     // `json.loads` rejected the extracted text

  /** What `import_datastore` returns, or the exception that ended it. */
  datatype ImportResult =
    | Imported(jobs: seq<JobId>, projects: map<string, ProjectRecord>)
    | Aborted(error: ImportError)

  /** The state of the walk: the store, the `jobs` and `project_names` lists, and an escaped exception. */
  datatype Scan = Scan(db: Db, jobs: seq<JobId>, names: seq<string>, failure: Option<ImportError>)

  /** A manifest found in a job folder: the path of `job_data.json` and its raw text. */
  datatype Candidate = Candidate(path: string, raw: string)

  /** A project-folder entry is a job only if it is a directory holding `job_data.json`. */
  predicate IsJobFolder(e: JobEntry) {
    e.isDir && e.manifest.Some?
  }

  function ManifestPath(projectPath: string, e: JobEntry): string {
    PathJoin(PathJoin(projectPath, e.name), ManifestName)
  }

  /**
   * Read, strip and parse one manifest, then take the job's identifier from
   * the parsed data. `loads` stands for `json.loads` (None when it raises) and
   * `idOf` for the identifier `parse_job_data` and `add_job` derive from it.
   */
  function DecodeManifest<J>(c: Candidate, loads: string -> Option<J>, idOf: J -> JobId): Result<JobId, ImportError> {
    match ExtractJson(UniversalNewlines(c.raw))
    case Err(_) => Err(ManifestIndexError(c.path))
    case Ok(text) =>
      match loads(text)
      case None => Err(JsonDecodeError(c.path))
      case Some(data) => Ok(idOf(data))
  }

  /**
   * Decoding a manifest: an error names the manifest; the IndexError is raised
   * exactly on an empty file or one whose first character is a line break;
   * otherwise the job comes from parsing what the raw file gives, whether or
   * not the read translated its newlines.
   */
  lemma DecodeManifestMeaning<J>(c: Candidate, loads: string -> Option<J>, idOf: J -> JobId)
    ensures var r := DecodeManifest(c, loads, idOf);
      && (r.Err? ==> r.error.manifest == c.path)
      && (r == Err(ManifestIndexError(c.path)) <==> c.raw == [] || IsLineBreak(c.raw[0]))
      && (r.Ok? <==> ExtractJson(c.raw).Ok? && loads(ExtractJson(c.raw).value).Some?)
      && (r.Ok? ==> r.value == idOf(loads(ExtractJson(c.raw).value).value))
  {
    TextModeInvisible(c.raw);
    ExtractFailsExactly(c.raw);
  }

  // ---------------------------------------------------------------------------
  // The walk, one entry at a time

  /** One entry of a project folder. */
  function JobStep<J>(s: Scan, projectPath: string, e: JobEntry, loads: string -> Option<J>, idOf: J -> JobId): Scan {
    if !IsJobFolder(e) then s
    else
      match DecodeManifest(Candidate(ManifestPath(projectPath, e), e.manifest.value), loads, idOf)
      case Err(err) => s.(failure := Some(err))
      case Ok(id) =>
        if id in s.db.jobIds then s
        else s.(db := s.db.(jobIds := s.db.jobIds + {id}), jobs := s.jobs + [id])
  }

  /**
   * One entry of a project folder leaves projects and names alone. A job
   * folder whose manifest does not decode raises. Otherwise the manifest's
   * identifier becomes stored, and it is appended to the jobs exactly when it
   * was not stored before. Any other entry changes nothing.
   */
  lemma JobStepEffect<J>(s: Scan, projectPath: string, e: JobEntry, loads: string -> Option<J>, idOf: J -> JobId)
    requires s.failure.None?
    ensures var r := JobStep(s, projectPath, e, loads, idOf);
      && r.db.projects == s.db.projects && r.names == s.names
      && (!IsJobFolder(e) ==> r == s)
      && (r.failure.Some? <==>
          IsJobFolder(e) && DecodeManifest(Candidate(ManifestPath(projectPath, e), e.manifest.value), loads, idOf).Err?)
      && (IsJobFolder(e) ==>
            var d := DecodeManifest(Candidate(ManifestPath(projectPath, e), e.manifest.value), loads, idOf);
            d.Ok? ==>
              && r.failure.None?
              && r.db.jobIds == s.db.jobIds + {d.value}
              && (r.jobs == s.jobs + [d.value] <==> d.value !in s.db.jobIds)
              && (d.value in s.db.jobIds ==> r.jobs == s.jobs))
  {
  }

  /** The entries of one project folder, stopping at the first exception. */
  function ScanJobs<J>(s: Scan, projectPath: string, es: seq<JobEntry>, loads: string -> Option<J>, idOf: J -> JobId): Scan
    decreases |es|
  {
    if s.failure.Some? || es == [] then s
    else ScanJobs(JobStep(s, projectPath, es[0], loads, idOf), projectPath, es[1..], loads, idOf)
  }

  function ProjectName(location: string, p: ProjectEntry): string {
    Basename(PathJoin(location, p.name))
  }

  /** `add_project` for a project folder; its name is recorded only when the add succeeds. */
  function RegisterProject(s: Scan, location: string, p: ProjectEntry): Scan {
    var path := PathJoin(location, p.name);
    var name := ProjectName(location, p);
    if name in s.db.projects then s
    else s.(db := s.db.(projects := s.db.projects[name := ProjectRecord(p.owner, p.group, Some(path))]),
            names := s.names + [name])
  }

  /**
   * `add_project` leaves the jobs alone and makes the folder's name a stored
   * project, keeping every existing record. The name is appended to the
   * project names exactly when it was not stored, and the new record carries
   * the folder's owner, group and joined path.
   */
  lemma RegisterProjectEffect(s: Scan, location: string, p: ProjectEntry)
    ensures var r := RegisterProject(s, location, p);
      var name := ProjectName(location, p);
      && r.jobs == s.jobs && r.db.jobIds == s.db.jobIds && r.failure == s.failure
      && r.db.projects.Keys == s.db.projects.Keys + {name}
      && (forall n :: n in s.db.projects ==> r.db.projects[n] == s.db.projects[n])
      && (r.names == (if name in s.db.projects then s.names else s.names + [name]))
      && (name !in s.db.projects ==> r.db.projects[name] == ProjectRecord(p.owner, p.group, Some(PathJoin(location, p.name))))
  {
  }

  /** One entry of the root location: a directory is registered, then its job folders are walked. */
  function ProjectStep<J>(s: Scan, location: string, p: ProjectEntry, loads: string -> Option<J>, idOf: J -> JobId): Scan {
    if !p.isDir then s
    else ScanJobs(RegisterProject(s, location, p), PathJoin(location, p.name), p.children, loads, idOf)
  }

  /** The entries of the root location, stopping at the first exception. */
  function ScanProjects<J>(s: Scan, location: string, ps: seq<ProjectEntry>, loads: string -> Option<J>, idOf: J -> JobId): Scan
    decreases |ps|
  {
    if s.failure.Some? || ps == [] then s
    else ScanProjects(ProjectStep(s, location, ps[0], loads, idOf), location, ps[1..], loads, idOf)
  }

  /** The whole walk from a given store, with empty `jobs` and `project_names`. */
  function Import<J>(db: Db, location: string, root: seq<ProjectEntry>, loads: string -> Option<J>, idOf: J -> JobId): Scan {
    ScanProjects(Scan(db, [], [], None), location, root, loads, idOf)
  }

  /** What the caller sees at the end of the walk: the collected jobs and the recorded projects re-read from the store. */
  function Outcome(s: Scan): (r: ImportResult)
    ensures r.Aborted? <==> s.failure.Some?
    ensures r.Aborted? ==> r.error == s.failure.value
    ensures r.Imported? ==> r.jobs == s.jobs
    ensures r.Imported? ==> r.projects.Keys == set n | n in s.names && n in s.db.projects
    ensures r.Imported? ==> forall n :: n in r.projects ==> r.projects[n] == s.db.projects[n]
  {
    if s.failure.Some? then Aborted(s.failure.value)
    else Imported(s.jobs, ProjectsNamed(s.db.projects, set n | n in s.names))
  }

  // ---------------------------------------------------------------------------
  // The loop

  method ImportDatastore<J>(store: Store, location: string, root: seq<ProjectEntry>,
                            loads: string -> Option<J>, idOf: J -> JobId)
    returns (result: ImportResult)
    modifies store`projects, store`jobIds
    ensures var s := Import(old(store.Records()), location, root, loads, idOf);
      store.Records() == s.db && result == Outcome(s)
  {
    ghost var final := Import(store.Records(), location, root, loads, idOf);
    var jobs: seq<JobId> := [];
    var projectNames: seq<string> := [];
    var i := 0;
    while i < |root|
      invariant i <= |root|
      invariant ScanProjects(Scan(store.Records(), jobs, projectNames, None), location, root[i..], loads, idOf) == final
    {
      var folder := root[i];
      ghost var before := Scan(store.Records(), jobs, projectNames, None);
      assert root[i..] == [folder] + root[i + 1..];
      ghost var afterProject := ProjectStep(before, location, folder, loads, idOf);
      assert ScanProjects(afterProject, location, root[i + 1..], loads, idOf) == final;
      var potentialProject := PathJoin(location, folder.name);
      if folder.isDir {
        var projectName := Basename(potentialProject);
        var added := store.AddProject(projectName, folder.owner, folder.group, potentialProject);
        if added == Created {
          projectNames := projectNames + [projectName];
        }
        assert Scan(store.Records(), jobs, projectNames, None) == RegisterProject(before, location, folder);
        var failure;
        jobs, failure := ImportJobs(store, potentialProject, folder.children, jobs, projectNames, loads, idOf);
        assert Scan(store.Records(), jobs, projectNames, failure) == afterProject;
        if failure.Some? {
          return Aborted(failure.value);
        }
      }
      i := i + 1;
    }
    assert root[i..] == [];
    var projects := ProjectsNamed(store.projects, set n | n in projectNames);
    result := Imported(jobs, projects);
  }

  /** The inner loop of `import_datastore`: the job folders of one project folder. */
  method ImportJobs<J>(store: Store, projectPath: string, entries: seq<JobEntry>, jobs0: seq<JobId>,
                       ghost names: seq<string>, loads: string -> Option<J>, idOf: J -> JobId)
    returns (jobs: seq<JobId>, failure: Option<ImportError>)
    modifies store`jobIds
    ensures Scan(store.Records(), jobs, names, failure)
            == ScanJobs(Scan(old(store.Records()), jobs0, names, None), projectPath, entries, loads, idOf)
  {
    ghost var final := ScanJobs(Scan(store.Records(), jobs0, names, None), projectPath, entries, loads, idOf);
    jobs, failure := jobs0, None;
    var k := 0;
    while k < |entries|
      invariant k <= |entries|
      invariant ScanJobs(Scan(store.Records(), jobs, names, None), projectPath, entries[k..], loads, idOf) == final
    {
      var entry := entries[k];
      ghost var current := Scan(store.Records(), jobs, names, None);
      assert entries[k..] == [entry] + entries[k + 1..];
      ghost var afterJob := JobStep(current, projectPath, entry, loads, idOf);
      assert ScanJobs(afterJob, projectPath, entries[k + 1..], loads, idOf) == final;
      var potentialJob := PathJoin(projectPath, entry.name);
      if entry.isDir {
        var checkPath := PathJoin(potentialJob, ManifestName);
        if entry.manifest.Some? {
          var text := ExtractJson(UniversalNewlines(entry.manifest.value));
          if text.Err? {
            return jobs, Some(ManifestIndexError(checkPath));
          }
          var parsed := loads(text.value);
          if parsed.None? {
            return jobs, Some(JsonDecodeError(checkPath));
          }
          var jobId := idOf(parsed.value);
          var outcome := store.AddJob(jobId);
          if outcome == Created {
            jobs := jobs + [jobId];
          }
        }
      }
      assert Scan(store.Records(), jobs, names, None) == afterJob;
      k := k + 1;
    }
    assert entries[k..] == [];
  }
}
