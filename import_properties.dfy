/**
 * What a run of `import_datastore` does, stated without the walk: the
 * manifests it reads, the jobs and projects it reports, when it aborts,
 * and what a second run over the same tree does.
 */
module ImportProperties {
  import opened Wrappers
  import opened Manifest
  import opened Filesystem
  import opened Datastore
  import opened Importer

  function ToSet(xs: seq<string>): set<string> {
    set x | x in xs
  }

  /** The elements of `xs` that are not in `known`, each at its first occurrence, in order. */
  function NewOnly(xs: seq<string>, known: set<string>): (r: seq<string>)
    ensures |r| <= |xs|
    ensures forall x :: x in r <==> x in xs && x !in known
    ensures forall i, j :: 0 <= i < j < |r| ==> r[i] != r[j]
  {
    if xs == [] then []
    else if xs[0] in known then NewOnly(xs[1..], known)
    else [xs[0]] + NewOnly(xs[1..], known + {xs[0]})
  }

  /** The manifests of one project folder's job folders, in listing order. */
  function JobCandidates(projectPath: string, es: seq<JobEntry>): seq<Candidate> {
    if es == [] then []
    else
      (if IsJobFolder(es[0]) then [Candidate(ManifestPath(projectPath, es[0]), es[0].manifest.value)] else [])
      + JobCandidates(projectPath, es[1..])
  }

  /** The manifests under every project folder of the root location, in traversal order. */
  function AllJobCandidates(location: string, ps: seq<ProjectEntry>): seq<Candidate> {
    if ps == [] then []
    else
      (if ps[0].isDir then JobCandidates(PathJoin(location, ps[0].name), ps[0].children) else [])
      + AllJobCandidates(location, ps[1..])
  }

  /** The names of the project folders (directory entries) of the root location, in listing order. */
  function ProjectFolderNames(location: string, ps: seq<ProjectEntry>): seq<string> {
    if ps == [] then []
    else (if ps[0].isDir then [ProjectName(location, ps[0])] else []) + ProjectFolderNames(location, ps[1..])
  }

  /** The identifiers of all candidates, or the error of the first that cannot be decoded. */
  function DecodeAll<J>(cs: seq<Candidate>, loads: string -> Option<J>, idOf: J -> JobId): (r: Result<seq<JobId>, ImportError>)
    ensures r.Ok? ==> |r.value| == |cs|
  {
    if cs == [] then Ok([])
    else
      match DecodeManifest(cs[0], loads, idOf)
      case Err(e) => Err(e)
      case Ok(id) =>
        match DecodeAll(cs[1..], loads, idOf)
        case Err(e) => Err(e)
        case Ok(ids) => Ok([id] + ids)
  }

  // ---------------------------------------------------------------------------
  // Helpers on sequences

  lemma {:induction false} NewOnlyAppend(a: seq<string>, b: seq<string>, known: set<string>)
    ensures NewOnly(a + b, known) == NewOnly(a, known) + NewOnly(b, known + ToSet(a))
    decreases |a|
  {
    if a == [] {
      assert a + b == b;
      assert known + ToSet(a) == known;
    } else {
      assert (a + b)[0] == a[0];
      assert (a + b)[1..] == a[1..] + b;
      var k' := if a[0] in known then known else known + {a[0]};
      NewOnlyAppend(a[1..], b, k');
      assert k' + ToSet(a[1..]) == known + ToSet(a);
    }
  }

  lemma {:induction false} DecodeAllAppend<J>(a: seq<Candidate>, b: seq<Candidate>, loads: string -> Option<J>, idOf: J -> JobId)
    ensures DecodeAll(a + b, loads, idOf) ==
      match DecodeAll(a, loads, idOf)
      case Err(e) => Err(e)
      case Ok(x) =>
        match DecodeAll(b, loads, idOf)
        case Err(e) => Err(e)
        case Ok(y) => Ok(x + y)
    decreases |a|
  {
    if a == [] {
      assert a + b == b;
      match DecodeAll(b, loads, idOf) {
        case Err(_) =>
        case Ok(y) => assert [] + y == y;
      }
    } else {
      assert (a + b)[0] == a[0];
      assert (a + b)[1..] == a[1..] + b;
      DecodeAllAppend(a[1..], b, loads, idOf);
      match DecodeManifest(a[0], loads, idOf) {
        case Err(_) =>
        case Ok(id) =>
          match DecodeAll(a[1..], loads, idOf) {
            case Err(_) =>
            case Ok(x) =>
              match DecodeAll(b, loads, idOf) {
                case Err(_) =>
                case Ok(y) => assert [id] + x + y == [id] + (x + y);
              }
          }
      }
    }
  }

  /** Nothing is new in a sequence whose elements are all known. */
  lemma NewOnlyOfKnown(xs: seq<string>, known: set<string>)
    requires ToSet(xs) <= known
    ensures NewOnly(xs, known) == []
  {
  }

  /** Everything is new in a sequence without repeats none of whose elements is known. */
  lemma {:induction false} NewOnlyOfFresh(xs: seq<string>, known: set<string>)
    requires forall i, j :: 0 <= i < j < |xs| ==> xs[i] != xs[j]
    requires ToSet(xs) !! known
    ensures NewOnly(xs, known) == xs
    decreases |xs|
  {
    if xs != [] {
      var rest := xs[1..];
      assert xs[0] !in ToSet(rest);
      assert ToSet(rest) <= ToSet(xs);
      NewOnlyOfFresh(rest, known + {xs[0]});
      assert xs == [xs[0]] + rest;
    }
  }

  // ---------------------------------------------------------------------------
  // The walk, described by the candidates

  /**
   * How a walk of one project folder from `s` relates to its end state `r`:
   * projects are not touched; when every manifest decodes, the collected jobs
   * are the candidates' identifiers that were not stored yet, in order, and
   * all of them end up stored; otherwise the walk ends with the first
   * undecodable manifest's error.
   */
  ghost predicate FolderDescribed<J>(s: Scan, r: Scan, projectPath: string, es: seq<JobEntry>,
                                     loads: string -> Option<J>, idOf: J -> JobId)
  {
    && r.db.projects == s.db.projects && r.names == s.names
    && s.db.jobIds <= r.db.jobIds
    && match DecodeAll(JobCandidates(projectPath, es), loads, idOf)
       case Err(e) => r.failure == Some(e)
       case Ok(ids) =>
         && r.failure.None?
         && r.jobs == s.jobs + NewOnly(ids, s.db.jobIds)
         && r.db.jobIds == s.db.jobIds + ToSet(ids)
  }

  lemma {:induction false} ScanJobsMeaning<J>(s: Scan, projectPath: string, es: seq<JobEntry>,
                                              loads: string -> Option<J>, idOf: J -> JobId)
    requires s.failure.None?
    ensures FolderDescribed(s, ScanJobs(s, projectPath, es, loads, idOf), projectPath, es, loads, idOf)
    decreases |es|
  {
    if es == [] {
      assert s.jobs + [] == s.jobs;
    } else {
      var s1 := JobStep(s, projectPath, es[0], loads, idOf);
      var r := ScanJobs(s1, projectPath, es[1..], loads, idOf);
      if s1.failure.None? {
        ScanJobsMeaning(s1, projectPath, es[1..], loads, idOf);
      }
      JobEntryStep(s, s1, r, projectPath, es[0], es[1..], loads, idOf);
      assert [es[0]] + es[1..] == es;
    }
  }

  /** Combining one job-folder entry with the walk of the entries after it. */
  lemma JobEntryStep<J>(s: Scan, s1: Scan, r: Scan, projectPath: string, e: JobEntry, rest: seq<JobEntry>,
                        loads: string -> Option<J>, idOf: J -> JobId)
    requires s.failure.None? && s1 == JobStep(s, projectPath, e, loads, idOf)
    requires r == ScanJobs(s1, projectPath, rest, loads, idOf)
    requires s1.failure.None? ==> FolderDescribed(s1, r, projectPath, rest, loads, idOf)
    ensures FolderDescribed(s, r, projectPath, [e] + rest, loads, idOf)
  {
    var tail := JobCandidates(projectPath, rest);
    assert ([e] + rest)[1..] == rest;
    if IsJobFolder(e) {
      var c := Candidate(ManifestPath(projectPath, e), e.manifest.value);
      assert JobCandidates(projectPath, [e] + rest) == [c] + tail;
      JobFolderStep(s, s1, r, c, tail, loads, idOf);
    } else {
      assert JobCandidates(projectPath, [e] + rest) == tail;
      assert s1 == s;
    }
  }

  /** The job-folder case of `JobEntryStep`, stated on the candidate `c` the entry contributes. */
  lemma JobFolderStep<J>(s: Scan, s1: Scan, r: Scan, c: Candidate, tail: seq<Candidate>,
                         loads: string -> Option<J>, idOf: J -> JobId)
    requires s.failure.None?
    requires s1 == match DecodeManifest(c, loads, idOf)
      case Err(err) => s.(failure := Some(err))
      case Ok(id) =>
        if id in s.db.jobIds then s
        else s.(db := s.db.(jobIds := s.db.jobIds + {id}), jobs := s.jobs + [id])
    requires s1.failure.Some? ==> r == s1
    requires s1.failure.None? ==>
      && r.db.projects == s1.db.projects && r.names == s1.names && s1.db.jobIds <= r.db.jobIds
      && match DecodeAll(tail, loads, idOf)
         case Err(e) => r.failure == Some(e)
         case Ok(ids) =>
           && r.failure.None?
           && r.jobs == s1.jobs + NewOnly(ids, s1.db.jobIds)
           && r.db.jobIds == s1.db.jobIds + ToSet(ids)
    ensures r.db.projects == s.db.projects && r.names == s.names && s.db.jobIds <= r.db.jobIds
    ensures match DecodeAll([c] + tail, loads, idOf)
      case Err(e) => r.failure == Some(e)
      case Ok(ids) =>
        && r.failure.None?
        && r.jobs == s.jobs + NewOnly(ids, s.db.jobIds)
        && r.db.jobIds == s.db.jobIds + ToSet(ids)
  {
    assert ([c] + tail)[1..] == tail;
    match DecodeManifest(c, loads, idOf) {
      case Err(err) =>
        assert DecodeAll([c] + tail, loads, idOf) == Err(err);
      case Ok(id) =>
        match DecodeAll(tail, loads, idOf) {
          case Err(err) =>
            assert DecodeAll([c] + tail, loads, idOf) == Err(err);
          case Ok(ids) =>
            assert DecodeAll([c] + tail, loads, idOf) == Ok([id] + ids);
            assert s1.db.jobIds == s.db.jobIds + {id};
            NewOnlyCons(id, ids, s.db.jobIds);
            FirstJobCombine(s.jobs, id !in s.db.jobIds, id, NewOnly(ids, s.db.jobIds + {id}));
            ToSetCons(id, ids);
        }
    }
  }

  /** Appending a possibly skipped first identifier before or after the rest's contribution is the same. */
  lemma FirstJobCombine(jobs: seq<JobId>, isNew: bool, id: JobId, later: seq<JobId>)
    ensures (if isNew then jobs + [id] else jobs) + later == jobs + ((if isNew then [id] else []) + later)
  {
    if isNew {
      assert (jobs + [id]) + later == jobs + ([id] + later);
    } else {
      assert [] + later == later;
    }
  }

  /** A first element is new unless known, and is known for the rest. */
  lemma NewOnlyCons(x: string, xs: seq<string>, known: set<string>)
    ensures NewOnly([x] + xs, known) == (if x in known then [] else [x]) + NewOnly(xs, known + {x})
  {
    assert ([x] + xs)[1..] == xs;
    if x in known {
      assert known + {x} == known;
    }
  }

  lemma ToSetCons(x: string, xs: seq<string>)
    ensures ToSet([x] + xs) == {x} + ToSet(xs)
  {
    assert forall y :: y in [x] + xs <==> y == x || y in xs;
  }

  /**
   * How a walk of the root location from `s` relates to its end state `r`:
   * stored projects keep their records; when every candidate manifest
   * decodes, the collected jobs and the recorded project names are exactly the
   * candidates' identifiers and the project folders' names that the store did
   * not hold, in traversal order, and all of them end up stored; otherwise
   * the walk ends with the first undecodable manifest's error.
   */
  ghost predicate WalkDescribed<J>(s: Scan, r: Scan, location: string, ps: seq<ProjectEntry>,
                                   loads: string -> Option<J>, idOf: J -> JobId)
  {
    && (forall n :: n in s.db.projects ==> n in r.db.projects && r.db.projects[n] == s.db.projects[n])
    && s.db.jobIds <= r.db.jobIds
    && match DecodeAll(AllJobCandidates(location, ps), loads, idOf)
       case Err(e) => r.failure == Some(e)
       case Ok(ids) =>
         && r.failure.None?
         && r.jobs == s.jobs + NewOnly(ids, s.db.jobIds)
         && r.db.jobIds == s.db.jobIds + ToSet(ids)
         && r.names == s.names + NewOnly(ProjectFolderNames(location, ps), s.db.projects.Keys)
         && r.db.projects.Keys == s.db.projects.Keys + ToSet(ProjectFolderNames(location, ps))
  }

  lemma {:induction false} ScanProjectsMeaning<J>(s: Scan, location: string, ps: seq<ProjectEntry>,
                                                  loads: string -> Option<J>, idOf: J -> JobId)
    requires s.failure.None?
    ensures WalkDescribed(s, ScanProjects(s, location, ps, loads, idOf), location, ps, loads, idOf)
    decreases |ps|
  {
    var r := ScanProjects(s, location, ps, loads, idOf);
    if ps == [] {
      assert s.jobs + [] == s.jobs && s.names + [] == s.names;
    } else {
      var p, rest := ps[0], ps[1..];
      var s2 := ProjectStep(s, location, p, loads, idOf);
      assert r == ScanProjects(s2, location, rest, loads, idOf);
      if !p.isDir {
        ScanProjectsMeaning(s, location, rest, loads, idOf);
        assert AllJobCandidates(location, ps) == AllJobCandidates(location, rest);
        assert ProjectFolderNames(location, ps) == ProjectFolderNames(location, rest);
      } else {
        var s1 := RegisterProject(s, location, p);
        var path := PathJoin(location, p.name);
        ScanJobsMeaning(s1, path, p.children, loads, idOf);
        assert AllJobCandidates(location, ps) == JobCandidates(path, p.children) + AllJobCandidates(location, rest);
        DecodeAllAppend(JobCandidates(path, p.children), AllJobCandidates(location, rest), loads, idOf);
        assert ProjectFolderNames(location, ps) == [ProjectName(location, p)] + ProjectFolderNames(location, rest);
        if s2.failure.None? {
          ScanProjectsMeaning(s2, location, rest, loads, idOf);
          ProjectFolderStep(s, s1, s2, r, location, p, rest, loads, idOf);
        }
      }
    }
  }

  /** Combining one project folder's walk with the walk of the entries after it. */
  lemma ProjectFolderStep<J>(s: Scan, s1: Scan, s2: Scan, r: Scan, location: string, p: ProjectEntry,
                             rest: seq<ProjectEntry>, loads: string -> Option<J>, idOf: J -> JobId)
    requires s.failure.None? && p.isDir
    requires s1 == RegisterProject(s, location, p)
    requires s2.failure.None? && s2.db.projects == s1.db.projects && s2.names == s1.names
    requires var own := DecodeAll(JobCandidates(PathJoin(location, p.name), p.children), loads, idOf);
      own.Ok? && s2.jobs == s1.jobs + NewOnly(own.value, s1.db.jobIds)
      && s2.db.jobIds == s1.db.jobIds + ToSet(own.value)
    requires WalkDescribed(s2, r, location, rest, loads, idOf)
    requires AllJobCandidates(location, [p] + rest)
      == JobCandidates(PathJoin(location, p.name), p.children) + AllJobCandidates(location, rest)
    requires ProjectFolderNames(location, [p] + rest) == [ProjectName(location, p)] + ProjectFolderNames(location, rest)
    ensures WalkDescribed(s, r, location, [p] + rest, loads, idOf)
  {
    var own := JobCandidates(PathJoin(location, p.name), p.children);
    var after := AllJobCandidates(location, rest);
    var idsP := DecodeAll(own, loads, idOf).value;
    DecodeAllAppend(own, after, loads, idOf);
    var name := ProjectName(location, p);
    var namesR := ProjectFolderNames(location, rest);
    RegisterProjectEffect(s, location, p);
    NamesCombine(s.names, s.db.projects.Keys, name, namesR);
    match DecodeAll(after, loads, idOf) {
      case Err(_) =>
      case Ok(idsR) =>
        JobsCombine(s.jobs, s.db.jobIds, idsP, idsR);
    }
  }

  lemma JobsCombine(jobs: seq<JobId>, known: set<JobId>, idsP: seq<JobId>, idsR: seq<JobId>)
    ensures jobs + NewOnly(idsP, known) + NewOnly(idsR, known + ToSet(idsP)) == jobs + NewOnly(idsP + idsR, known)
    ensures known + ToSet(idsP) + ToSet(idsR) == known + ToSet(idsP + idsR)
  {
    NewOnlyAppend(idsP, idsR, known);
  }

  lemma NamesCombine(names: seq<string>, known: set<string>, name: string, namesR: seq<string>)
    ensures var names1 := if name in known then names else names + [name];
      names1 + NewOnly(namesR, known + {name}) == names + NewOnly([name] + namesR, known)
    ensures known + {name} + ToSet(namesR) == known + ToSet([name] + namesR)
  {
    assert ([name] + namesR)[0] == name && ([name] + namesR)[1..] == namesR;
    if name in known {
      assert known + {name} == known;
    }
  }

  // ---------------------------------------------------------------------------
  // A whole run of `import_datastore`

  /** A run aborts exactly when some candidate manifest cannot be decoded, with the first such error. */
  lemma ImportAbortsExactly<J>(db: Db, location: string, root: seq<ProjectEntry>,
                               loads: string -> Option<J>, idOf: J -> JobId)
    ensures var decoded := DecodeAll(AllJobCandidates(location, root), loads, idOf);
      var outcome := Outcome(Import(db, location, root, loads, idOf));
      && (outcome.Aborted? <==> decoded.Err?)
      && (decoded.Err? ==> outcome == Aborted(decoded.error))
  {
    ScanProjectsMeaning(Scan(db, [], [], None), location, root, loads, idOf);
  }

  /**
   * Whatever the outcome, aborted or not, a run removes nothing and changes no existing record:
   * every stored project keeps its record and every stored job stays.
   */
  lemma ImportOnlyAdds<J>(db: Db, location: string, root: seq<ProjectEntry>,
                          loads: string -> Option<J>, idOf: J -> JobId)
    ensures var after := Import(db, location, root, loads, idOf).db;
      && (forall n :: n in db.projects ==> n in after.projects && after.projects[n] == db.projects[n])
      && db.jobIds <= after.jobIds
  {
    ScanProjectsMeaning(Scan(db, [], [], None), location, root, loads, idOf);
  }

  /** Whether a run aborts, and why, does not depend on what the store already holds. */
  lemma AbortIndependentOfStore<J>(db1: Db, db2: Db, location: string, root: seq<ProjectEntry>,
                                   loads: string -> Option<J>, idOf: J -> JobId)
    ensures Import(db1, location, root, loads, idOf).failure == Import(db2, location, root, loads, idOf).failure
  {
    ImportAbortsExactly(db1, location, root, loads, idOf);
    ImportAbortsExactly(db2, location, root, loads, idOf);
  }

  /**
   * The jobs a completed run returns are the identifiers of the manifests in
   * job folders of project folders (whether or not the project was already
   * stored), without those already stored and without repeats, in traversal
   * order; so there are at most as many as there are manifests. All of the
   * identifiers end up stored.
   */
  lemma ImportedJobs<J>(db: Db, location: string, root: seq<ProjectEntry>,
                        loads: string -> Option<J>, idOf: J -> JobId)
    requires DecodeAll(AllJobCandidates(location, root), loads, idOf).Ok?
    ensures var ids := DecodeAll(AllJobCandidates(location, root), loads, idOf).value;
      var s := Import(db, location, root, loads, idOf);
      && Outcome(s).Imported?
      && Outcome(s).jobs == NewOnly(ids, db.jobIds)
      && s.db.jobIds == db.jobIds + ToSet(ids)
      && |Outcome(s).jobs| <= |AllJobCandidates(location, root)|
  {
    ScanProjectsMeaning(Scan(db, [], [], None), location, root, loads, idOf);
  }

  /**
   * The projects a completed run returns are exactly the project folders
   * whose names the store did not hold before the run, with the owner, group
   * and path of a folder of that name; a project that was already stored is never returned. Every
   * project folder's name ends up stored, and the records already stored are
   * kept.
   */
  lemma ImportedProjects<J>(db: Db, location: string, root: seq<ProjectEntry>,
                            loads: string -> Option<J>, idOf: J -> JobId)
    requires DecodeAll(AllJobCandidates(location, root), loads, idOf).Ok?
    ensures var s := Import(db, location, root, loads, idOf);
      var folders := ToSet(ProjectFolderNames(location, root));
      && Outcome(s).Imported?
      && Outcome(s).projects.Keys == folders - db.projects.Keys
      && (forall n :: n in Outcome(s).projects ==> Outcome(s).projects[n] == s.db.projects[n])
      && (forall n :: n in Outcome(s).projects ==> FolderRecord(Outcome(s).projects[n], n, location, root))
      && s.db.projects.Keys == db.projects.Keys + folders
      && (forall n :: n in db.projects ==> s.db.projects[n] == db.projects[n])
  {
    var s := Import(db, location, root, loads, idOf);
    ScanProjectsMeaning(Scan(db, [], [], None), location, root, loads, idOf);
    RecordsFromFolders(Scan(db, [], [], None), location, root, loads, idOf);
    assert s.names == NewOnly(ProjectFolderNames(location, root), db.projects.Keys);
  }

  /**
   * The re-query at the end of a completed run returns exactly the project
   * names recorded during this run, and each of them is new: none was stored
   * before the run.
   */
  lemma RecordedNamesReturned<J>(db: Db, location: string, root: seq<ProjectEntry>,
                                 loads: string -> Option<J>, idOf: J -> JobId)
    ensures var s := Import(db, location, root, loads, idOf);
      s.failure.None? ==>
        && Outcome(s).projects.Keys == ToSet(s.names)
        && (forall n :: n in s.names ==> n !in db.projects)
  {
    ScanProjectsMeaning(Scan(db, [], [], None), location, root, loads, idOf);
  }

  /**
   * Running the import a second time over the same tree changes nothing and
   * returns no jobs and no projects.
   */
  lemma ImportIdempotent<J>(db: Db, location: string, root: seq<ProjectEntry>,
                            loads: string -> Option<J>, idOf: J -> JobId)
    requires Import(db, location, root, loads, idOf).failure.None?
    ensures var first := Import(db, location, root, loads, idOf);
      var second := Import(first.db, location, root, loads, idOf);
      second.db == first.db && Outcome(second) == Imported([], map[])
  {
    var first := Import(db, location, root, loads, idOf);
    var second := Import(first.db, location, root, loads, idOf);
    var cands := AllJobCandidates(location, root);
    var folders := ProjectFolderNames(location, root);
    ScanProjectsMeaning(Scan(db, [], [], None), location, root, loads, idOf);
    ScanProjectsMeaning(Scan(first.db, [], [], None), location, root, loads, idOf);
    var ids := DecodeAll(cands, loads, idOf).value;
    NewOnlyOfKnown(ids, first.db.jobIds);
    NewOnlyOfKnown(folders, first.db.projects.Keys);
    assert second.db.projects == first.db.projects;
    assert second.db.jobIds == first.db.jobIds;
  }

  /**
   * Re-importing a tree whose projects may already be stored but none of
   * whose jobs are: every manifest's job is returned, in traversal order.
   */
  lemma PartialPriorImport<J>(db: Db, location: string, root: seq<ProjectEntry>,
                              loads: string -> Option<J>, idOf: J -> JobId)
    requires DecodeAll(AllJobCandidates(location, root), loads, idOf).Ok?
    requires var ids := DecodeAll(AllJobCandidates(location, root), loads, idOf).value;
      (forall i, j :: 0 <= i < j < |ids| ==> ids[i] != ids[j]) && ToSet(ids) !! db.jobIds
    ensures var outcome := Outcome(Import(db, location, root, loads, idOf));
      outcome.Imported? && outcome.jobs == DecodeAll(AllJobCandidates(location, root), loads, idOf).value
  {
    var ids := DecodeAll(AllJobCandidates(location, root), loads, idOf).value;
    ImportedJobs(db, location, root, loads, idOf);
    NewOnlyOfFresh(ids, db.jobIds);
  }

  /** An entry of a project folder that is not a directory holding `job_data.json` changes nothing. */
  lemma {:induction false} NonJobEntryIgnored<J>(s: Scan, projectPath: string, before: seq<JobEntry>, e: JobEntry,
                                                 after: seq<JobEntry>, loads: string -> Option<J>, idOf: J -> JobId)
    requires !IsJobFolder(e)
    ensures ScanJobs(s, projectPath, before + [e] + after, loads, idOf)
         == ScanJobs(s, projectPath, before + after, loads, idOf)
    decreases |before|
  {
    if s.failure.None? {
      if before == [] {
        assert before + [e] + after == [e] + after && before + after == after;
        assert ([e] + after)[1..] == after;
      } else {
        assert (before + [e] + after)[0] == before[0] && (before + after)[0] == before[0];
        assert (before + [e] + after)[1..] == before[1..] + [e] + after;
        assert (before + after)[1..] == before[1..] + after;
        NonJobEntryIgnored(JobStep(s, projectPath, before[0], loads, idOf), projectPath, before[1..], e, after, loads, idOf);
      }
    }
  }

  /** An entry of the root location that is not a directory changes nothing. */
  lemma {:induction false} NonDirectoryIgnored<J>(s: Scan, location: string, before: seq<ProjectEntry>, p: ProjectEntry,
                                                  after: seq<ProjectEntry>, loads: string -> Option<J>, idOf: J -> JobId)
    requires !p.isDir
    ensures ScanProjects(s, location, before + [p] + after, loads, idOf)
         == ScanProjects(s, location, before + after, loads, idOf)
    decreases |before|
  {
    if s.failure.None? {
      if before == [] {
        assert before + [p] + after == [p] + after && before + after == after;
        assert ([p] + after)[1..] == after;
      } else {
        assert (before + [p] + after)[0] == before[0] && (before + after)[0] == before[0];
        assert (before + [p] + after)[1..] == before[1..] + [p] + after;
        assert (before + after)[1..] == before[1..] + after;
        NonDirectoryIgnored(ProjectStep(s, location, before[0], loads, idOf), location, before[1..], p, after, loads, idOf);
      }
    }
  }

  /** A manifest with one legacy header line decodes like the same manifest without it. */
  lemma LegacyHeaderDecodesAlike<J>(path: string, header: string, body: string,
                                    loads: string -> Option<J>, idOf: J -> JobId)
    requires header != [] && BreakFree(header) && header[0] != '{'
    requires body != [] && body[0] == '{'
    ensures DecodeManifest(Candidate(path, header + "\n" + body), loads, idOf)
         == DecodeManifest(Candidate(path, body), loads, idOf)
  {
    TextModeInvisible(header + "\n" + body);
    TextModeInvisible(body);
    LegacyHeaderDropped(header, body);
  }

  /** `rec` is the record `add_project` is given for a project folder of `ps` named `n`. */
  ghost predicate FolderRecord(rec: ProjectRecord, n: string, location: string, ps: seq<ProjectEntry>) {
    exists i :: 0 <= i < |ps| && ps[i].isDir && ProjectName(location, ps[i]) == n
      && rec == ProjectRecord(ps[i].owner, ps[i].group, Some(PathJoin(location, ps[i].name)))
  }

  /**
   * Every project a walk adds to the store carries the owner, group and path
   * of a project folder with that name.
   */
  lemma {:induction false} RecordsFromFolders<J>(s: Scan, location: string, ps: seq<ProjectEntry>,
                                                 loads: string -> Option<J>, idOf: J -> JobId)
    ensures var r := ScanProjects(s, location, ps, loads, idOf);
      forall n :: n in r.db.projects && n !in s.db.projects ==> FolderRecord(r.db.projects[n], n, location, ps)
    decreases |ps|
  {
    if s.failure.None? && ps != [] {
      var p, rest := ps[0], ps[1..];
      var s2 := ProjectStep(s, location, p, loads, idOf);
      var r := ScanProjects(s2, location, rest, loads, idOf);
      RecordsFromFolders(s2, location, rest, loads, idOf);
      if p.isDir {
        var s1 := RegisterProject(s, location, p);
        ScanJobsMeaning(s1, PathJoin(location, p.name), p.children, loads, idOf);
        if s2.failure.None? {
          ScanProjectsMeaning(s2, location, rest, loads, idOf);
        }
      }
      forall n | n in r.db.projects && n !in s.db.projects
        ensures FolderRecord(r.db.projects[n], n, location, ps)
      {
        if n in s2.db.projects {
          assert FolderRecord(r.db.projects[n], n, location, ps) by {
            assert ps[0] == p;
          }
        } else {
          var i :| 0 <= i < |rest| && rest[i].isDir && ProjectName(location, rest[i]) == n
            && r.db.projects[n] == ProjectRecord(rest[i].owner, rest[i].group, Some(PathJoin(location, rest[i].name)));
          assert ps[i + 1] == rest[i];
        }
      }
    }
  }
}
