/**
 * The datastore as the importer and the initializer see it: the database
 * session together with the `api.add_project` / `api.add_job` calls and the
 * project query. Names of roles, groups, users and projects are unique, and
 * so are job identifiers.
 */
module Datastore {
  import opened Wrappers

  type JobId = string

  /** A stored project: owner and group names, and the directory it was imported from (if any). */
  datatype ProjectRecord = ProjectRecord(owner: string, group: string, path: Option<string>)

  /** A stored user: password, role names and group memberships in the order they were added. */
  datatype UserRecord = UserRecord(password: string, roles: set<string>, groups: seq<string>)

  /** The answer of an add call: created, or rejected as a duplicate (the `ValueError` path). */
  datatype AddOutcome = Created | Duplicate

  /** The part of the store the importer reads and changes. */
  datatype Db = Db(projects: map<string, ProjectRecord>, jobIds: set<JobId>)

  class Store {
    var roles: set<string>
    var groups: set<string>
    var users: map<string, UserRecord>
    var projects: map<string, ProjectRecord>
    var jobIds: set<JobId>

    /** The projects and job identifiers currently stored. */
    function Records(): Db
      reads this
    {
      Db(projects, jobIds)
    }

    /** `api.add_project`: records the project unless one with that name exists. */
    method AddProject(name: string, owner: string, group: string, path: string) returns (outcome: AddOutcome)
      modifies this`projects
      ensures outcome == Created <==> name !in old(projects)
      ensures projects == if outcome == Created
        then old(projects)[name := ProjectRecord(owner, group, Some(path))]
        else old(projects)
    {
      if name in projects {
        outcome := Duplicate;
      } else {
        projects := projects[name := ProjectRecord(owner, group, Some(path))];
        outcome := Created;
      }
    }

    /** `api.add_job`: records the job unless one with that identifier exists. */
    method AddJob(id: JobId) returns (outcome: AddOutcome)
      modifies this`jobIds
      ensures outcome == Created <==> id !in old(jobIds)
      ensures jobIds == old(jobIds) + {id}
    {
      if id in jobIds {
        outcome := Duplicate;
      } else {
        jobIds := jobIds + {id};
        outcome := Created;
      }
    }
  }

  /** `Project.query.filter(Project.name.in_(names)).all()`: the stored projects with those names. */
  function ProjectsNamed(projects: map<string, ProjectRecord>, names: set<string>): (r: map<string, ProjectRecord>)
    ensures r.Keys == projects.Keys * names
    ensures forall n :: n in r ==> r[n] == projects[n]
  {
    map n | n in projects && n in names :: projects[n]
  }
}
