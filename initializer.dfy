/**
 * `_build_initial`: seed an empty datastore with the three roles, the
 * `admin` group and user, a user and group for the account running the
 * program, and a default project owned by them. Each `session.commit()`
 * is a point where a uniqueness violation raises and leaves what was
 * committed before it in place.
 */
module Initializer {
  import opened Wrappers
  import opened Datastore

  const RoleNames: seq<string> := ["user", "group manager", "admin"]
  const AdminName: string := "admin"
  const AdminPassword: string := "admin"
  const DefaultPassword: string := "default"
  const FallbackGroup: string := "staff"

  /** What the host reports about the account running the program. */
  datatype HostLookup =
    | Ownership(owner: string, group: string)          // owner and group of the home directory
    | NoOwnership(usernameVariable: Option<string>)    // ownership unsupported; the USERNAME variable, if set

  datatype Identity = Identity(username: string, group: string)

  /** The exceptions `_build_initial` lets escape. */
  datatype InitError =
    | RoleExists(role: string)   // a role of that name is already stored
    | AdminGroupExists           // a group named `admin` is already stored
    | UsernameVariableMissing    // `os.environ["USERNAME"]` raised KeyError
    | SeedConflict               // the last commit violated a uniqueness constraint

  /** The host identity: the home directory's owner and group, or USERNAME with group `staff`. */
  function ResolveIdentity(host: HostLookup): Result<Identity, InitError> {
    match host
    case Ownership(owner, group) => Ok(Identity(owner, group))
    case NoOwnership(None) => Err(UsernameVariableMissing)
    case NoOwnership(Some(name)) => Ok(Identity(name, FallbackGroup))
  }

  /** The last commit succeeds: no stored group, user or project shares a name with what it adds. */
  predicate FinalCommitFits(groups: set<string>, users: map<string, UserRecord>, projects: map<string, ProjectRecord>,
                            id: Identity, defaultProject: string)
  {
    && id.group !in groups
    && AdminName !in users && id.username != AdminName && id.username !in users
    && defaultProject !in projects
  }

  /** None of the three seed roles is stored yet. */
  predicate NoSeedRole(roles: set<string>) {
    forall k :: 0 <= k < |RoleNames| ==> RoleNames[k] !in roles
  }

  /** The whole initialization succeeds from this store. */
  predicate SeedFits(roles: set<string>, groups: set<string>, users: map<string, UserRecord>,
                     projects: map<string, ProjectRecord>, defaultProject: string, host: HostLookup)
  {
    && NoSeedRole(roles)
    && AdminName !in groups
    && ResolveIdentity(host).Ok?
    && FinalCommitFits(groups + {AdminName}, users, projects, ResolveIdentity(host).value, defaultProject)
  }

  method BuildInitial(store: Store, defaultProject: string, host: HostLookup) returns (r: Result<(), InitError>)
    modifies store`roles, store`groups, store`users, store`projects
    ensures r.Ok? <==> SeedFits(old(store.roles), old(store.groups), old(store.users), old(store.projects), defaultProject, host)
    // On success: the three roles, the admin group and the host group, the two
    // users (both with the admin role, the admin user in both groups), and the
    // default project owned by the host user and group.
    ensures r.Ok? ==> var id := ResolveIdentity(host).value;
      && store.roles == old(store.roles) + {"user", "group manager", "admin"}
      && store.groups == old(store.groups) + {AdminName, id.group}
      && store.users == old(store.users)
           [AdminName := UserRecord(AdminPassword, {"admin"}, [AdminName, id.group])]
           [id.username := UserRecord(DefaultPassword, {"admin"}, [id.group])]
      && store.projects == old(store.projects)[defaultProject := ProjectRecord(id.username, id.group, None)]
    // Which step fails: the first stored seed role, else a stored admin group,
    // else a missing USERNAME, else a clash in the last commit.
    ensures (r.Err? && r.error.RoleExists?) <==> !NoSeedRole(old(store.roles))
    ensures r == Err(AdminGroupExists) <==> NoSeedRole(old(store.roles)) && AdminName in old(store.groups)
    ensures r == Err(UsernameVariableMissing) <==>
      NoSeedRole(old(store.roles)) && AdminName !in old(store.groups) && ResolveIdentity(host).Err?
    ensures r == Err(SeedConflict) <==>
      && NoSeedRole(old(store.roles)) && AdminName !in old(store.groups) && ResolveIdentity(host).Ok?
      && !FinalCommitFits(old(store.groups) + {AdminName}, old(store.users), old(store.projects),
                          ResolveIdentity(host).value, defaultProject)
    // On failure: no user or project was stored; the roles committed before
    // the first stored role stay, and so does the admin group once committed.
    ensures r.Err? ==> store.users == old(store.users) && store.projects == old(store.projects)
    ensures r.Err? && r.error.RoleExists? ==>
      exists k :: 0 <= k < |RoleNames| && RoleNames[k] == r.error.role && RoleNames[k] in old(store.roles)
        && (forall j :: 0 <= j < k ==> RoleNames[j] !in old(store.roles))
        && store.roles == old(store.roles) + (set j | 0 <= j < k :: RoleNames[j])
        && store.groups == old(store.groups)
    ensures r.Err? && r.error.AdminGroupExists? ==>
      AdminName in old(store.groups) && store.groups == old(store.groups)
      && store.roles == old(store.roles) + {"user", "group manager", "admin"}
    ensures r.Err? && (r.error.UsernameVariableMissing? || r.error.SeedConflict?) ==>
      store.roles == old(store.roles) + {"user", "group manager", "admin"}
      && store.groups == old(store.groups) + {AdminName}
  {
    for k := 0 to |RoleNames|
      invariant store.roles == old(store.roles) + (set j | 0 <= j < k :: RoleNames[j])
      invariant forall j :: 0 <= j < k ==> RoleNames[j] !in old(store.roles)
      invariant store.groups == old(store.groups) && store.users == old(store.users)
      invariant store.projects == old(store.projects)
    {
      var role := RoleNames[k];
      assert role in store.roles <==> role in old(store.roles);
      if role in store.roles {
        return Err(RoleExists(role));
      }
      store.roles := store.roles + {role};
    }
    RoleNamesSet();

    if AdminName in store.groups {
      return Err(AdminGroupExists);
    }
    store.groups := store.groups + {AdminName};

    var identity := ResolveIdentity(host);
    if identity.Err? {
      return Err(identity.error);
    }
    var id := identity.value;

    if !FinalCommitFits(store.groups, store.users, store.projects, id, defaultProject) {
      return Err(SeedConflict);
    }
    var adminUser := UserRecord(AdminPassword, {"admin"}, [AdminName, id.group]);
    var user := UserRecord(DefaultPassword, {"admin"}, [id.group]);
    store.groups := store.groups + {id.group};
    store.users := store.users[AdminName := adminUser][id.username := user];
    store.projects := store.projects[defaultProject := ProjectRecord(id.username, id.group, None)];
    r := Ok(());
  }

  lemma RoleNamesSet()
    ensures (set j | 0 <= j < |RoleNames| :: RoleNames[j]) == {"user", "group manager", "admin"}
  {
    var names := set j | 0 <= j < |RoleNames| :: RoleNames[j];
    assert RoleNames[0] in names && RoleNames[1] in names && RoleNames[2] in names;
    assert forall x :: x in names ==> x == RoleNames[0] || x == RoleNames[1] || x == RoleNames[2];
  }

  /**
   * On an empty store the initialization succeeds exactly when the host
   * identity resolves to a user and a group that are both not named `admin`.
   */
  lemma EmptyStoreSeeds(defaultProject: string, host: HostLookup)
    ensures SeedFits({}, {}, map[], map[], defaultProject, host) <==>
      ResolveIdentity(host).Ok? && ResolveIdentity(host).value.group != AdminName
      && ResolveIdentity(host).value.username != AdminName
  {
  }
}
