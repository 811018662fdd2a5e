/**
  Entitlements: a lookup over a list of specifications, answered from a cache that is filled as it
  is asked and thrown away on every reload.
 */
module Authorization {
  import opened Bytes

  /** A bit mask of roles. */
  datatype Role = Role(subscriber: bool, publisher: bool, notifier: bool) {
    function And(other: Role): Role {
      Role(subscriber && other.subscriber, publisher && other.publisher, notifier && other.notifier)
    }
  }

  const SUBSCRIBER := Role(true, false, false)
  const PUBLISHER := Role(false, true, false)
  const ALL_ROLES := Role(true, true, true)

  /** Whether a regular expression, given by its pattern, matches a whole text. */
  type Matcher = (bytes, bytes) -> bool

  datatype AuthorizationSpec = AuthorizationSpec(
    userPattern: bytes,
    topicPattern: bytes,
    entitlements: set<int32>,
    roles: Role)
  {
    predicate Applies(match_: Matcher, user: bytes, topic: bytes, role: Role) {
      match_(userPattern, user) && match_(topicPattern, topic) && role.And(roles) == role
    }
  }

  /** The entitlements of the first specification that applies; none if none does. */
  function FirstMatch(match_: Matcher, specs: seq<AuthorizationSpec>, user: bytes, topic: bytes, role: Role)
    : set<int32>
  {
    if specs == [] then {}
    else if specs[0].Applies(match_, user, topic, role) then specs[0].entitlements
    else FirstMatch(match_, specs[1..], user, topic, role)
  }

  /** What "first" means: no earlier specification applies. */
  lemma {:induction false} FirstMatchIsFirst(
    match_: Matcher, specs: seq<AuthorizationSpec>, user: bytes, topic: bytes, role: Role, k: nat)
    requires k <= |specs| && forall i :: 0 <= i < k ==> !specs[i].Applies(match_, user, topic, role)
    ensures k < |specs| && specs[k].Applies(match_, user, topic, role) ==>
      FirstMatch(match_, specs, user, topic, role) == specs[k].entitlements
    ensures k == |specs| ==> FirstMatch(match_, specs, user, topic, role) == {}
  {
    if k > 0 {
      assert !specs[0].Applies(match_, user, topic, role);
      FirstMatchIsFirst(match_, specs[1..], user, topic, role, k - 1);
    }
  }

  /**
    The answer of a lookup in terms of the fields: the entitlements of the first specification whose user
    pattern and topic pattern match and whose roles include every role asked for; none if there is none.
   */
  lemma LookupLaw(match_: Matcher, specs: seq<AuthorizationSpec>, user: bytes, topic: bytes, role: Role, k: nat)
    requires k <= |specs|
    requires forall i :: 0 <= i < k ==>
      || !match_(specs[i].userPattern, user) || !match_(specs[i].topicPattern, topic)
      || (role.subscriber && !specs[i].roles.subscriber)
      || (role.publisher && !specs[i].roles.publisher)
      || (role.notifier && !specs[i].roles.notifier)
    ensures k < |specs| ==>
      var spec := specs[k];
      var includesRoles :=
        && (role.subscriber ==> spec.roles.subscriber)
        && (role.publisher ==> spec.roles.publisher)
        && (role.notifier ==> spec.roles.notifier);
      match_(spec.userPattern, user) && match_(spec.topicPattern, topic) && includesRoles ==>
      FirstMatch(match_, specs, user, topic, role) == spec.entitlements
    ensures k == |specs| ==> FirstMatch(match_, specs, user, topic, role) == {}
  {
    FirstMatchIsFirst(match_, specs, user, topic, role, k);
  }

  /** Publishing and receiving are looked up under one role each. */
  lemma RolesAsked()
    ensures PUBLISHER == Role(subscriber := false, publisher := true, notifier := false)
    ensures SUBSCRIBER == Role(subscriber := true, publisher := false, notifier := false)
  {
  }

  // ---- The cache ----

  type Cache = map<bytes, map<bytes, map<Role, set<int32>>>>

  function Cached(c: Cache, user: bytes, topic: bytes, role: Role): Option<set<int32>> {
    if user in c && topic in c[user] && role in c[user][topic] then Some(c[user][topic][role]) else None
  }

  /** Nested `operator[]` creates whatever is missing on the way. */
  function Stored(c: Cache, user: bytes, topic: bytes, role: Role, e: set<int32>): (c': Cache)
    ensures Cached(c', user, topic, role) == Some(e)
    ensures forall u, t, r :: (u, t, r) != (user, topic, role) ==> Cached(c', u, t, r) == Cached(c, u, t, r)
  {
    var topics := if user in c then c[user] else map[];
    var roles := if topic in topics then topics[topic] else map[];
    c[user := topics[topic := roles[role := e]]]
  }

  class AuthorizationCache {
    var authorizations: Cache

    constructor ()
      ensures authorizations == map[]
    {
      authorizations := map[];
    }

    method Contains(user: bytes, topic: bytes, role: Role) returns (found: bool)
      ensures found <==> Cached(authorizations, user, topic, role).Some?
    {
      if user !in authorizations {
        return false;
      }
      var topics := authorizations[user];
      if topic !in topics {
        return false;
      }
      return role in topics[topic];
    }

    /** A miss leaves an empty entry behind. */
    method Get(user: bytes, topic: bytes, role: Role) returns (e: set<int32>)
      modifies this
      ensures e == match old(Cached(authorizations, user, topic, role)) case Some(x) => x case None => {}
      ensures authorizations == Stored(old(authorizations), user, topic, role, e)
    {
      var topics := if user in authorizations then authorizations[user] else map[];
      var roles := if topic in topics then topics[topic] else map[];
      if role !in roles {
        roles := roles[role := {}];
      }
      e := roles[role];
      assert roles == roles[role := e];
      authorizations := authorizations[user := topics[topic := roles]];
    }

    method Set(user: bytes, topic: bytes, role: Role, e: set<int32>)
      modifies this
      ensures authorizations == Stored(old(authorizations), user, topic, role, e)
    {
      authorizations := Stored(authorizations, user, topic, role, e);
    }
  }

  // ---- The repository ----

  datatype Repository = Repository(specs: seq<AuthorizationSpec>, cache: Cache) {

    /** A lookup: consult the specifications only on a miss, then read the cache. */
    function Consult(match_: Matcher, user: bytes, topic: bytes, role: Role): (Repository, set<int32>) {
      match Cached(cache, user, topic, role)
      case Some(e) => (this, e)
      case None =>
        var e := FirstMatch(match_, specs, user, topic, role);
        (this.(cache := Stored(cache, user, topic, role, e)), e)
    }

    /** Nothing in the cache differs from what the specifications say. */
    ghost predicate Sound(match_: Matcher) {
      forall u, t, r :: Cached(cache, u, t, r).Some? ==>
        Cached(cache, u, t, r).value == FirstMatch(match_, specs, u, t, r)
    }
  }

  class AuthorizationRepository {
    const specs: seq<AuthorizationSpec>
    const cache: AuthorizationCache

    constructor (specs: seq<AuthorizationSpec>)
      ensures this.specs == specs && fresh(cache) && State() == Repository(specs, map[])
    {
      this.specs := specs;
      cache := new AuthorizationCache();
    }

    ghost function State(): Repository
      reads this, cache
    {
      Repository(specs, cache.authorizations)
    }

    method Entitlements(match_: Matcher, user: bytes, topic: bytes, role: Role) returns (e: set<int32>)
      modifies cache
      ensures (State(), e) == old(State()).Consult(match_, user, topic, role)
    {
      var found := cache.Contains(user, topic, role);
      if !found {
        var i := 0;
        while i < |specs|
          invariant 0 <= i <= |specs| && cache.authorizations == old(cache.authorizations)
          invariant forall j :: 0 <= j < i ==> !specs[j].Applies(match_, user, topic, role)
        {
          if specs[i].Applies(match_, user, topic, role) {
            cache.Set(user, topic, role, specs[i].entitlements);
            break;
          }
          i := i + 1;
        }
        FirstMatchIsFirst(match_, specs, user, topic, role, i);
      }
      ghost var c := cache.authorizations;
      e := cache.Get(user, topic, role);
      StoredAgain(old(cache.authorizations), user, topic, role, e);
      StoredAgain(c, user, topic, role, e);
    }
  }

  /** Storing a value that is there already changes nothing. */
  lemma StoredAgain(c: Cache, user: bytes, topic: bytes, role: Role, e: set<int32>)
    ensures Stored(Stored(c, user, topic, role, e), user, topic, role, e) == Stored(c, user, topic, role, e)
    ensures Cached(c, user, topic, role) == Some(e) ==> Stored(c, user, topic, role, e) == c
  {
    if Cached(c, user, topic, role) == Some(e) {
      assert c[user][topic][role := e] == c[user][topic];
      assert c[user][topic := c[user][topic]] == c[user];
    }
    var d := Stored(c, user, topic, role, e);
    assert d[user][topic][role := e] == d[user][topic];
    assert d[user][topic := d[user][topic]] == d[user];
  }

  // ---- The manager ----

  /** What the authorization file gives when it is read. */
  datatype FileAnswer = Unreadable | Specs(specs: seq<AuthorizationSpec>)

  /** ".*" for every user and topic, entitlement 0, all roles. */
  const DEFAULT_SPEC := AuthorizationSpec([46, 42], [46, 42], {0}, ALL_ROLES)

  /** The specifications of a reload: the file if one is named, else the command line, else the default. */
  function Selected(hasFile: bool, file: FileAnswer, commandLine: seq<AuthorizationSpec>)
    : Option<seq<AuthorizationSpec>>
  {
    if hasFile then
      match file
      case Unreadable => None
      case Specs(specs) => Some(specs)
    else if commandLine == [] then Some([DEFAULT_SPEC])
    else Some(commandLine)
  }

  class AuthorizationManager {
    const hasFile: bool
    const commandLine: seq<AuthorizationSpec>
    var repository: AuthorizationRepository

    constructor (hasFile: bool, commandLine: seq<AuthorizationSpec>)
      ensures this.hasFile == hasFile && this.commandLine == commandLine
      ensures fresh(repository) && fresh(repository.cache) && State() == Repository([], map[])
    {
      this.hasFile, this.commandLine := hasFile, commandLine;
      repository := new AuthorizationRepository([]);
    }

    ghost function State(): Repository
      reads this, repository, repository.cache
    {
      repository.State()
    }

    /** A reload starts with an empty cache; an unreadable file throws and changes nothing. */
    method Load(file: FileAnswer) returns (ok: bool)
      modifies this
      ensures ok <==> Selected(hasFile, file, commandLine).Some?
      ensures ok ==>
        fresh(repository) && fresh(repository.cache) &&
        State() == Repository(Selected(hasFile, file, commandLine).value, map[])
      ensures !ok ==> repository == old(repository)
      ensures hasFile ==> ok == file.Specs? && (ok ==> repository.specs == file.specs)
      ensures !hasFile && commandLine != [] ==> ok && repository.specs == commandLine
      ensures !hasFile && commandLine == [] ==>
        ok && repository.specs ==
        [AuthorizationSpec([46, 42], [46, 42], {0}, Role(subscriber := true, publisher := true, notifier := true))]
    {
      var selected := Selected(hasFile, file, commandLine);
      ok := selected.Some?;
      if ok {
        repository := new AuthorizationRepository(selected.value);
      }
    }

    method Entitlements(match_: Matcher, user: bytes, topic: bytes, role: Role) returns (e: set<int32>)
      modifies repository.cache
      ensures (State(), e) == old(State()).Consult(match_, user, topic, role)
    {
      e := repository.Entitlements(match_, user, topic, role);
    }
  }

  // ---- The cache is transparent over every run ----

  datatype Request = Lookup(user: bytes, topic: bytes, role: Role) | Reload(file: FileAnswer)

  /** The repository after a run of lookups and reloads, and the specifications then in force. */
  function After(match_: Matcher, hasFile: bool, commandLine: seq<AuthorizationSpec>, run: seq<Request>)
    : Repository
  {
    if run == [] then Repository([], map[])
    else
      var before := After(match_, hasFile, commandLine, run[..|run| - 1]);
      match run[|run| - 1]
      case Lookup(user, topic, role) => before.Consult(match_, user, topic, role).0
      case Reload(file) =>
        match Selected(hasFile, file, commandLine)
        case None => before
        case Some(specs) => Repository(specs, map[])
  }

  function InForce(hasFile: bool, commandLine: seq<AuthorizationSpec>, run: seq<Request>): seq<AuthorizationSpec> {
    if run == [] then []
    else
      var before := InForce(hasFile, commandLine, run[..|run| - 1]);
      match run[|run| - 1]
      case Lookup(_, _, _) => before
      case Reload(file) =>
        match Selected(hasFile, file, commandLine)
        case None => before
        case Some(specs) => specs
  }

  /** The specifications in force are those of the last reload that succeeded. */
  lemma {:induction false} InForceIsLastReload(
    hasFile: bool, commandLine: seq<AuthorizationSpec>, run: seq<Request>, i: nat)
    requires i < |run| && run[i].Reload?
    requires hasFile ==> run[i].file.Specs?
    requires forall j :: i < j < |run| ==> run[j].Lookup? || (hasFile && run[j].file.Unreadable?)
    ensures InForce(hasFile, commandLine, run) ==
      if hasFile then run[i].file.specs else if commandLine != [] then commandLine
      else [AuthorizationSpec([46, 42], [46, 42], {0}, Role(subscriber := true, publisher := true, notifier := true))]
  {
    var n := |run| - 1;
    if i < n {
      assert run[n].Lookup? || (hasFile && run[n].file.Unreadable?);
      InForceIsLastReload(hasFile, commandLine, run[..n], i);
    }
  }

  lemma ConsultIsSound(r: Repository, match_: Matcher, user: bytes, topic: bytes, role: Role)
    requires r.Sound(match_)
    ensures r.Consult(match_, user, topic, role).1 == FirstMatch(match_, r.specs, user, topic, role)
    ensures r.Consult(match_, user, topic, role).0.Sound(match_)
    ensures r.Consult(match_, user, topic, role).0.specs == r.specs
  {
    var r' := r.Consult(match_, user, topic, role).0;
    forall u, t, o | Cached(r'.cache, u, t, o).Some?
      ensures Cached(r'.cache, u, t, o).value == FirstMatch(match_, r'.specs, u, t, o)
    {
      if (u, t, o) != (user, topic, role) {
        assert Cached(r'.cache, u, t, o) == Cached(r.cache, u, t, o);
      }
    }
  }

  lemma {:induction false} RunIsSound(
    match_: Matcher, hasFile: bool, commandLine: seq<AuthorizationSpec>, run: seq<Request>)
    ensures After(match_, hasFile, commandLine, run).Sound(match_)
    ensures After(match_, hasFile, commandLine, run).specs == InForce(hasFile, commandLine, run)
  {
    if run != [] {
      RunIsSound(match_, hasFile, commandLine, run[..|run| - 1]);
      match run[|run| - 1]
      case Lookup(user, topic, role) =>
        ConsultIsSound(After(match_, hasFile, commandLine, run[..|run| - 1]), match_, user, topic, role);
      case Reload(_) =>
    }
  }

  /** After any lookups and reloads, the next lookup answers as if there were no cache. */
  lemma {:induction false} CacheTransparency(
    match_: Matcher, hasFile: bool, commandLine: seq<AuthorizationSpec>, run: seq<Request>,
    user: bytes, topic: bytes, role: Role)
    ensures After(match_, hasFile, commandLine, run).Consult(match_, user, topic, role).1
         == FirstMatch(match_, InForce(hasFile, commandLine, run), user, topic, role)
  {
    RunIsSound(match_, hasFile, commandLine, run);
    ConsultIsSound(After(match_, hasFile, commandLine, run), match_, user, topic, role);
  }
}
