/** The one-time destructive release: preflight, durable fence, one atomic replacement, and what may run beside it. */
module ReleaseProtocol {
  import opened Text

  // ----- the durable database -----

  const OldWebRole := "mycfc_app"
  const WebRole := "mycfc_disposable_web_20261001"
  const DatabaseName := "mycfc"

  /** An account as far as the replacement looks at it; adultFrom is the day of the eighteenth birthday. */
  datatype User = User(
    id: nat, email: Option<string>, verified: bool, bcrypt: bool, active: bool, dependent: bool, adultFrom: int,
    admin: bool)

  datatype Completion = Completion(
    database: string, version: string, candidate: string, predecessor: set<string>, final: set<string>,
    retiredAt: Option<int>, completedAt: int)

  datatype Receipt = Receipt(database: string, version: string, candidate: string, inventory: set<string>)

  /** The receipt table; protected when the bootstrap superuser owns it. */
  datatype ReceiptTable = ReceiptTable(protected: bool, rows: seq<Receipt>)

  /** Prepared: roles, extensions and the metadata schema exist, but no migration has been recorded. */
  datatype Schema = EmptySchema | Prepared | Deployed | Replaced

  /**
   * ledger: the recorded versions, None without the table. oldRole: None when the predecessor role does not exist,
   * otherwise whether it can log in. oldSession: the predecessor application is connected. data: what the application
   * has written. replacements counts the destructive commits; no step reads it.
   */
  datatype Db = Db(
    schema: Schema, ledger: Option<set<string>>, completion: Option<seq<Completion>>, receipt: Option<ReceiptTable>,
    oldRole: Option<bool>, oldSession: bool, webRole: bool, users: set<User>, data: seq<nat>, replacements: nat)

  // ----- a binary and a run of it -----

  /** Build inputs and reviewed inventories of one binary; a digest stands for the inventory it is taken of. */
  datatype Contract = Contract(
    version: string, candidate: string, wellFormed: bool, laterStable: bool, baselineReviewed: bool,
    embedded: set<string>, predecessor: set<string>, final: set<string>,
    genesis: set<string>, genesisVersion: string, genesisCandidate: string)

  datatype Credentials = Credentials(app: string, migration: string, media: string, retention: string)

  /** The identity and credentials a run is given, and what it finds in the catalogue. */
  datatype Run = Run(
    version: string, candidate: string, database: string, credentials: Credentials, inputValid: bool, secretsSafe: bool,
    superuser: bool, rolesOwned: bool, predecessorShape: bool, schemaValid: bool, today: int, now: int)

  predicate Unstamped(c: Contract) { c.version == "" && c.candidate == "" }

  predicate Matches(c: Contract, r: Run)
  {
    c.wellFormed && r.version == c.version && r.candidate == c.candidate && r.database == DatabaseName
  }

  function AppRole(c: Contract, role: string): string { if role == OldWebRole && c.wellFormed then WebRole else role }

  /** The login names a set of credentials configures, in the order of the role statements. */
  function Logins(k: Credentials): seq<string>
  {
    [k.app, k.migration] + (if k.media != "" then [k.media] else []) + (if k.retention != "" then [k.retention] else [])
  }

  /** The login names differ from each other. */
  predicate DistinctLogins(k: Credentials)
  {
    && k.app != k.migration
    && (k.media != "" ==> k.media != k.app && k.media != k.migration)
    && (k.retention != "" ==> k.retention != k.app && k.retention != k.migration && k.retention != k.media)
  }

  predicate InputAccepted(r: Run, k: Credentials) { r.inputValid && DistinctLogins(k) }

  function Renamed(c: Contract, r: Run): Credentials { r.credentials.(app := AppRole(c, r.credentials.app)) }

  /** Binding and credential checks of the destructive release, before the database is touched. */
  predicate Bound(c: Contract, r: Run)
  {
    && Matches(c, r) && r.credentials.app == OldWebRole
    && InputAccepted(r, r.credentials) && InputAccepted(r, r.credentials.(app := WebRole)) && r.secretsSafe
    && c.baselineReviewed && c.embedded == c.final
  }

  // ----- the fresh receipt and the completion record -----

  datatype Verdict = Yes | No | Error

  predicate CompatibleGenesis(c: Contract, r: Run, x: Receipt)
  {
    && Matches(c, r)
    && ((x.version == r.version && x.candidate == r.candidate)
        || (x.version == c.genesisVersion && x.candidate == c.genesisCandidate && c.laterStable))
  }

  predicate IsGenesis(c: Contract, x: Receipt)
  {
    x.version == c.genesisVersion && x.candidate == c.genesisCandidate && x.inventory == c.genesis
  }

  function FreshMatches(c: Contract, s: Db, r: Run): Verdict
  {
    if s.receipt == None then No
    else if !s.receipt.value.protected || |s.receipt.value.rows| != 1 then Error
    else
      var x := s.receipt.value.rows[0];
      if x.database != r.database || c.embedded != c.final || !CompatibleGenesis(c, r, x) then Error
      else if !IsGenesis(c, x) && !(x.inventory == c.embedded && x.version == r.version && x.candidate == r.candidate) then Error
      else if s.ledger != Some(c.embedded) && !(IsGenesis(c, x) && s.ledger == Some(c.genesis)) then Error
      else if !r.schemaValid then Error
      else Yes
  }

  predicate CompletionValid(c: Contract, r: Run, rows: seq<Completion>)
  {
    && |rows| == 1
    && var x := rows[0];
       && x.database == r.database && x.version == c.version && x.candidate == c.candidate
       && x.predecessor == c.predecessor && x.final == c.final
       && x.retiredAt.Some? && x.retiredAt.value <= x.completedAt
  }

  /** A completion record of this binary, with the final ledger in place. */
  predicate Completed(c: Contract, s: Db, r: Run)
  {
    s.completion.Some? && CompletionValid(c, r, s.completion.value) && s.ledger == Some(c.final)
  }

  /** Whether migration and hardening may proceed. */
  predicate MayMigrate(c: Contract, s: Db, r: Run)
  {
    || Unstamped(c)
    || (Matches(c, r) && (FreshMatches(c, s, r) == Yes || (FreshMatches(c, s, r) == No && Completed(c, s, r))))
  }

  // ----- preflight -----

  datatype Preflight = Refused | Ready | Complete

  predicate RecoverableLogin(u: User) { u.admin && u.active && !u.dependent && u.verified && u.bcrypt }

  /** Ready needs exactly the predecessor's namespaces, so no receipt and no completion schema beside them. */
  function Check(c: Contract, s: Db, r: Run): Preflight
  {
    if !r.superuser || !r.rolesOwned || s.ledger == None then Refused
    else if s.completion.Some? then (if Completed(c, s, r) then Complete else Refused)
    else if s.ledger.value != c.predecessor then Refused
    else if r.predecessorShape && s.receipt == None && !s.webRole && s.oldRole.Some?
            && (exists u :: u in s.users && RecoverableLogin(u)) then Ready
    else Refused
  }

  predicate ActiveAdultAdmin(u: User, today: int) { u.admin && u.active && !u.dependent && u.adultFrom <= today }

  /** The rows captured before the schemas are dropped. */
  function Retained(s: Db, today: int): set<User>
  {
    set u | u in s.users && ActiveAdultAdmin(u, today) && u.email.Some? && u.bcrypt
  }

  function ActiveAdultAdmins(s: Db, today: int): set<User> { set u | u in s.users && ActiveAdultAdmin(u, today) }

  /** The count comparison that guards the replacement. */
  predicate AdminsRecoverable(s: Db, today: int)
  {
    var kept := Retained(s, today);
    |kept| > 0 && (exists u :: u in kept && u.verified) && |kept| == |ActiveAdultAdmins(s, today)|
  }

  // ----- effects -----

  /** One role statement: the role exists afterwards and can log in. */
  function LoginConfigured(s: Db, name: string): Db
  {
    if name == OldWebRole then s.(oldRole := Some(true)) else if name == WebRole then s.(webRole := true) else s
  }

  function LoginsConfigured(s: Db, names: seq<string>): Db
    decreases |names|
  {
    if names == [] then s else LoginConfigured(LoginsConfigured(s, names[..|names| - 1]), names[|names| - 1])
  }

  function Prepare(s: Db): Db { if s.schema == EmptySchema then s.(schema := Prepared) else s }

  function FirstOf(names: seq<string>, n: nat): seq<string> { if n < |names| then names[..n] else names }

  /** The role statements run one by one outside a transaction; n of them took effect. */
  function RolesBootstrapped(s: Db, k: Credentials, n: nat): Db
  {
    if n == 0 then s else LoginsConfigured(Prepare(s), FirstOf(Logins(k), n))
  }

  function Migrated(c: Contract, s: Db): Db
  {
    s.(ledger := Some((if s.ledger.Some? then s.ledger.value else {}) + c.embedded),
       schema := if s.schema == Replaced then Replaced else Deployed)
  }

  predicate Empty(s: Db)
  {
    s.schema == EmptySchema && s.ledger == None && s.completion == None && s.receipt == None
  }

  /**
   * FreshInitializeDatabase stopped after n effects: four role statements, the migration, the receipt table, its row.
   * A migration that the schema contract rejects stops it before the fifth.
   */
  function FreshInitialized(c: Contract, s: Db, r: Run, n: nat): Db
  {
    var k := Renamed(c, r);
    if n <= 4 then RolesBootstrapped(s, k, n)
    else if !r.schemaValid then RolesBootstrapped(s, k, 4)
    else
      var m := Migrated(c, RolesBootstrapped(s, k, 4));
      if n == 5 then m
      else if n == 6 then m.(receipt := Some(ReceiptTable(true, [])))
      else m.(receipt := Some(ReceiptTable(true, [Receipt(r.database, c.version, c.candidate, c.embedded)])))
  }

  predicate FreshAllowed(c: Contract, s: Db, r: Run)
  {
    && InputAccepted(r, Renamed(c, r)) && r.credentials.media != "" && r.credentials.retention != ""
    && (Unstamped(c) || Matches(c, r)) && r.superuser && Empty(s)
  }

  /** The whole replacement transaction. */
  function Replacement(c: Contract, s: Db, r: Run): Db
  {
    var k := r.credentials.(app := WebRole);
    var roles := LoginsConfigured(s, Logins(k));
    roles.(schema := Replaced, ledger := Some(c.final), users := Retained(s, r.today), data := [],
           completion := Some([Completion(r.database, c.version, c.candidate, c.predecessor, c.final, Some(r.now), r.now)]),
           replacements := s.replacements + 1)
  }

  function Fenced(s: Db): Db { if s.oldRole.Some? then s.(oldRole := Some(false)) else s }

  // ----- the protocol as a machine -----

  /** How far the run holding the release lock has come. */
  datatype Phase =
    | Idle
    | Locked(c: Contract, r: Run)
    | Checked(c: Contract, r: Run, complete: bool)
    | FencedOff(c: Contract, r: Run, complete: bool)
    | Cleared(c: Contract, r: Run)
    | Passed(c: Contract, r: Run)

  datatype World = World(db: Db, phase: Phase)

  /**
   * Begin to Replace are the statements of the destructive release. Recheck is the second preflight, which only reads;
   * Replace is the rest of the transaction, from its lock to its commit. Stop is a failure, a crash or a cancellation
   * anywhere. The other events happen beside it, between any two statements.
   */
  datatype Event =
    | Begin(c: Contract, r: Run)
    | FirstPreflight
    | Fence
    | Terminate
    | Recheck
    | Replace
    | Stop
    | BootstrapRoles(c: Contract, r: Run, n: nat)
    | FreshInit(c: Contract, r: Run, n: nat)
    | Migrate(c: Contract, r: Run)
    | LoseCompletion
    | ForgeReceipt(rows: seq<Receipt>)
    | OldConnect
    | OldDisconnect
    | OldWrite(x: nat)
    | Write(x: nat)
    | EditUsers(users: set<User>)

  /** The statements of the destructive release, in the order they run. */
  function Script(c: Contract, r: Run): seq<Event> { [Begin(c, r), FirstPreflight, Fence, Terminate, Recheck, Replace] }

  predicate IsRelease(e: Event)
  {
    e.Begin? || e.FirstPreflight? || e.Fence? || e.Terminate? || e.Recheck? || e.Replace? || e.Stop?
  }

  function StepRelease(w: World, e: Event): World
    requires IsRelease(e)
  {
    match e
    case Begin(c, r) =>
      if w.phase.Idle? && !Unstamped(c) && Bound(c, r) && FreshMatches(c, w.db, r) == No then World(w.db, Locked(c, r)) else w
    case FirstPreflight =>
      if !w.phase.Locked? then w
      else
        var found := Check(w.phase.c, w.db, w.phase.r);
        World(w.db, if found == Refused then Idle else Checked(w.phase.c, w.phase.r, found == Complete))
    case Fence =>
      if !w.phase.Checked? then w else World(Fenced(w.db), FencedOff(w.phase.c, w.phase.r, w.phase.complete))
    case Terminate =>
      if !w.phase.FencedOff? then w
      else World(w.db.(oldSession := false), if w.phase.complete then Idle else Cleared(w.phase.c, w.phase.r))
    case Recheck =>
      if !w.phase.Cleared? then w
      else World(w.db, if Check(w.phase.c, w.db, w.phase.r) == Ready then Passed(w.phase.c, w.phase.r) else Idle)
    case Replace =>
      if !w.phase.Passed? then w
      else
        var c, r := w.phase.c, w.phase.r;
        World(if AdminsRecoverable(w.db, r.today) && r.schemaValid then Replacement(c, w.db, r) else w.db, Idle)
    case Stop => World(w.db, Idle)
  }

  function StepBeside(s: Db, e: Event): Db
    requires !IsRelease(e)
  {
    match e
    case BootstrapRoles(c, r, n) =>
      if Unstamped(c) && InputAccepted(r, r.credentials) then RolesBootstrapped(s, r.credentials, n)
      else if !Unstamped(c) && Matches(c, r) && FreshMatches(c, s, r) == Yes && InputAccepted(r, Renamed(c, r))
      then RolesBootstrapped(s, Renamed(c, r), n)
      else s
    case FreshInit(c, r, n) => if FreshAllowed(c, s, r) then FreshInitialized(c, s, r, n) else s
    case Migrate(c, r) => if MayMigrate(c, s, r) && r.schemaValid then Migrated(c, s) else s
    case LoseCompletion => s.(completion := None)
    case ForgeReceipt(rows) => if s.receipt == None then s.(receipt := Some(ReceiptTable(false, rows))) else s
    case OldConnect => if s.oldRole == Some(true) then s.(oldSession := true) else s
    case OldDisconnect => s.(oldSession := false)
    case OldWrite(x) => if s.oldSession then s.(data := s.data + [x]) else s
    case Write(x) => s.(data := s.data + [x])
    case EditUsers(users) => s.(users := users)
  }

  function Step(w: World, e: Event): World
  {
    if IsRelease(e) then StepRelease(w, e)
    else World(StepBeside(w.db, e), w.phase)
  }

  function After(w: World, run: seq<Event>): World
    decreases |run|
  {
    if run == [] then w else Step(After(w, run[..|run| - 1]), run[|run| - 1])
  }

  // ----- what the role statements may change -----

  lemma {:induction false} LoginsConfiguredFrame(s: Db, names: seq<string>)
    ensures var t := LoginsConfigured(s, names);
            t == s.(oldRole := if OldWebRole in names then Some(true) else s.oldRole, webRole := s.webRole || WebRole in names)
    decreases |names|
  {
    if names != [] {
      var rest, last := names[..|names| - 1], names[|names| - 1];
      LoginsConfiguredFrame(s, rest);
      assert names == rest + [last];
      DifferentRoles();
    }
  }

  lemma DifferentRoles()
    ensures OldWebRole != WebRole
  {
    assert |OldWebRole| != |WebRole|;
  }

  lemma RolesBootstrappedFrame(s: Db, k: Credentials, n: nat)
    ensures var t := RolesBootstrapped(s, k, n);
            && t == s.(oldRole := t.oldRole, webRole := t.webRole, schema := t.schema)
            && (t.oldRole != s.oldRole ==> t.oldRole == Some(true) && OldWebRole in FirstOf(Logins(k), n))
            && (n == 0 ==> t == s)
            && (n > 0 ==> t.schema != EmptySchema)
            && (n > 0 && OldWebRole in FirstOf(Logins(k), n) ==> t.oldRole == Some(true))
            && (t.schema == s.schema || (s.schema == EmptySchema && t.schema == Prepared))
  {
    LoginsConfiguredFrame(Prepare(s), FirstOf(Logins(k), n));
  }

  // ----- sealed databases: destruction is over -----

  /** A binary that carries the destructive release for this predecessor, towards an inventory the predecessor lacks. */
  predicate Replaces(predecessor: set<string>, c: Contract) { c.predecessor == predecessor && !(c.final <= predecessor) }

  /** Its own and the genesis inventory go beyond the predecessor too. */
  predicate Reviewed(predecessor: set<string>, c: Contract)
  {
    Replaces(predecessor, c) && !(c.embedded <= predecessor) && !(c.genesis <= predecessor)
  }

  /** Only the binaries that begin the release are constrained; any binary may bootstrap roles, initialise or migrate. */
  predicate EventReviewed(predecessor: set<string>, e: Event) { e.Begin? ==> Replaces(predecessor, e.c) }

  predicate PhaseReviewed(predecessor: set<string>, p: Phase) { !p.Idle? ==> Replaces(predecessor, p.c) }

  ghost predicate RunReviewed(predecessor: set<string>, run: seq<Event>)
  {
    forall i :: 0 <= i < |run| ==> EventReviewed(predecessor, run[i])
  }

  /** The ledger records a version the predecessor never had. */
  predicate Sealed(predecessor: set<string>, s: Db) { s.ledger.Some? && !(s.ledger.value <= predecessor) }

  predicate Protected(s: Db) { s.receipt.Some? && s.receipt.value.protected }

  /** What every step keeps about the destructive commit. */
  predicate Once(predecessor: set<string>, w: World)
  {
    && PhaseReviewed(predecessor, w.phase)
    && w.db.replacements <= 1
    && (w.db.replacements == 1 <==> w.db.schema == Replaced)
    && (w.db.replacements == 1 ==> Sealed(predecessor, w.db) && !Protected(w.db))
    && (w.phase.Passed? ==> w.db.replacements == 0 && w.db.ledger.Some? && !Protected(w.db))
  }

  /** A completion seals the database, and a database ready for replacement is not sealed. */
  lemma PreflightSeals(predecessor: set<string>, c: Contract, s: Db, r: Run)
    requires Replaces(predecessor, c)
    ensures Check(c, s, r) == Complete ==> Sealed(predecessor, s)
    ensures Check(c, s, r) == Ready ==> !Sealed(predecessor, s) && s.receipt == None && s.completion == None
  {
  }

  /** Everything that entitles a stamped run to migrate seals the database too. */
  lemma EntitlementSeals(predecessor: set<string>, c: Contract, s: Db, r: Run)
    requires Reviewed(predecessor, c)
    ensures Check(c, s, r) == Complete ==> Sealed(predecessor, s)
    ensures FreshMatches(c, s, r) == Yes ==> Sealed(predecessor, s) && Protected(s)
    ensures MayMigrate(c, s, r) && !Unstamped(c) ==> Sealed(predecessor, s)
    ensures Check(c, s, r) == Ready ==> !Sealed(predecessor, s) && s.receipt == None && s.completion == None
  {
    PreflightSeals(predecessor, c, s, r);
  }

  lemma FreshInitFrame(c: Contract, s: Db, r: Run, n: nat)
    ensures var t := FreshInitialized(c, s, r, n);
            && t == s.(oldRole := t.oldRole, webRole := t.webRole, schema := t.schema, ledger := t.ledger, receipt := t.receipt)
            && (s.schema == EmptySchema ==> t.schema != Replaced)
            && (t.ledger == s.ledger || t.ledger == Migrated(c, s).ledger)
            && (t.receipt != s.receipt ==> t.ledger == Migrated(c, s).ledger)
            && (t.oldRole != s.oldRole ==> t.oldRole == Some(true) && OldWebRole in Logins(Renamed(c, r)))
  {
    RolesBootstrappedFrame(s, Renamed(c, r), if n <= 4 then n else 4);
  }

  /** The role statements inside the replacement leave the predecessor role alone. */
  lemma ReplacementFrame(c: Contract, s: Db, r: Run)
    requires Bound(c, r)
    ensures Replacement(c, s, r) == s.(
              webRole := true, schema := Replaced, ledger := Some(c.final), users := Retained(s, r.today), data := [],
              completion := Some([Completion(r.database, c.version, c.candidate, c.predecessor, c.final, Some(r.now), r.now)]),
              replacements := s.replacements + 1)
  {
    BoundLogins(c, r);
    LoginsConfiguredFrame(s, Logins(r.credentials.(app := WebRole)));
  }

  lemma BoundLogins(c: Contract, r: Run)
    requires Bound(c, r)
    ensures var names := Logins(r.credentials.(app := WebRole)); OldWebRole !in names && WebRole in names
  {
    DifferentRoles();
    assert Logins(r.credentials.(app := WebRole))[0] == WebRole;
  }

  /** The phases past the binding check hold a bound run, and the second preflight passes only for the superuser. */
  predicate PhaseBound(p: Phase) { (!p.Idle? ==> Bound(p.c, p.r)) && (p.Passed? ==> p.r.superuser && p.r.rolesOwned) }

  lemma BesideKeepsSeal(predecessor: set<string>, s: Db, e: Event)
    requires !IsRelease(e)
    ensures var t := StepBeside(s, e);
            && (Sealed(predecessor, s) ==> Sealed(predecessor, t))
            && s.data <= t.data && t.replacements == s.replacements
            && ((s.schema == Replaced) == (t.schema == Replaced))
            && (s.ledger.Some? ==> t.ledger.Some? && (!Protected(s) ==> !Protected(t)))
  {
    hide Check, FreshMatches, MayMigrate, Logins, FreshInitialized, RolesBootstrapped;
    match e
    case BootstrapRoles(c, r, n) =>
      RolesBootstrappedFrame(s, r.credentials, n);
      RolesBootstrappedFrame(s, Renamed(c, r), n);
    case FreshInit(c, r, n) =>
      FreshInitFrame(c, s, r, n);
      if FreshAllowed(c, s, r) { assert s.ledger == None; }
    case Migrate(c, r) => assert s.ledger.Some? ==> s.ledger.value <= Migrated(c, s).ledger.value;
    case _ =>
  }

  /** A release stands between its second preflight and its commit, and nothing in the new schema will stop it. */
  predicate Due(p: Phase) { p.Passed? && p.r.schemaValid }

  /** With no release due, a sealed database stays so, loses nothing that was written, and is not replaced. */
  lemma StepKeepsSeal(predecessor: set<string>, w: World, e: Event)
    requires PhaseReviewed(predecessor, w.phase) && EventReviewed(predecessor, e) && Sealed(predecessor, w.db) && !Due(w.phase)
    ensures var v := Step(w, e);
            && PhaseReviewed(predecessor, v.phase) && Sealed(predecessor, v.db) && !Due(v.phase)
            && w.db.data <= v.db.data && v.db.replacements == w.db.replacements
  {
    hide Check, FreshMatches, MayMigrate, StepBeside, Replacement, Bound, AdminsRecoverable;
    if IsRelease(e) {
      if e.Recheck? && w.phase.Cleared? { PreflightSeals(predecessor, w.phase.c, w.db, w.phase.r); }
    } else {
      BesideKeepsSeal(predecessor, w.db, e);
    }
  }

  /**
   * Whatever runs, crashes, retries, role bootstraps, migrations and losses of the completion record follow, by whatever
   * binaries, everything written to a sealed database survives and the destructive replacement never commits again,
   * unless a release was due when the database was sealed.
   */
  lemma {:induction false} SealedForever(predecessor: set<string>, w: World, run: seq<Event>)
    requires PhaseReviewed(predecessor, w.phase) && RunReviewed(predecessor, run) && Sealed(predecessor, w.db) && !Due(w.phase)
    ensures var v := After(w, run);
            && PhaseReviewed(predecessor, v.phase) && Sealed(predecessor, v.db) && !Due(v.phase)
            && w.db.data <= v.db.data && v.db.replacements == w.db.replacements
    decreases |run|
  {
    hide Step, Sealed, Replaces, Due;
    if run != [] {
      var rest := run[..|run| - 1];
      SealedForever(predecessor, w, rest);
      StepKeepsSeal(predecessor, After(w, rest), run[|run| - 1]);
    }
  }

  /** Some continuation replaces the database once more. */
  ghost predicate MayStillBeReplaced(predecessor: set<string>, w: World)
  {
    exists run :: RunReviewed(predecessor, run) && After(w, run).db.replacements > w.db.replacements
  }

  /** The condition is exact: a sealed database can still be replaced precisely while a release is due. */
  lemma SealedForeverIff(predecessor: set<string>, w: World)
    requires PhaseReviewed(predecessor, w.phase) && PhaseBound(w.phase) && Sealed(predecessor, w.db)
    ensures MayStillBeReplaced(predecessor, w) <==> Due(w.phase)
  {
    if Due(w.phase) {
      var run := [EditUsers({OneAdmin(w.phase.r.today)}), Replace];
      DueReplaces(w);
      assert RunReviewed(predecessor, run);
    } else if run :| RunReviewed(predecessor, run) && After(w, run).db.replacements > w.db.replacements {
      SealedForever(predecessor, w, run);
    }
  }

  function OneAdmin(today: int): User { User(1, Some("admin"), true, true, true, false, today, true) }

  lemma DueReplaces(w: World)
    requires Due(w.phase) && PhaseBound(w.phase)
    ensures After(w, [EditUsers({OneAdmin(w.phase.r.today)}), Replace]).db.replacements == w.db.replacements + 1
  {
    var admin, today := OneAdmin(w.phase.r.today), w.phase.r.today;
    var run := [EditUsers({admin}), Replace];
    var v := World(w.db.(users := {admin}), w.phase);
    assert run[..1] == [EditUsers({admin})] && [EditUsers({admin})][..0] == [];
    assert After(w, []) == w;
    assert After(w, run[..1]) == v;
    assert Retained(v.db, today) == {admin} && ActiveAdultAdmins(v.db, today) == {admin};
    assert admin in Retained(v.db, today) && admin.verified;
    assert AdminsRecoverable(v.db, today);
    ReplacementFrame(w.phase.c, v.db, w.phase.r);
    hide Replacement, AdminsRecoverable, Bound;
  }

  lemma ReadyMeans(predecessor: set<string>, c: Contract, s: Db, r: Run)
    requires Replaces(predecessor, c) && Check(c, s, r) == Ready
    ensures !Sealed(predecessor, s) && s.ledger.Some? && !Protected(s) && r.superuser && r.rolesOwned
  {
  }

  lemma StepKeepsOnce(predecessor: set<string>, w: World, e: Event)
    requires Once(predecessor, w) && PhaseBound(w.phase) && EventReviewed(predecessor, e)
    ensures Once(predecessor, Step(w, e)) && PhaseBound(Step(w, e).phase)
  {
    hide Check, FreshMatches, MayMigrate, StepBeside, Replacement, Bound, AdminsRecoverable, Retained;
    if IsRelease(e) {
      if e.Recheck? && w.phase.Cleared? && Check(w.phase.c, w.db, w.phase.r) == Ready { ReadyMeans(predecessor, w.phase.c, w.db, w.phase.r); }
      if e.Replace? && w.phase.Passed? { ReplacementFrame(w.phase.c, w.db, w.phase.r); }
    } else {
      BesideKeepsSeal(predecessor, w.db, e);
    }
  }

  /** From a database never replaced before, the destructive replacement commits at most once in every run. */
  lemma {:induction false} ReplacedAtMostOnce(predecessor: set<string>, s: Db, run: seq<Event>)
    requires s.replacements == 0 && s.schema != Replaced && RunReviewed(predecessor, run)
    ensures var w := After(World(s, Idle), run); Once(predecessor, w) && PhaseBound(w.phase)
    decreases |run|
  {
    assert Once(predecessor, World(s, Idle)) && PhaseBound(Idle);
    hide Step, Once, PhaseBound;
    if run != [] {
      var rest := run[..|run| - 1];
      ReplacedAtMostOnce(predecessor, s, rest);
      StepKeepsOnce(predecessor, After(World(s, Idle), rest), run[|run| - 1]);
    }
  }

  /** So no release is ever due on a replaced database: everything written after the replacement survives every later run. */
  lemma WritesSurvive(predecessor: set<string>, s: Db, before: seq<Event>, later: seq<Event>)
    requires s.replacements == 0 && s.schema != Replaced && RunReviewed(predecessor, before) && RunReviewed(predecessor, later)
    requires After(World(s, Idle), before).db.replacements == 1
    ensures var w := After(World(s, Idle), before); var v := After(w, later);
            v.db.replacements == 1 && w.db.data <= v.db.data && Sealed(predecessor, v.db)
  {
    ReplacedAtMostOnce(predecessor, s, before);
    hide After, RunReviewed, Sealed;
    SealedForever(predecessor, After(World(s, Idle), before), later);
  }

  /**
   * A fresh initialisation seals the database from the moment its migration commits, but entitles its binary to
   * migrate again only once the receipt row is there: stopped between the two it can only be abandoned.
   */
  lemma FreshInitialisation(predecessor: set<string>, c: Contract, s: Db, r: Run, n: nat)
    requires Reviewed(predecessor, c) && FreshAllowed(c, s, r) && r.schemaValid && !Unstamped(c) && c.embedded == c.final
    ensures var t := FreshInitialized(c, s, r, n);
            && (n >= 5 <==> Sealed(predecessor, t))
            && (n >= 7 <==> MayMigrate(c, t, r))
            && (n > 0 ==> !FreshAllowed(c, t, r))
  {
    RolesBootstrappedFrame(s, Renamed(c, r), if n <= 4 then n else 4);
    hide RolesBootstrapped, Logins, InputAccepted, IsGenesis;
    var t := FreshInitialized(c, s, r, n);
    if n <= 4 {
    } else if n == 5 {
      assert t.receipt == None && t.completion == None;
    } else if n == 6 {
      assert t.receipt.value.rows == [];
    } else {
      assert {} + c.embedded == c.embedded;
      assert t.ledger == Some(c.embedded);
      assert t.receipt.value.rows[0].inventory == c.embedded;
    }
  }

  // ----- the fence -----

  /**
   * A role bootstrap that is carried out and reaches the predecessor's name: by an unstamped binary as named, by a
   * stamped one only under a matching fresh receipt and after its renaming.
   */
  predicate Opens(w: World, e: Event)
  {
    && e.BootstrapRoles?
    && (if Unstamped(e.c) then
          InputAccepted(e.r, e.r.credentials) && OldWebRole in FirstOf(Logins(e.r.credentials), e.n)
        else
          && Matches(e.c, e.r) && FreshMatches(e.c, w.db, e.r) == Yes && InputAccepted(e.r, Renamed(e.c, e.r))
          && OldWebRole in FirstOf(Logins(Renamed(e.c, e.r)), e.n))
  }

  /** The fence of a release whose first preflight passed. */
  predicate Fences(w: World, e: Event) { e.Fence? && w.phase.Checked? }

  /** The terminations after that fence. */
  predicate Expels(w: World, e: Event) { e.Terminate? && w.phase.FencedOff? }

  /** Of the openings and the fences of a run, the last one is an opening. */
  predicate Opened(w: World, run: seq<Event>)
    decreases |run|
  {
    run != [] &&
    var before, e := After(w, run[..|run| - 1]), run[|run| - 1];
    Opens(before, e) || (Opened(w, run[..|run| - 1]) && !Fences(before, e))
  }

  /** The predecessor connected while the fence was open, and has neither left nor been expelled since. */
  predicate Inside(w: World, run: seq<Event>)
    decreases |run|
  {
    run != [] &&
    var rest, e := run[..|run| - 1], run[|run| - 1];
    (e.OldConnect? && Opened(w, rest)) || (Inside(w, rest) && !e.OldDisconnect? && !Expels(After(w, rest), e))
  }

  predicate OpensAt(w: World, run: seq<Event>, i: nat) { i < |run| && Opens(After(w, run[..i]), run[i]) }

  predicate FencesAt(w: World, run: seq<Event>, i: nat) { i < |run| && Fences(After(w, run[..i]), run[i]) }

  /** Step i opens the fence and no later step closes it. */
  predicate OpensForGood(w: World, run: seq<Event>, i: nat)
  {
    OpensAt(w, run, i) && forall j: nat :: i < j < |run| ==> !FencesAt(w, run, j)
  }

  lemma SameStep(w: World, run: seq<Event>, i: nat)
    requires i + 1 < |run|
    ensures OpensAt(w, run[..|run| - 1], i) == OpensAt(w, run, i) && FencesAt(w, run[..|run| - 1], i) == FencesAt(w, run, i)
  {
    hide Opens, Fences, After;
    assert run[..|run| - 1][..i] == run[..i];
  }

  /** Opened, said without recursion. */
  lemma {:induction false} OpenedIff(w: World, run: seq<Event>)
    ensures Opened(w, run) <==> exists i: nat :: OpensForGood(w, run, i)
    decreases |run|
  {
    hide Opens, Fences, After;
    InRun(w, run);
    if run != [] {
      var rest, n := run[..|run| - 1], |run| - 1;
      OpenedIff(w, rest);
      InRun(w, rest);
      forall i: nat | i < n ensures OpensForGood(w, run, i) <==> OpensForGood(w, rest, i) && !FencesAt(w, run, n) {
        OpensLonger(w, run, i);
      }
      LastOpens(w, run);
      hide OpensForGood;
    }
  }

  lemma LastOpens(w: World, run: seq<Event>)
    requires run != []
    ensures OpensForGood(w, run, |run| - 1) <==> OpensAt(w, run, |run| - 1)
  {
    hide OpensAt, FencesAt;
  }

  lemma InRun(w: World, run: seq<Event>)
    ensures forall i: nat :: OpensForGood(w, run, i) ==> i < |run|
  {
  }

  lemma OpensLonger(w: World, run: seq<Event>, i: nat)
    requires i + 1 < |run|
    ensures OpensForGood(w, run, i) <==> OpensForGood(w, run[..|run| - 1], i) && !FencesAt(w, run, |run| - 1)
  {
    hide OpensAt, FencesAt;
    var rest, n := run[..|run| - 1], |run| - 1;
    SameStep(w, run, i);
    if OpensForGood(w, rest, i) && !FencesAt(w, run, n) {
      forall j: nat | i < j < |run| ensures !FencesAt(w, run, j) { if j < n { SameStep(w, run, j); } }
    }
    if OpensForGood(w, run, i) {
      forall j: nat | i < j < |rest| ensures !FencesAt(w, rest, j) { SameStep(w, run, j); }
    }
  }

  /** What is known of the predecessor once a release has fenced it off, or has replaced the schema. */
  predicate Tracked(w: World, unfenced: bool, inside: bool)
  {
    && PhaseBound(w.phase)
    && (w.phase.Checked? || w.phase.FencedOff? || w.phase.Cleared? || w.phase.Passed? || w.db.replacements > 0 ==> w.db.ledger.Some?)
    && (w.phase.FencedOff? || w.phase.Cleared? || w.phase.Passed? || w.db.replacements > 0 ==> (w.db.oldRole == Some(true) <==> unfenced))
    && (w.phase.Cleared? || w.phase.Passed? || w.db.replacements > 0 ==> (w.db.oldSession <==> inside))
  }

  lemma BesideAndFence(w: World, e: Event)
    requires !IsRelease(e)
    requires w.db.ledger.Some?
    ensures var s, t := w.db, StepBeside(w.db, e);
            && t.ledger.Some? && t.replacements == s.replacements
            && t.oldRole == (if Opens(w, e) then Some(true) else s.oldRole)
            && t.oldSession == (if e.OldConnect? then s.oldSession || s.oldRole == Some(true) else s.oldSession && !e.OldDisconnect?)
  {
    hide Check, FreshMatches, MayMigrate, Logins, FreshInitialized, RolesBootstrapped, FirstOf, InputAccepted;
    match e
    case BootstrapRoles(c, r, n) =>
      NothingFirst(Logins(r.credentials));
      NothingFirst(Logins(Renamed(c, r)));
      RolesBootstrappedFrame(w.db, r.credentials, n);
      RolesBootstrappedFrame(w.db, Renamed(c, r), n);
    case _ =>
  }

  lemma NothingFirst(names: seq<string>)
    ensures FirstOf(names, 0) == []
  {
  }

  lemma CountedBeside(s: Db, e: Event)
    requires !IsRelease(e)
    ensures StepBeside(s, e).replacements == s.replacements
  {
    BesideKeepsSeal({}, s, e);
  }

  lemma StepTracked(w: World, e: Event, unfenced: bool, inside: bool)
    requires Tracked(w, unfenced, inside)
    ensures Tracked(Step(w, e), Opens(w, e) || (unfenced && !Fences(w, e)),
                    (e.OldConnect? && unfenced) || (inside && !e.OldDisconnect? && !Expels(w, e)))
  {
    hide FreshMatches, MayMigrate, StepBeside, Replacement, Bound, AdminsRecoverable, Retained, FirstOf, Logins;
    if IsRelease(e) {
      if e.Replace? && w.phase.Passed? { ReplacementFrame(w.phase.c, w.db, w.phase.r); }
    } else {
      hide Opens, Check;
      CountedBeside(w.db, e);
      if w.db.ledger.Some? { BesideAndFence(w, e); }
    }
  }

  lemma {:induction false} TrackedAlways(s: Db, run: seq<Event>)
    requires s.replacements == 0
    ensures Tracked(After(World(s, Idle), run), Opened(World(s, Idle), run), Inside(World(s, Idle), run))
    decreases |run|
  {
    hide Step, Tracked, Opens, Fences, Expels;
    if run == [] {
      StartTracked(s);
    } else {
      var rest := run[..|run| - 1];
      TrackedAlways(s, rest);
      StepTracked(After(World(s, Idle), rest), run[|run| - 1], Opened(World(s, Idle), rest), Inside(World(s, Idle), rest));
    }
  }

  lemma StartTracked(s: Db)
    requires s.replacements == 0
    ensures Tracked(World(s, Idle), false, false)
  {
  }

  /**
   * In every run of whatever binaries, the predecessor role can log in on a replaced database exactly when a role
   * bootstrap opened it again after the last fence; what happened before that fence does not matter.
   */
  lemma PredecessorStaysOut(s: Db, run: seq<Event>)
    requires s.replacements == 0
    ensures var w := After(World(s, Idle), run);
            w.db.replacements > 0 ==> (w.db.oldRole == Some(true) <==> Opened(World(s, Idle), run))
  {
    hide After, Opened, Inside;
    TrackedAlways(s, run);
  }

  /** And it reaches the replaced database exactly when it connected through such an opening and is still inside. */
  lemma PredecessorWritesIff(s: Db, run: seq<Event>, x: nat)
    requires s.replacements == 0
    ensures var w := After(World(s, Idle), run);
            w.db.replacements > 0 ==>
              && (Step(w, OldWrite(x)) != w <==> Inside(World(s, Idle), run))
              && (Step(w, OldConnect) != w <==> Opened(World(s, Idle), run) && !Inside(World(s, Idle), run))
  {
    hide After, Opened, Inside;
    TrackedAlways(s, run);
    var w := After(World(s, Idle), run);
    assert |w.db.data + [x]| == |w.db.data| + 1;
  }

  /** One step decides it: without a protected receipt, as on every replaced database, only an unstamped binary opens. */
  lemma FenceOpensIff(w: World, e: Event)
    requires PhaseBound(w.phase) && w.db.ledger.Some?
    ensures Step(w, e).db.oldRole == Some(true) <==> Opens(w, e) || (w.db.oldRole == Some(true) && !Fences(w, e))
    ensures Opens(w, e) && !Protected(w.db) ==> Unstamped(e.c)
  {
    hide MayMigrate, StepBeside, Replacement, Bound, AdminsRecoverable, Retained, FirstOf, Logins, InputAccepted, Check;
    if IsRelease(e) {
      if e.Replace? && w.phase.Passed? { ReplacementFrame(w.phase.c, w.db, w.phase.r); }
    } else {
      BesideAndFence(w, e);
    }
  }

  // ----- stopping, retrying, recovering -----

  /** The replacement keeps exactly the active adult administrators, unchanged, and at least one of them is verified. */
  lemma ReplacementKeepsAdmins(w: World)
    requires w.phase.Passed? && PhaseBound(w.phase)
    requires Step(w, Replace).db.replacements != w.db.replacements
    ensures var t := Step(w, Replace).db; var today := w.phase.r.today;
            && (forall u :: u in t.users <==> u in w.db.users && u.admin && u.active && !u.dependent && u.adultFrom <= today)
            && (exists u :: u in t.users && u.verified && u.bcrypt && u.email.Some?)
            && Check(w.phase.c, t, w.phase.r) == Complete
  {
    var c, r := w.phase.c, w.phase.r;
    ReplacementFrame(c, w.db, r);
    var kept, all := Retained(w.db, r.today), ActiveAdultAdmins(w.db, r.today);
    SameSizeSubset(kept, all);
    var u :| u in kept && u.verified;
    assert u in Step(w, Replace).db.users;
  }

  /**
   * A replacement that has passed the second preflight commits exactly when the new schema is accepted, every active adult
   * administrator has an email address and a bcrypt password, and one of them is verified.
   */
  lemma CommitsIff(w: World)
    requires w.phase.Passed? && PhaseBound(w.phase)
    ensures Step(w, Replace).db.replacements != w.db.replacements <==>
            && w.phase.r.schemaValid
            && (forall u :: u in w.db.users && u.admin && u.active && !u.dependent && u.adultFrom <= w.phase.r.today ==>
                  u.email.Some? && u.bcrypt)
            && (exists u :: u in w.db.users && u.admin && u.active && !u.dependent && u.adultFrom <= w.phase.r.today && u.verified)
  {
    hide Bound, Replacement, AdminsRecoverable;
    ReplacementFrame(w.phase.c, w.db, w.phase.r);
    RecoverableIff(w.db, w.phase.r.today);
  }

  lemma KeptUsers(s: Db, today: int)
    requires AdminsRecoverable(s, today)
    ensures forall u :: u in Retained(s, today) <==> u in s.users && u.admin && u.active && !u.dependent && u.adultFrom <= today
  {
    SameSizeSubset(Retained(s, today), ActiveAdultAdmins(s, today));
  }

  lemma RecoverableIff(s: Db, today: int)
    ensures AdminsRecoverable(s, today) <==>
            && (forall u :: u in s.users && u.admin && u.active && !u.dependent && u.adultFrom <= today ==> u.email.Some? && u.bcrypt)
            && (exists u :: u in s.users && u.admin && u.active && !u.dependent && u.adultFrom <= today && u.verified)
  {
    var kept, all := Retained(s, today), ActiveAdultAdmins(s, today);
    assert kept <= all;
    if |kept| == |all| {
      SameSizeSubset(kept, all);
      forall u | u in s.users && u.admin && u.active && !u.dependent && u.adultFrom <= today ensures u.email.Some? && u.bcrypt {
        assert u in all;
      }
    }
    if forall v :: v in s.users && v.admin && v.active && !v.dependent && v.adultFrom <= today ==> v.email.Some? && v.bcrypt {
      assert kept == all;
      if u :| u in s.users && u.admin && u.active && !u.dependent && u.adultFrom <= today && u.verified { assert u in kept; }
    }
  }

  lemma SameSizeSubset<T>(a: set<T>, b: set<T>)
    requires a <= b && |a| == |b|
    ensures a == b
  {
    var rest := b - a;
    assert b == a + rest && a !! rest;
    assert |rest| == 0;
  }

  /**
   * A committed replacement is recognised by its own binary: it may migrate, until the completion record is lost, unless
   * a receipt that does not fit is in the way.
   */
  lemma ReplacementEntitles(w: World)
    requires w.phase.Passed? && PhaseBound(w.phase)
    requires Step(w, Replace).db.replacements != w.db.replacements
    ensures var t := Step(w, Replace).db;
            && (MayMigrate(w.phase.c, t, w.phase.r) <==> Unstamped(w.phase.c) || FreshMatches(w.phase.c, t, w.phase.r) != Error)
            && (MayMigrate(w.phase.c, Step(World(t, Idle), LoseCompletion).db, w.phase.r) <==>
                Unstamped(w.phase.c) || FreshMatches(w.phase.c, t, w.phase.r) == Yes)
            && (w.db.receipt == None ==> FreshMatches(w.phase.c, t, w.phase.r) == No)
  {
    ReplacementFrame(w.phase.c, w.db, w.phase.r);
  }

  // ----- the sequential program -----

  /** The last statement that took effect; the run either goes on to the next or stops. */
  function Stopped(c: Contract, s: Db, r: Run, k: nat): Db
    requires k <= 6
  {
    After(After(World(s, Idle), Script(c, r)[..k]), [Stop]).db
  }

  lemma AfterOne(w: World, e: Event)
    ensures After(w, [e]) == Step(w, e)
  {
    assert [e][..0] == [];
    assert After(w, []) == w;
  }

  lemma AfterTwo(w: World, e: Event, f: Event)
    ensures After(w, [e, f]) == Step(Step(w, e), f)
  {
    hide Step;
    assert [e, f][..1] == [e];
    AfterOne(w, e);
  }

  lemma ScriptStep(c: Contract, s: Db, r: Run, k: nat)
    requires k < 6
    ensures After(World(s, Idle), Script(c, r)[..k + 1]) == Step(After(World(s, Idle), Script(c, r)[..k]), Script(c, r)[k])
  {
    hide Step;
    var run := Script(c, r)[..k + 1];
    assert run[..k] == Script(c, r)[..k];
  }

  /** Begin and the first preflight passed on s. */
  predicate Admitted(c: Contract, s: Db, r: Run)
  {
    !Unstamped(c) && Bound(c, r) && FreshMatches(c, s, r) == No && Check(c, s, r) != Refused
  }

  /** What the uninterrupted script leaves, by its first k statements. */
  function Reached(c: Contract, s: Db, r: Run, k: nat): Db
    requires k <= 6
  {
    if !Admitted(c, s, r) || k < 3 then s
    else if k == 3 then Fenced(s)
    else
      var out := Fenced(s).(oldSession := false);
      if k == 6 && Check(c, s, r) == Ready && AdminsRecoverable(s, r.today) && r.schemaValid then Replacement(c, out, r)
      else out
  }

  /** The preflight and the administrator check do not look at the fence. */
  lemma FenceIsInvisible(c: Contract, s: Db, r: Run)
    ensures var t := Fenced(s); var out := t.(oldSession := false);
            && Check(c, t, r) == Check(c, s, r) && Check(c, out, r) == Check(c, s, r)
            && AdminsRecoverable(out, r.today) == AdminsRecoverable(s, r.today)
            && FreshMatches(c, t, r) == FreshMatches(c, s, r) && FreshMatches(c, out, r) == FreshMatches(c, s, r)
  {
    hide Completed, RecoverableLogin, ActiveAdultAdmin;
    assert Completed(c, Fenced(s), r) == Completed(c, s, r) by { CompletedFrame(c, s, Fenced(s), r); }
    CompletedFrame(c, s, Fenced(s).(oldSession := false), r);
    var out := Fenced(s).(oldSession := false);
    assert Retained(out, r.today) == Retained(s, r.today);
    assert ActiveAdultAdmins(out, r.today) == ActiveAdultAdmins(s, r.today);
  }

  lemma CompletedFrame(c: Contract, s: Db, t: Db, r: Run)
    requires t.completion == s.completion && t.ledger == s.ledger
    ensures Completed(c, t, r) == Completed(c, s, r)
  {
  }

  function ReachedPhase(c: Contract, s: Db, r: Run, k: nat): Phase
    requires k <= 6
  {
    if k == 0 || !(!Unstamped(c) && Bound(c, r) && FreshMatches(c, s, r) == No) then Idle
    else if k == 1 then Locked(c, r)
    else if !Admitted(c, s, r) then Idle
    else if k == 2 then Checked(c, r, Check(c, s, r) == Complete)
    else if k == 3 then FencedOff(c, r, Check(c, s, r) == Complete)
    else if k == 4 && Check(c, s, r) != Complete then Cleared(c, r)
    else if k == 5 && Check(c, s, r) != Complete then Passed(c, r)
    else Idle
  }

  lemma {:induction false} ScriptReaches(c: Contract, s: Db, r: Run, k: nat)
    requires k <= 6
    ensures After(World(s, Idle), Script(c, r)[..k]) == World(Reached(c, s, r, k), ReachedPhase(c, s, r, k))
  {
    hide Check, FreshMatches, Bound, AdminsRecoverable, Replacement, Fenced, After;
    if k == 0 {
      assert Script(c, r)[..0] == [];
      EmptyRun(World(s, Idle));
    } else {
      ScriptReaches(c, s, r, k - 1);
      ScriptStep(c, s, r, k - 1);
      FenceIsInvisible(c, s, r);
    }
  }

  lemma EmptyRun(w: World)
    ensures After(w, []) == w
  {
  }

  /**
   * Retry converges: stop a run after any of its statements, run the release again, and the database is the one that a
   * single uninterrupted run leaves.
   */
  lemma RetryConverges(c: Contract, s: Db, r: Run, k: nat)
    requires k <= 6
    ensures var whole := After(World(s, Idle), Script(c, r)).db;
            After(World(Stopped(c, s, r, k), Idle), Script(c, r)).db == whole
  {
    assert Script(c, r)[..6] == Script(c, r);
    ScriptReaches(c, s, r, k);
    ScriptReaches(c, s, r, 6);
    AfterOne(After(World(s, Idle), Script(c, r)[..k]), Stop);
    var t := Stopped(c, s, r, k);
    ScriptReaches(c, t, r, 6);
    hide Check, FreshMatches, Bound, AdminsRecoverable, After, Script, Replacement;
    FenceIsInvisible(c, s, r);
    if Admitted(c, s, r) {
      FenceTwice(s);
      if Check(c, s, r) == Ready && AdminsRecoverable(s, r.today) && r.schemaValid && k == 6 {
        ReplacedIsComplete(c, Fenced(s).(oldSession := false), r);
      }
    }
  }

  lemma FenceTwice(s: Db)
    ensures var out := Fenced(s).(oldSession := false);
            && Fenced(Fenced(s)).(oldSession := false) == out && Fenced(out).(oldSession := false) == out
  {
  }

  lemma ReplacedIsComplete(c: Contract, s: Db, r: Run)
    requires Bound(c, r) && Check(c, s, r) == Ready && s.oldRole != Some(true) && !s.oldSession
    ensures var t := Replacement(c, s, r);
            && Check(c, t, r) == Complete && FreshMatches(c, t, r) == No && Fenced(t).(oldSession := false) == t
  {
    ReplacementFrame(c, s, r);
    assert Check(c, Replacement(c, s, r), r) == Complete;
    hide Check, FreshMatches;
    var t := Replacement(c, s, r);
    FenceIdle(t);
  }

  lemma FenceIdle(s: Db)
    requires s.oldRole != Some(true) && !s.oldSession
    ensures Fenced(s).(oldSession := false) == s
  {
    if s.oldRole.Some? {
      assert s.oldRole == Some(s.oldRole.value);
      assert !s.oldRole.value;
    }
  }

  /** Stopped at any statement before the commit, a release leaves the database as it was but for the fence and the sessions. */
  lemma StopLeavesOnlyTheFence(c: Contract, s: Db, r: Run, k: nat)
    requires k <= 6
    ensures var t := Stopped(c, s, r, k);
            t.replacements == s.replacements ==>
              && t == s.(oldRole := t.oldRole, oldSession := t.oldSession)
              && (t.oldRole != s.oldRole ==> k >= 3 && t.oldRole == Some(false))
              && (t.oldSession != s.oldSession ==> k >= 4 && !t.oldSession)
    ensures k < 6 ==> Stopped(c, s, r, k).replacements == s.replacements
  {
    StoppedIsReached(c, s, r);
    hide Check, FreshMatches, Bound, AdminsRecoverable, After, Script, Stopped, Retained;
    if Admitted(c, s, r) && k == 6 {
      AdmittedIsBound(c, s, r);
      ReplacementFrame(c, Fenced(s).(oldSession := false), r);
    }
  }

  lemma AdmittedIsBound(c: Contract, s: Db, r: Run)
    requires Admitted(c, s, r)
    ensures Bound(c, r)
  {
  }

  // ----- how the predecessor gets back in -----

  lemma {:induction false} AfterConcat(w: World, a: seq<Event>, b: seq<Event>)
    ensures After(w, a + b) == After(After(w, a), b)
    decreases |b|
  {
    hide Step;
    if b == [] {
      assert a + b == a;
    } else {
      assert (a + b)[..|a + b| - 1] == a + b[..|b| - 1];
      AfterConcat(w, a, b[..|b| - 1]);
    }
  }

  /** A role bootstrap by an unstamped binary, stopped after its first statement, with the predecessor's name as its app login. */
  predicate NamesPredecessor(u: Contract, b: Run)
  {
    Unstamped(u) && InputAccepted(b, b.credentials) && b.credentials.app == OldWebRole
  }

  lemma OpeningStep(w: World, u: Contract, b: Run)
    requires NamesPredecessor(u, b)
    ensures var t := Step(w, BootstrapRoles(u, b, 1)).db;
            t == w.db.(oldRole := Some(true), schema := t.schema) && Opens(w, BootstrapRoles(u, b, 1))
  {
    var first := FirstOf(Logins(b.credentials), 1);
    assert first == [OldWebRole];
    DifferentRoles();
    LoginsConfiguredFrame(Prepare(w.db), first);
    hide LoginsConfigured, FirstOf, Logins;
  }

  /** After the opening the predecessor connects and writes. */
  lemma GetsIn(w: World, x: nat)
    requires w.db.oldRole == Some(true)
    ensures After(w, [OldConnect, OldWrite(x)]) == World(w.db.(oldSession := true, data := w.db.data + [x]), w.phase)
  {
    assert [OldConnect, OldWrite(x)][..1] == [OldConnect];
    assert [OldConnect][..0] == [];
    assert After(w, []) == w;
  }

  /** The release is going to replace this database. */
  predicate Replaceable(c: Contract, s: Db, r: Run)
  {
    Admitted(c, s, r) && Check(c, s, r) == Ready && AdminsRecoverable(s, r.today) && r.schemaValid
  }

  ghost predicate PredecessorWrote(s: Db, w: World, x: nat)
  {
    w.db.replacements == s.replacements + 1 && w.db.schema == Replaced && w.db.oldRole == Some(true) && w.db.data == [x]
  }

  /** First witness: the role bootstrap runs after the replacement. */
  lemma OpenedAfterReplacement(c: Contract, s: Db, r: Run, u: Contract, b: Run, x: nat)
    requires Replaceable(c, s, r) && NamesPredecessor(u, b)
    ensures PredecessorWrote(s, After(World(s, Idle), Script(c, r) + [BootstrapRoles(u, b, 1)] + [OldConnect, OldWrite(x)]), x)
  {
    assert Script(c, r)[..6] == Script(c, r);
    ScriptReaches(c, s, r, 6);
    var w := After(World(s, Idle), Script(c, r));
    AdmittedIsBound(c, s, r);
    ReplacementFrame(c, Fenced(s).(oldSession := false), r);
    assert w.db.schema == Replaced && w.db.data == [] && w.db.replacements == s.replacements + 1;
    hide Replacement, Check, FreshMatches, Bound, AdminsRecoverable, Script;
    AfterConcat(World(s, Idle), Script(c, r), [BootstrapRoles(u, b, 1)]);
    AfterOne(w, BootstrapRoles(u, b, 1));
    OpeningStep(w, u, b);
    KeepsReplaced(w, u, b);
    var v := Step(w, BootstrapRoles(u, b, 1));
    AfterConcat(World(s, Idle), Script(c, r) + [BootstrapRoles(u, b, 1)], [OldConnect, OldWrite(x)]);
    GetsIn(v, x);
    hide After, Step;
  }

  lemma KeepsReplaced(w: World, u: Contract, b: Run)
    ensures w.db.schema == Replaced ==> Step(w, BootstrapRoles(u, b, 1)).db.schema == Replaced
  {
    BesideKeepsSeal({}, w.db, BootstrapRoles(u, b, 1));
  }

  /** The second preflight does not see that the fence was opened. */
  lemma OpeningIsInvisible(c: Contract, s: Db, r: Run, t: Db)
    requires s.oldRole.Some? && t == s.(oldRole := Some(true), oldSession := false, schema := t.schema)
    ensures Check(c, t, r) == Check(c, s, r) && AdminsRecoverable(t, r.today) == AdminsRecoverable(s, r.today)
  {
    hide Completed, RecoverableLogin, ActiveAdultAdmin;
    CompletedFrame(c, s, t, r);
    assert Retained(t, r.today) == Retained(s, r.today);
    assert ActiveAdultAdmins(t, r.today) == ActiveAdultAdmins(s, r.today);
  }

  lemma ReplacesOpened(c: Contract, s: Db, r: Run, v: World) returns (z: World)
    requires Replaceable(c, s, r) && v.phase == Cleared(c, r)
    requires v.db == s.(oldRole := Some(true), oldSession := false, schema := v.db.schema)
    ensures z == After(v, [Recheck, Replace])
    ensures z.db.schema == Replaced && z.db.data == [] && z.db.oldRole == Some(true) && z.db.replacements == s.replacements + 1
  {
    AfterTwo(v, Recheck, Replace);
    z := Step(Step(v, Recheck), Replace);
    ReadyHasRole(c, s, r);
    OpeningIsInvisible(c, s, r, v.db);
    AdmittedIsBound(c, s, r);
    ReplacementFrame(c, v.db, r);
    hide After, Check, Bound, AdminsRecoverable, Replacement, Retained;
  }

  lemma ReadyHasRole(c: Contract, s: Db, r: Run)
    requires Check(c, s, r) == Ready
    ensures s.oldRole.Some?
  {
  }

  /** Second witness: the role bootstrap, which does not take the release lock, runs between the fence and the replacement. */
  lemma OpenedBeforeReplacement(c: Contract, s: Db, r: Run, u: Contract, b: Run, x: nat)
    requires Replaceable(c, s, r) && NamesPredecessor(u, b)
    ensures PredecessorWrote(s, After(World(s, Idle), Script(c, r)[..4] + [BootstrapRoles(u, b, 1)] + [Recheck, Replace] + [OldConnect, OldWrite(x)]), x)
  {
    var head := Script(c, r)[..4] + [BootstrapRoles(u, b, 1)];
    hide After, Script, Step, Replaceable, NamesPredecessor;
    var v := OpenedWhenCleared(c, s, r, u, b);
    var z := ReplacesOpened(c, s, r, v);
    AfterConcat(World(s, Idle), head, [Recheck, Replace]);
    AfterConcat(World(s, Idle), head + [Recheck, Replace], [OldConnect, OldWrite(x)]);
    GetsIn(z, x);
  }

  lemma OpenedWhenCleared(c: Contract, s: Db, r: Run, u: Contract, b: Run) returns (v: World)
    requires Replaceable(c, s, r) && NamesPredecessor(u, b)
    ensures v == After(World(s, Idle), Script(c, r)[..4] + [BootstrapRoles(u, b, 1)])
    ensures v.phase == Cleared(c, r) && v.db == s.(oldRole := Some(true), oldSession := false, schema := v.db.schema)
  {
    ScriptReaches(c, s, r, 4);
    var head := Script(c, r)[..4];
    var w := After(World(s, Idle), head);
    hide After, Script, Check, Bound, FreshMatches, AdminsRecoverable;
    AfterConcat(World(s, Idle), head, [BootstrapRoles(u, b, 1)]);
    AfterOne(w, BootstrapRoles(u, b, 1));
    OpeningStep(w, u, b);
    v := Step(w, BootstrapRoles(u, b, 1));
  }

  /** A binary that does not ask for a completion and brings a version the predecessor lacks. */
  predicate MigratesBeyond(c: Contract, u: Contract, m: Run)
  {
    Unstamped(u) && m.schemaValid && !(u.embedded <= c.predecessor)
  }

  /**
   * Why a due release is excepted: a migration takes another lock, so it may commit after the second preflight has read
   * the ledger. The database is sealed then, and still replaced; what was written is lost.
   */
  lemma SealedTooLate(c: Contract, s: Db, r: Run, u: Contract, m: Run)
    requires Replaceable(c, s, r) && MigratesBeyond(c, u, m)
    ensures var w := After(World(s, Idle), Script(c, r)[..5] + [Migrate(u, m)]);
            && Sealed(c.predecessor, w.db) && w.db.data == s.data
            && Step(w, Replace).db.replacements == s.replacements + 1 && Step(w, Replace).db.data == []
  {
    ScriptReaches(c, s, r, 5);
    var head := Script(c, r)[..5];
    var w := After(World(s, Idle), head);
    AfterConcat(World(s, Idle), head, [Migrate(u, m)]);
    AfterOne(w, Migrate(u, m));
    var v := Step(w, Migrate(u, m));
    assert v.phase == Passed(c, r) && v.db.users == s.users && v.db.data == s.data && v.db.replacements == s.replacements;
    assert u.embedded <= v.db.ledger.value;
    assert Retained(v.db, r.today) == Retained(s, r.today) && ActiveAdultAdmins(v.db, r.today) == ActiveAdultAdmins(s, r.today);
    assert AdminsRecoverable(v.db, r.today);
    AdmittedIsBound(c, s, r);
    ReplacementFrame(c, v.db, r);
    hide After, Script, Check, Bound, AdminsRecoverable, Retained, Replacement;
  }

  /** Such databases and binaries exist: a concrete release, and a development binary with the predecessor's credentials. */
  lemma ConcreteRelease() returns (c: Contract, s: Db, r: Run, u: Contract, b: Run)
    ensures Replaceable(c, s, r) && NamesPredecessor(u, b) && MigratesBeyond(c, u, b) && s.replacements == 0 && s.data != []
  {
    var admin := User(1, Some("admin"), true, true, true, false, 0, true);
    var k := Credentials(OldWebRole, "m", "", "");
    c := Contract("v2.0.3", "c", true, true, true, {"1", "2"}, {"1"}, {"1", "2"}, {"2"}, "v2.0.2", "g");
    s := Db(Deployed, Some({"1"}), None, None, Some(true), false, false, {admin}, [7], 0);
    r := Run("v2.0.3", "c", DatabaseName, k, true, true, true, true, true, true, 0, 0);
    u := c.(version := "", candidate := "");
    b := r;
    assert |OldWebRole| != |"m"| && |WebRole| != |"m"|;
    assert Bound(c, r);
    assert admin in s.users && RecoverableLogin(admin);
    assert Check(c, s, r) == Ready;
    hide Check, Bound, FreshMatches;
    assert FreshMatches(c, s, r) == No by { NoReceipt(c, s, r); }
    assert Retained(s, 0) == {admin} && ActiveAdultAdmins(s, 0) == {admin};
    assert admin in Retained(s, 0) && admin.verified;
    assert "2" in u.embedded && "2" !in c.predecessor;
  }

  lemma NoReceipt(c: Contract, s: Db, r: Run)
    requires s.receipt == None
    ensures FreshMatches(c, s, r) == No
  {
  }

  // ----- the program itself -----

  datatype Outcome = Done | Failed

  class Server {
    var db: Db

    constructor (s: Db)
      ensures db == s
    {
      db := s;
    }

    /** FreshInitializationMatches: three reads, in order. */
    method FreshInitializationMatches(c: Contract, r: Run) returns (verdict: Verdict)
      ensures verdict == FreshMatches(c, db, r)
    {
      if db.receipt == None { return No; }
      if !db.receipt.value.protected { return Error; }
      var rows := db.receipt.value.rows;
      if |rows| != 1 || rows[0].database != r.database { return Error; }
      var genesis := IsGenesis(c, rows[0]);
      if c.embedded != c.final || !CompatibleGenesis(c, r, rows[0])
         || !(genesis || (rows[0].inventory == c.embedded && rows[0].version == r.version && rows[0].candidate == r.candidate)) {
        return Error;
      }
      if db.ledger != Some(c.embedded) && !(genesis && db.ledger == Some(c.genesis)) { return Error; }
      return if r.schemaValid then Yes else Error;
    }

    /** requireDisposableCompletion. */
    method RequireDisposableCompletion(c: Contract, r: Run) returns (proceed: bool)
      ensures proceed == MayMigrate(c, db, r)
      ensures forall predecessor :: Reviewed(predecessor, c) && !Unstamped(c) && proceed ==> Sealed(predecessor, db)
    {
      if Unstamped(c) { return true; }
      if !Matches(c, r) { return false; }
      var verdict := FreshInitializationMatches(c, r);
      if verdict == Error { return false; }
      if verdict == Yes { return true; }
      return Completed(c, db, r);
    }

    /**
     * BootstrapDisposableRelease, with the entry checks of bootstrapRelease. budget is the number of statements that
     * succeed; the replacement works on its own copy until its commit. The database is left as the machine leaves it
     * when stopped after the statement reached.
     */
    method BootstrapDisposableRelease(c: Contract, r: Run, budget: nat) returns (outcome: Outcome, reached: nat)
      modifies this
      ensures reached <= 6 && reached <= budget && db == Stopped(c, old(db), r, reached)
      ensures outcome == Done ==> Check(c, db, r) == Complete && db.oldRole != Some(true) && !db.oldSession
      ensures outcome == Done <==>
              Admitted(c, old(db), r) && (if Check(c, old(db), r) == Complete then budget >= 4
                                          else budget >= 6 && AdminsRecoverable(old(db), r.today) && r.schemaValid)
    {
      StoppedIsReached(c, db, r);
      FenceIsInvisible(c, db, r);
      if Unstamped(c) || !Bound(c, r) || budget == 0 { return Failed, 0; }
      var verdict := FreshInitializationMatches(c, r);
      if verdict != No { return Failed, 1; }
      if budget == 1 { return Failed, 1; }
      var found := Check(c, db, r);
      if found == Refused || budget == 2 { return Failed, 2; }
      if db.oldRole.Some? { db := db.(oldRole := Some(false)); }
      if budget == 3 { return Failed, 3; }
      db := db.(oldSession := false);
      if found == Complete { return Done, 4; }
      if budget == 4 { return Failed, 4; }
      var again := Check(c, db, r);
      if budget == 5 { return Failed, 5; }
      ghost var out := db;
      if again == Ready {
        var committed := ReplacementTransaction(c, db, r);
        if committed.Some? {
          db := committed.value;
          ReplacementFrame(c, out, r);
          ReplacedIsComplete(c, out, r);
          return Done, 6;
        }
      }
      return Failed, 6;
    }

    /** The statements from the lock to the commit work on a copy; a failure leaves nothing behind. */
    method ReplacementTransaction(c: Contract, s: Db, r: Run) returns (committed: Option<Db>)
      requires Bound(c, r)
      ensures committed == if AdminsRecoverable(s, r.today) && r.schemaValid then Some(Replacement(c, s, r)) else None
      ensures committed.Some? <==>
              && r.schemaValid
              && (forall u :: u in s.users && u.admin && u.active && !u.dependent && u.adultFrom <= r.today ==> u.email.Some? && u.bcrypt)
              && (exists u :: u in s.users && u.admin && u.active && !u.dependent && u.adultFrom <= r.today && u.verified)
      ensures committed.Some? ==>
                && committed.value.schema == Replaced && committed.value.ledger == Some(c.final) && committed.value.data == []
                && (forall u :: u in committed.value.users <==>
                      u in s.users && u.admin && u.active && !u.dependent && u.adultFrom <= r.today)
    {
      RecoverableIff(s, r.today);
      hide Bound, Logins, Check, AdminsRecoverable, Retained;
      if !AdminsRecoverable(s, r.today) { return None; }
      KeptUsers(s, r.today);
      var copy := s;
      var kept := Retained(copy, r.today);
      copy := copy.(schema := Replaced, users := {}, data := []);
      ReplacementFrame(c, s, r);
      LoginsConfiguredFrame(copy, Logins(r.credentials.(app := WebRole)));
      BoundLogins(c, r);
      copy := LoginsConfigured(copy, Logins(r.credentials.(app := WebRole)));
      copy := copy.(ledger := Some(c.final));
      copy := copy.(users := kept);
      if !r.schemaValid { return None; }
      copy := copy.(completion := Some([Completion(r.database, c.version, c.candidate, c.predecessor, c.final, Some(r.now), r.now)]));
      return Some(copy.(replacements := copy.replacements + 1));
    }
  }

  lemma StoppedIsReached(c: Contract, s: Db, r: Run)
    ensures forall k :: 0 <= k <= 6 ==> Stopped(c, s, r, k) == Reached(c, s, r, k)
  {
    forall k | 0 <= k <= 6 ensures Stopped(c, s, r, k) == Reached(c, s, r, k) {
      hide Reached, ReachedPhase;
      ScriptReaches(c, s, r, k);
      AfterOne(After(World(s, Idle), Script(c, r)[..k]), Stop);
    }
  }
}
