/** When the destructive release replaces a database, and what lets a stamped binary migrate, in terms of the stored fields. */
module ReleaseConditions {
  import opened Text
  import opened ReleaseProtocol

  // ----- the run -----

  /** The binary is stamped, its build inputs are consistent, and the run carries its identity. */
  predicate OwnRun(c: Contract, r: Run)
  {
    && (c.version != "" || c.candidate != "") && c.wellFormed
    && r.version == c.version && r.candidate == c.candidate && r.database == "mycfc"
  }

  /** The credentials name the predecessor's application login, and no other login shares its name or its successor's. */
  predicate LoginsFit(k: Credentials)
  {
    var taken := {"mycfc_app", "mycfc_disposable_web_20261001"};
    && k.app == "mycfc_app" && k.migration !in taken
    && (k.media != "" ==> k.media !in taken + {k.migration})
    && (k.retention != "" ==> k.retention !in taken + {k.migration, k.media})
  }

  lemma LoginsFitIff(k: Credentials)
    requires k.app == OldWebRole
    ensures LoginsFit(k) <==> DistinctLogins(k) && DistinctLogins(k.(app := WebRole))
  {
  }

  lemma BoundIff(c: Contract, r: Run)
    ensures !Unstamped(c) && Bound(c, r) <==>
            OwnRun(c, r) && LoginsFit(r.credentials) && r.inputValid && r.secretsSafe && c.baselineReviewed && c.embedded == c.final
  {
    if r.credentials.app == OldWebRole { LoginsFitIff(r.credentials); }
    hide DistinctLogins;
  }

  // ----- the database -----

  /** The predecessor as it was left: its ledger, no receipt, no completion, no new role, and someone who can log in. */
  predicate IsPredecessor(c: Contract, s: Db, r: Run)
  {
    && r.superuser && r.rolesOwned && r.predecessorShape
    && s.ledger == Some(c.predecessor) && s.completion == None && s.receipt == None && !s.webRole && s.oldRole.Some?
    && exists u :: u in s.users && u.admin && u.active && !u.dependent && u.verified && u.bcrypt
  }

  /** Every active adult administrator can be kept, and one of them is verified. */
  predicate AdminsKept(s: Db, today: int)
  {
    && (forall u :: u in s.users && u.admin && u.active && !u.dependent && u.adultFrom <= today ==> u.email.Some? && u.bcrypt)
    && (exists u :: u in s.users && u.admin && u.active && !u.dependent && u.adultFrom <= today && u.verified)
  }

  lemma ReadyIff(c: Contract, s: Db, r: Run)
    ensures Check(c, s, r) == Ready <==> IsPredecessor(c, s, r)
  {
    hide Completed;
  }

  /** The uninterrupted release replaces a database exactly under these conditions, and then does it once. */
  lemma ReleaseReplacesIff(c: Contract, s: Db, r: Run)
    ensures var t := After(World(s, Idle), Script(c, r)).db;
            && (t.replacements != s.replacements <==>
                && OwnRun(c, r) && LoginsFit(r.credentials) && r.inputValid && r.secretsSafe && c.baselineReviewed && c.embedded == c.final
                && IsPredecessor(c, s, r) && AdminsKept(s, r.today) && r.schemaValid)
            && (t.replacements != s.replacements ==>
                && t.replacements == s.replacements + 1 && t.schema == Replaced && t.ledger == Some(c.final) && t.data == []
                && (forall u :: u in t.users <==> u in s.users && u.admin && u.active && !u.dependent && u.adultFrom <= r.today))
  {
    assert Script(c, r)[..6] == Script(c, r);
    ScriptReaches(c, s, r, 6);
    ReadyIff(c, s, r);
    BoundIff(c, r);
    RecoverableIff(s, r.today);
    hide After, Script, Check, Bound, AdminsRecoverable, OwnRun, LoginsFit, Retained, IsPredecessor;
    if Admitted(c, s, r) && Check(c, s, r) == Ready && AdminsRecoverable(s, r.today) {
      ReplacementFrame(c, Fenced(s).(oldSession := false), r);
      KeptUsers(s, r.today);
      SameRetained(s, r.today);
    }
    if IsPredecessor(c, s, r) { NothingReceived(c, s, r); }
  }

  lemma SameRetained(s: Db, today: int)
    ensures Retained(Fenced(s).(oldSession := false), today) == Retained(s, today)
  {
  }

  lemma NothingReceived(c: Contract, s: Db, r: Run)
    requires IsPredecessor(c, s, r)
    ensures FreshMatches(c, s, r) == No
  {
  }

  // ----- migrating -----

  /** One protected receipt row for this database. */
  ghost predicate OneReceipt(s: Db, r: Run, x: Receipt)
  {
    s.receipt == Some(ReceiptTable(true, [x])) && x.database == r.database
  }

  /** The receipt is the run's own: written by this binary for the inventory it carries, which is the ledger. */
  predicate OwnReceipt(c: Contract, s: Db, r: Run, x: Receipt)
  {
    && x.version == r.version && x.candidate == r.candidate && x.inventory == c.embedded && s.ledger == Some(c.embedded)
  }

  /** The receipt is the genesis release's, and this binary is that release or a later stable one. */
  predicate GenesisReceipt(c: Contract, s: Db, r: Run, x: Receipt)
  {
    && x.version == c.genesisVersion && x.candidate == c.genesisCandidate && x.inventory == c.genesis
    && (c.laterStable || (x.version == r.version && x.candidate == r.candidate))
    && (s.ledger == Some(c.embedded) || s.ledger == Some(c.genesis))
  }

  /** A fresh receipt lets a run through exactly if it is its own or the genesis release's. */
  lemma FreshIff(c: Contract, s: Db, r: Run)
    ensures FreshMatches(c, s, r) == Yes <==>
            && c.wellFormed && r.version == c.version && r.candidate == c.candidate && r.database == "mycfc"
            && c.embedded == c.final && r.schemaValid
            && exists x :: OneReceipt(s, r, x) && (OwnReceipt(c, s, r, x) || GenesisReceipt(c, s, r, x))
  {
    if s.receipt.Some? && |s.receipt.value.rows| == 1 && s.receipt.value.protected {
      var x := s.receipt.value.rows[0];
      assert s.receipt.value.rows == [x];
      assert s.receipt == Some(ReceiptTable(true, [x]));
      assert OneReceipt(s, r, x) <==> x.database == r.database;
    }
  }

  /** A completion row of this very release: the same binary and inventories, retired before it was completed. */
  predicate OwnCompletion(c: Contract, s: Db, r: Run, x: Completion)
  {
    && x.database == r.database && x.version == c.version && x.candidate == c.candidate
    && x.predecessor == c.predecessor && x.final == c.final && s.ledger == Some(c.final)
    && match x.retiredAt case None => false case Some(at) => at <= x.completedAt
  }

  /** A stamped binary may migrate exactly on its own run, with such a receipt, or without any and with one such completion. */
  lemma StampedMigratesIff(c: Contract, s: Db, r: Run)
    requires c.version != "" || c.candidate != ""
    ensures MayMigrate(c, s, r) <==>
            && OwnRun(c, r)
            && ((c.embedded == c.final && r.schemaValid
                 && exists x :: OneReceipt(s, r, x) && (OwnReceipt(c, s, r, x) || GenesisReceipt(c, s, r, x)))
                || (s.receipt == None && exists x :: s.completion == Some([x]) && OwnCompletion(c, s, r, x)))
  {
    FreshIff(c, s, r);
    CompletedIff(c, s, r);
    NoReceiptIff(c, s, r);
    hide FreshMatches, Completed, OneReceipt, OwnReceipt, GenesisReceipt, OwnCompletion;
  }

  /** A migration by a stamped binary without such an entitlement changes nothing, at any moment of any release. */
  lemma MigrationIsEntitled(w: World, c: Contract, r: Run)
    requires (c.version != "" || c.candidate != "") && Step(w, Migrate(c, r)) != w
    ensures OwnRun(c, r) && r.schemaValid
    ensures || (exists x :: OneReceipt(w.db, r, x) && (OwnReceipt(c, w.db, r, x) || GenesisReceipt(c, w.db, r, x)))
            || (w.db.receipt == None && exists x :: w.db.completion == Some([x]) && OwnCompletion(c, w.db, r, x))
  {
    StampedMigratesIff(c, w.db, r);
    hide MayMigrate, OneReceipt, OwnReceipt, GenesisReceipt, OwnCompletion, OwnRun;
  }

  /** A fresh initialisation starts only on an empty database, for its superuser, with every login named and distinct. */
  lemma InitialisationIsFresh(w: World, c: Contract, r: Run, n: nat)
    requires Step(w, FreshInit(c, r, n)) != w
    ensures w.db.schema == EmptySchema && w.db.ledger == None && w.db.completion == None && w.db.receipt == None
    ensures r.superuser && r.inputValid && r.credentials.media != "" && r.credentials.retention != ""
    ensures (c.version != "" || c.candidate != "") ==> OwnRun(c, r)
  {
    hide FreshInitialized, DistinctLogins;
  }

  /** A role bootstrap by a stamped binary changes something only under a receipt that lets it through. */
  lemma BootstrapIsEntitled(w: World, c: Contract, r: Run, n: nat)
    requires (c.version != "" || c.candidate != "") && Step(w, BootstrapRoles(c, r, n)) != w
    ensures OwnRun(c, r) && r.inputValid
    ensures exists x :: OneReceipt(w.db, r, x) && (OwnReceipt(c, w.db, r, x) || GenesisReceipt(c, w.db, r, x))
  {
    FreshIff(c, w.db, r);
    hide FreshMatches, RolesBootstrapped, DistinctLogins, OneReceipt, OwnReceipt, GenesisReceipt;
  }

  lemma CompletedIff(c: Contract, s: Db, r: Run)
    ensures Completed(c, s, r) <==> exists x :: s.completion == Some([x]) && OwnCompletion(c, s, r, x)
  {
    if s.completion.Some? && |s.completion.value| == 1 {
      var x := s.completion.value[0];
      assert s.completion.value == [x];
      assert s.completion == Some([x]);
    }
  }

  lemma NoReceiptIff(c: Contract, s: Db, r: Run)
    ensures FreshMatches(c, s, r) == No <==> s.receipt == None
  {
  }
}
