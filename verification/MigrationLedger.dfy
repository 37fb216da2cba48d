/** The migration ledger: three start states, one transaction, every script at most once. */
module MigrationLedger {
  import opened Text
  import opened Sorting

  const Marker := "reset-baseline-v1"

  /**
   * What a binary embeds and how the database answers: exec runs the script of a version, baseline the reset baseline,
   * legacy tells whether the required tables are there, hardened whether the role boundary can be reapplied, contract
   * whether ledger and schema meet the postcondition. S is the schema of the database.
   */
  datatype Binary<!S> = Binary(
    names: seq<string>, cutoff: string, exec: (string, S) -> Option<S>, baseline: S -> Option<S>,
    hasObjects: S -> bool, legacy: S -> bool, hardened: S -> bool, contract: (set<string>, S) -> bool)

  /** ledger: None without the table. log: the scripts whose effects are committed, in the order they ran. */
  datatype Db<S> = Db(ledger: Option<set<string>>, schema: S, log: seq<string>)

  // ----- names and versions -----

  function TrimSuffix(s: string, p: string): string
  {
    if |p| <= |s| && s[|s| - |p|..] == p then s[..|s| - |p|] else s
  }

  /** migrationVersion. */
  function Version(name: string): string { TrimSuffix(TrimPrefix(name, "migrations/"), ".sql") }

  function Versions(names: seq<string>): (vs: seq<string>)
    ensures |vs| == |names| && forall i :: 0 <= i < |names| ==> vs[i] == Version(names[i])
  {
    seq(|names|, i requires 0 <= i < |names| => Version(names[i]))
  }

  function FileName(version: string): string { "migrations/" + version + ".sql" }

  lemma VersionOfFileName(version: string)
    ensures Version(FileName(version)) == version
  {
    var rest := version + ".sql";
    var p := "migrations/";
    assert FileName(version) == p + rest;
    assert (p + rest)[..|p|] == p && (p + rest)[|p|..] == rest;
    assert rest[|rest| - 4..] == ".sql" && rest[..|rest| - 4] == version;
  }

  predicate Ascending(xs: seq<string>) { forall i, j :: 0 <= i < j < |xs| ==> Less(xs[i], xs[j]) }

  /** Every character of a version sorts after the dot of its file name. */
  predicate AfterDot(version: string) { forall i :: 0 <= i < |version| ==> version[i] > '.' }

  lemma {:induction false} SuffixOrder(v: string, w: string)
    requires AfterDot(v) && AfterDot(w)
    ensures Leq(v + ".sql", w + ".sql") <==> Leq(v, w)
  {
    if v == [] || w == [] {
      assert v == [] ==> v + ".sql" == ".sql";
      assert w == [] ==> w + ".sql" == ".sql";
      LeqReflexive(".sql");
    } else {
      assert (v + ".sql")[1..] == v[1..] + ".sql" && (w + ".sql")[1..] == w[1..] + ".sql";
      SuffixOrder(v[1..], w[1..]);
    }
  }

  /** Files are listed by name; that is the order of versions when no version holds a character up to the dot. */
  lemma FileOrderIsVersionOrder(v: string, w: string)
    requires AfterDot(v) && AfterDot(w)
    ensures Less(FileName(v), FileName(w)) <==> Less(v, w)
  {
    var p := "migrations/";
    assert FileName(v) == p + (v + ".sql") && FileName(w) == p + (w + ".sql");
    LeqPrefix(p, v + ".sql", w + ".sql");
    SuffixOrder(v, w);
    VersionOfFileName(v);
    VersionOfFileName(w);
  }

  /** Without that assumption the two orders differ: a hyphen sorts before the dot. */
  lemma FileOrderIsNotAlwaysVersionOrder()
    ensures Less("a", "a-b") && Less(FileName("a-b"), FileName("a"))
  {
    var p := "migrations/";
    assert "a"[1..] == "" && "a-b"[1..] == "-b";
    assert Leq("a", "a-b");
    assert FileName("a-b") == p + "a-b.sql" && FileName("a") == p + "a.sql";
    LeqPrefix(p, "a-b.sql", "a.sql");
    assert "a-b.sql"[1..] == "-b.sql" && "a.sql"[1..] == ".sql";
    assert Leq("-b.sql", ".sql");
    VersionOfFileName("a");
    VersionOfFileName("a-b");
  }

  // ----- the specification of one run -----

  /** The scripts a run executes: those not recorded, each at its first place. */
  function Pending(vs: seq<string>, ledger: set<string>): (todo: seq<string>)
    decreases |vs|
  {
    if vs == [] then []
    else
      var rest, last := vs[..|vs| - 1], vs[|vs| - 1];
      if last in ledger || last in rest then Pending(rest, ledger) else Pending(rest, ledger) + [last]
  }

  function Execute<S>(exec: (string, S) -> Option<S>, todo: seq<string>, s: S): Option<S>
    decreases |todo|
  {
    if todo == [] then Some(s)
    else
      match Execute(exec, todo[..|todo| - 1], s)
      case None => None
      case Some(t) => exec(todo[|todo| - 1], t)
  }

  /** What the early break of the baseline marking reads: the leading versions not above the cutoff. */
  function Through(vs: seq<string>, cutoff: string): seq<string>
  {
    if vs == [] || !Leq(vs[0], cutoff) then [] else [vs[0]] + Through(vs[1..], cutoff)
  }

  function Upgraded<S>(b: Binary<S>, ledger: set<string>, schema: S, log: seq<string>): Option<Db<S>>
  {
    var vs := Versions(b.names);
    match Execute(b.exec, Pending(vs, ledger), schema)
    case None => None
    case Some(t) =>
      var recorded := ledger + Elements(vs);
      if b.hardened(t) && b.contract(recorded, t) then Some(Db(Some(recorded), t, log + Pending(vs, ledger))) else None
  }

  function Recorded<S>(db: Db<S>): set<string> { if db.ledger.Some? then db.ledger.value else {} }

  /** The committed result of applyBaseline, None when it fails. */
  function Migrated<S>(b: Binary<S>, db: Db<S>): Option<Db<S>>
  {
    var ledger, vs := Recorded(db), Versions(b.names);
    if Marker in ledger then Upgraded(b, ledger, db.schema, db.log)
    else if b.hasObjects(db.schema) then
      if b.legacy(db.schema) then Upgraded(b, ledger + {Marker}, db.schema, db.log) else None
    else
      match b.baseline(db.schema)
      case None => None
      case Some(t) =>
        if b.cutoff !in Through(vs, b.cutoff) then None
        else Upgraded(b, ledger + {Marker} + Elements(Through(vs, b.cutoff)), t, db.log)
  }

  // ----- facts about pending scripts -----

  lemma {:induction false} PendingMembers(vs: seq<string>, ledger: set<string>)
    ensures forall v :: v in Pending(vs, ledger) <==> v in vs && v !in ledger
    ensures Distinct(Pending(vs, ledger))
    decreases |vs|
  {
    if vs != [] {
      PendingMembers(vs[..|vs| - 1], ledger);
      assert vs == vs[..|vs| - 1] + [vs[|vs| - 1]];
    }
  }

  lemma {:induction false} PendingAscends(vs: seq<string>, ledger: set<string>)
    requires Ascending(vs)
    ensures Ascending(Pending(vs, ledger))
    decreases |vs|
  {
    if vs != [] {
      var rest, last := vs[..|vs| - 1], vs[|vs| - 1];
      PendingAscends(rest, ledger);
      PendingMembers(rest, ledger);
      forall v | v in rest ensures Less(v, last) {
        var i :| 0 <= i < |rest| && rest[i] == v;
        assert vs[i] == v;
      }
      hide Less;
      var p := Pending(rest, ledger);
      forall i | 0 <= i < |p| ensures Less(p[i], last) { assert p[i] in p; }
    }
  }

  lemma {:induction false} PendingPrefix(vs: seq<string>, ledger: set<string>, i: nat)
    requires i <= |vs|
    ensures Pending(vs[..i], ledger) <= Pending(vs, ledger)
    decreases |vs|
  {
    if i < |vs| {
      assert vs[..|vs| - 1][..i] == vs[..i];
      PendingPrefix(vs[..|vs| - 1], ledger, i);
    } else {
      assert vs[..i] == vs;
    }
  }

  /** On distinct versions of which the ledger holds exactly the first j, the rest is pending, in order. */
  lemma {:induction false} PendingSuffix(vs: seq<string>, ledger: set<string>, j: nat)
    requires Distinct(vs) && j <= |vs|
    requires forall i :: 0 <= i < |vs| ==> (vs[i] in ledger <==> i < j)
    ensures Pending(vs, ledger) == vs[j..]
    decreases |vs|
  {
    if vs != [] {
      var rest := vs[..|vs| - 1];
      if j < |vs| {
        PendingSuffix(rest, ledger, j);
        assert vs[j..] == rest[j..] + [vs[|vs| - 1]];
      } else {
        PendingSuffix(rest, ledger, j - 1);
      }
    }
  }

  lemma {:induction false} NothingPending(vs: seq<string>, ledger: set<string>)
    requires Elements(vs) <= ledger
    ensures Pending(vs, ledger) == []
    decreases |vs|
  {
    if vs != [] {
      var rest, last := vs[..|vs| - 1], vs[|vs| - 1];
      assert last in Elements(vs);
      assert Elements(rest) <= ledger by {
        forall v | v in Elements(rest) ensures v in ledger { assert v in Elements(vs); }
      }
      NothingPending(rest, ledger);
    }
  }

  lemma {:induction false} ExecuteConcat<S>(exec: (string, S) -> Option<S>, a: seq<string>, b: seq<string>, s: S)
    ensures Execute(exec, a + b, s) ==
            (match Execute(exec, a, s) case None => None case Some(t) => Execute(exec, b, t))
    decreases |b|
  {
    if b == [] {
      assert a + b == a;
    } else {
      assert (a + b)[..|a + b| - 1] == a + b[..|b| - 1];
      ExecuteConcat(exec, a, b[..|b| - 1], s);
    }
  }

  // ----- the early break -----

  /** No version up to the cutoff stands behind one above it. */
  predicate Unbroken(vs: seq<string>, cutoff: string)
  {
    forall i, j :: 0 <= i < j < |vs| && Leq(vs[j], cutoff) ==> Leq(vs[i], cutoff)
  }

  lemma {:induction false} ThroughLength(vs: seq<string>, cutoff: string)
    ensures var n := |Through(vs, cutoff)|;
            && n <= |vs| && Through(vs, cutoff) == vs[..n]
            && (forall i :: 0 <= i < n ==> Leq(vs[i], cutoff))
            && (n < |vs| ==> !Leq(vs[n], cutoff))
  {
    if vs != [] && Leq(vs[0], cutoff) {
      ThroughLength(vs[1..], cutoff);
      var n := |Through(vs[1..], cutoff)|;
      assert vs[..n + 1] == [vs[0]] + vs[1..][..n];
      assert n < |vs[1..]| ==> vs[1..][n] == vs[n + 1];
    }
  }

  /** Breaking at the first version above the cutoff is right exactly when the listing is unbroken there. */
  lemma BreakIsRightIff(vs: seq<string>, cutoff: string)
    requires Distinct(vs)
    ensures Elements(Through(vs, cutoff)) == (set v | v in vs && Leq(v, cutoff)) <==> Unbroken(vs, cutoff)
  {
    ThroughLength(vs, cutoff);
    var n := |Through(vs, cutoff)|;
    if Unbroken(vs, cutoff) {
      forall v | v in vs && Leq(v, cutoff) ensures v in Through(vs, cutoff) {
        var i :| 0 <= i < |vs| && vs[i] == v;
        assert i < n;
      }
    } else {
      var i, j :| 0 <= i < j < |vs| && Leq(vs[j], cutoff) && !Leq(vs[i], cutoff);
      assert n <= i;
      var v := vs[j];
      assert v !in Elements(Through(vs, cutoff)) by { assert v !in vs[..n]; }
      assert v in (set v | v in vs && Leq(v, cutoff)) by { assert v in vs; }
    }
  }

  lemma AscendingIsUnbroken(vs: seq<string>, cutoff: string)
    requires Ascending(vs)
    ensures Unbroken(vs, cutoff) && Distinct(vs)
  {
    forall i, j | 0 <= i < j < |vs| && Leq(vs[j], cutoff) ensures Leq(vs[i], cutoff) {
      LeqTransitive(vs[i], vs[j], cutoff);
    }
  }

  // ----- one run -----

  /** From any of the three starts, the ledger becomes the old one, the baseline marker and every embedded version. */
  lemma LedgerAfter<S>(b: Binary<S>, db: Db<S>)
    requires Migrated(b, db).Some?
    ensures Migrated(b, db).value.ledger == Some(Recorded(db) + {Marker} + Elements(Versions(b.names)))
  {
    hide Pending, Execute, Through;
    var vs := Versions(b.names);
    ThroughLength(vs, b.cutoff);
    assert Elements(Through(vs, b.cutoff)) <= Elements(vs);
    assert Recorded(db) + {Marker} + Elements(Through(vs, b.cutoff)) + Elements(vs) == Recorded(db) + {Marker} + Elements(vs);
    if Marker in Recorded(db) {
      assert Recorded(db) + Elements(vs) == Recorded(db) + {Marker} + Elements(vs);
    }
  }

  /** A run executes embedded scripts the ledger did not hold, each once, in ascending order of an ascending listing. */
  lemma RunsInOrder<S>(b: Binary<S>, db: Db<S>) returns (ran: seq<string>)
    requires Migrated(b, db).Some?
    ensures Migrated(b, db).value.log == db.log + ran
    ensures Distinct(ran) && (forall v :: v in ran ==> v in Versions(b.names) && v !in Recorded(db))
    ensures Ascending(Versions(b.names)) ==> Ascending(ran)
  {
    hide Execute, Through, Pending, Ascending;
    var ledger, vs := Recorded(db), Versions(b.names);
    var start := if Marker in ledger then ledger
                 else if b.hasObjects(db.schema) then ledger + {Marker}
                 else ledger + {Marker} + Elements(Through(vs, b.cutoff));
    ran := Pending(vs, start);
    PendingMembers(vs, start);
    if Ascending(vs) { PendingAscends(vs, start); }
  }

  /** The scripts lead from s to t: one state after each. */
  predicate Leads<S(==)>(exec: (string, S) -> Option<S>, scripts: seq<string>, states: seq<S>, s: S, t: S)
  {
    && |states| == |scripts| + 1 && states[0] == s && states[|scripts|] == t
    && forall i :: 0 <= i < |scripts| ==> exec(scripts[i], states[i]) == Some(states[i + 1])
  }

  lemma {:induction false} ExecutionLeads<S>(exec: (string, S) -> Option<S>, scripts: seq<string>, s: S) returns (states: seq<S>)
    requires Execute(exec, scripts, s).Some?
    ensures Leads(exec, scripts, states, s, Execute(exec, scripts, s).value)
    decreases |scripts|
  {
    if scripts == [] {
      states := [s];
    } else {
      states := ExecutionLeads(exec, scripts[..|scripts| - 1], s);
      states := states + [Execute(exec, scripts, s).value];
    }
  }

  /**
   * A run commits only from one of the three starts: marked, unmarked with every required table, or empty and given the
   * baseline, which must reach the cutoff. The scripts it logs lead from there to the committed schema, one after the other,
   * and what is committed passed the role boundary and the postcondition. An unmarked foreign schema is never touched.
   */
  lemma CommitsSoundly<S>(b: Binary<S>, db: Db<S>) returns (start: S, ran: seq<string>, states: seq<S>)
    requires Migrated(b, db).Some?
    ensures var t := Migrated(b, db).value;
            && ("reset-baseline-v1" in Recorded(db) || b.hasObjects(db.schema) ==> start == db.schema)
            && ("reset-baseline-v1" !in Recorded(db) && b.hasObjects(db.schema) ==> b.legacy(db.schema))
            && ("reset-baseline-v1" !in Recorded(db) && !b.hasObjects(db.schema) ==>
                  b.baseline(db.schema) == Some(start) && b.cutoff in Versions(b.names))
            && t.log == db.log + ran && Leads(b.exec, ran, states, start, t.schema)
            && t.ledger.Some? && b.hardened(t.schema) && b.contract(t.ledger.value, t.schema)
  {
    hide Execute, Through, Pending, Leads;
    var ledger, vs := Recorded(db), Versions(b.names);
    ThroughLength(vs, b.cutoff);
    start := if Marker in ledger || b.hasObjects(db.schema) then db.schema else b.baseline(db.schema).value;
    var from_ := if Marker in ledger then ledger
                 else if b.hasObjects(db.schema) then ledger + {Marker}
                 else ledger + {Marker} + Elements(Through(vs, b.cutoff));
    ran := Pending(vs, from_);
    states := ExecutionLeads(b.exec, ran, start);
  }

  /** A second run of the same binary executes nothing and changes nothing. */
  lemma SecondRunIsIdle<S>(b: Binary<S>, db: Db<S>)
    requires Migrated(b, db).Some?
    ensures Migrated(b, Migrated(b, db).value) == Migrated(b, db)
  {
    LedgerAfter(b, db);
    var t := Migrated(b, db).value;
    var vs := Versions(b.names);
    NothingPending(vs, Recorded(t));
    MigratedPasses(b, db);
    hide Pending, Through;
    assert Recorded(t) + Elements(vs) == Recorded(t);
    assert t.log + [] == t.log;
  }

  lemma MigratedPasses<S>(b: Binary<S>, db: Db<S>)
    requires Migrated(b, db).Some?
    ensures var t := Migrated(b, db).value; t.ledger.Some? && b.hardened(t.schema) && b.contract(t.ledger.value, t.schema)
  {
    hide Pending, Through, Execute;
  }

  // ----- every sequence of runs -----

  /** One start of some binary; committed tells whether its commit took effect. */
  datatype Start<!S> = Start(binary: Binary<S>, committed: bool)

  function AfterStart<S>(db: Db<S>, start: Start<S>): Db<S>
  {
    var result := Migrated(start.binary, db);
    if start.committed && result.Some? then result.value else db
  }

  function AfterStarts<S>(db: Db<S>, starts: seq<Start<S>>): Db<S>
    decreases |starts|
  {
    if starts == [] then db else AfterStart(AfterStarts(db, starts[..|starts| - 1]), starts[|starts| - 1])
  }

  /** Each executed script is recorded, and none was executed twice. */
  predicate Once<S>(db: Db<S>) { Distinct(db.log) && forall v :: v in db.log ==> v in Recorded(db) }

  lemma StartKeepsOnce<S>(db: Db<S>, start: Start<S>)
    requires Once(db)
    ensures Once(AfterStart(db, start)) && Recorded(db) <= Recorded(AfterStart(db, start)) && db.log <= AfterStart(db, start).log
  {
    hide Migrated;
    if start.committed && Migrated(start.binary, db).Some? {
      LedgerAfter(start.binary, db);
      var ran := RunsInOrder(start.binary, db);
      var t := Migrated(start.binary, db).value;
      forall i, j | 0 <= i < j < |t.log| ensures t.log[i] != t.log[j] {
        if i < |db.log| <= j { assert t.log[i] in db.log && t.log[j] in ran; }
      }
    }
  }

  /** Over any sequence of starts, failures and crashes, of any binaries, no script is executed twice. */
  lemma {:induction false} NoScriptTwice<S>(db: Db<S>, starts: seq<Start<S>>)
    requires Once(db)
    ensures var t := AfterStarts(db, starts); Once(t) && Recorded(db) <= Recorded(t) && db.log <= t.log
    decreases |starts|
  {
    hide Once, AfterStart;
    if starts != [] {
      NoScriptTwice(db, starts[..|starts| - 1]);
      StartKeepsOnce(AfterStarts(db, starts[..|starts| - 1]), starts[|starts| - 1]);
    }
  }

  // ----- fresh and upgraded databases -----

  /** A database that grew from the original schema by the first j scripts and records exactly those. */
  ghost predicate GrownBy<S>(b: Binary<S>, original: S, db: Db<S>, j: nat)
  {
    var vs := Versions(b.names);
    && j <= |vs| && Execute(b.exec, vs[..j], original) == Some(db.schema)
    && (forall i :: 0 <= i < |vs| ==> (vs[i] in Recorded(db) + {Marker} <==> i < j))
    && Recorded(db) <= {Marker} + Elements(vs)
    && (Marker in Recorded(db) || (b.hasObjects(db.schema) && b.legacy(db.schema)))
  }

  /** What running every script on the original schema gives, with the full ledger, if the postcondition accepts it. */
  function Whole<S>(b: Binary<S>, original: S): Option<(set<string>, S)>
  {
    match Execute(b.exec, Versions(b.names), original)
    case None => None
    case Some(t) =>
      var all := {Marker} + Elements(Versions(b.names));
      if b.hardened(t) && b.contract(all, t) then Some((all, t)) else None
  }

  ghost predicate Ends<S>(result: Option<Db<S>>, whole: Option<(set<string>, S)>)
  {
    && (result.Some? <==> whole.Some?)
    && (result.Some? ==> result.value.ledger == Some(whole.value.0) && result.value.schema == whole.value.1)
  }

  lemma RestEqualsWhole<S>(exec: (string, S) -> Option<S>, vs: seq<string>, original: S, ledger: set<string>, schema: S, j: nat)
    requires Distinct(vs) && j <= |vs| && Execute(exec, vs[..j], original) == Some(schema)
    requires forall i :: 0 <= i < |vs| ==> (vs[i] in ledger <==> i < j)
    ensures Execute(exec, Pending(vs, ledger), schema) == Execute(exec, vs, original)
  {
    PendingSuffix(vs, ledger, j);
    hide Pending, Execute, Distinct;
    assert vs == vs[..j] + vs[j..];
    ExecuteConcat(exec, vs[..j], vs[j..], original);
  }

  lemma UpgradedEnds<S>(b: Binary<S>, original: S, ledger: set<string>, schema: S, log: seq<string>, j: nat)
    requires Distinct(Versions(b.names)) && j <= |Versions(b.names)|
    requires Execute(b.exec, Versions(b.names)[..j], original) == Some(schema)
    requires forall i :: 0 <= i < |Versions(b.names)| ==> (Versions(b.names)[i] in ledger <==> i < j)
    requires ledger + Elements(Versions(b.names)) == {Marker} + Elements(Versions(b.names))
    ensures Ends(Upgraded(b, ledger, schema, log), Whole(b, original))
  {
    hide Pending, Execute, Distinct, Version, Versions;
    RestEqualsWhole(b.exec, Versions(b.names), original, ledger, schema, j);
  }

  lemma FreshEnds<S>(b: Binary<S>, original: S, blank: Db<S>)
    requires Distinct(Versions(b.names)) && Marker !in Versions(b.names) && b.cutoff in Through(Versions(b.names), b.cutoff)
    requires Recorded(blank) == {} && !b.hasObjects(blank.schema)
    requires b.baseline(blank.schema) == Execute(b.exec, Through(Versions(b.names), b.cutoff), original)
    ensures Ends(Migrated(b, blank), Whole(b, original))
  {
    hide Pending, Execute, Distinct, Version, Versions, Through, Upgraded;
    var vs := Versions(b.names);
    ThroughLength(vs, b.cutoff);
    var n := |Through(vs, b.cutoff)|;
    match b.baseline(blank.schema)
    case None =>
      ExecutePrefix(b.exec, vs[..n], vs, original);
    case Some(t) =>
      BaselineRecords(vs, n);
      UpgradedEnds(b, original, {} + {Marker} + Elements(vs[..n]), t, blank.log, n);
  }

  lemma BaselineRecords(vs: seq<string>, n: nat)
    requires Distinct(vs) && Marker !in vs && n <= |vs|
    ensures var recorded := {} + {Marker} + Elements(vs[..n]);
            && (forall i :: 0 <= i < |vs| ==> (vs[i] in recorded <==> i < n))
            && recorded + Elements(vs) == {Marker} + Elements(vs)
  {
    var recorded := {} + {Marker} + Elements(vs[..n]);
    forall i | 0 <= i < |vs| ensures vs[i] in recorded <==> i < n {
      if i < n { assert vs[..n][i] == vs[i]; }
    }
  }

  lemma GrownEnds<S>(b: Binary<S>, original: S, grown: Db<S>, j: nat)
    requires Distinct(Versions(b.names)) && GrownBy(b, original, grown, j)
    ensures Ends(Migrated(b, grown), Whole(b, original))
  {
    hide Pending, Execute, Distinct, Version, Through, Upgraded;
    var vs, start := Versions(b.names), Recorded(grown) + {Marker};
    assert start + Elements(vs) == {Marker} + Elements(vs);
    if Marker in Recorded(grown) { assert start == Recorded(grown); }
    UpgradedEnds(b, original, start, grown.schema, grown.log, j);
  }

  /**
   * When the baseline does on the blank schema what the scripts through the cutoff did to the original one, a fresh
   * database and one upgraded from any consistent point, marked or legacy unmarked, end with the same schema and the
   * same ledger, and the one migration succeeds exactly when the other does.
   */
  lemma FreshAndUpgradedConverge<S>(b: Binary<S>, original: S, blank: Db<S>, grown: Db<S>, j: nat)
    requires Distinct(Versions(b.names)) && Marker !in Versions(b.names) && b.cutoff in Through(Versions(b.names), b.cutoff)
    requires Recorded(blank) == {} && !b.hasObjects(blank.schema)
    requires b.baseline(blank.schema) == Execute(b.exec, Through(Versions(b.names), b.cutoff), original)
    requires GrownBy(b, original, grown, j)
    ensures Migrated(b, blank).Some? <==> Migrated(b, grown).Some?
    ensures Migrated(b, blank).Some? ==>
              && Migrated(b, blank).value.schema == Migrated(b, grown).value.schema
              && Migrated(b, blank).value.ledger == Migrated(b, grown).value.ledger
  {
    hide Migrated, Whole, GrownBy, Through, Execute;
    FreshEnds(b, original, blank);
    GrownEnds(b, original, grown, j);
  }

  // ----- the program -----

  lemma ElementsStep(vs: seq<string>, v: string)
    ensures Elements(vs + [v]) == Elements(vs) + {v}
  {
  }

  /** One round of the script loop. */
  lemma PendingStep(vs: seq<string>, v: string, ledger: set<string>)
    ensures Pending(vs + [v], ledger) == Pending(vs, ledger) + (if v in ledger + Elements(vs) then [] else [v])
  {
    assert (vs + [v])[..|vs + [v]| - 1] == vs;
  }

  lemma ExecuteStep<S>(exec: (string, S) -> Option<S>, todo: seq<string>, v: string, s: S, t: S)
    requires Execute(exec, todo, s) == Some(t)
    ensures Execute(exec, todo + [v], s) == exec(v, t)
  {
    assert (todo + [v])[..|todo + [v]| - 1] == todo;
  }

  /** The marking loop, with its early exit. */
  method RecordBaselineMigrations(names: seq<string>, cutoff: string, ledger: set<string>) returns (ok: bool, recorded: set<string>)
    ensures ok <==> cutoff in Through(Versions(names), cutoff)
    ensures recorded == ledger + Elements(Through(Versions(names), cutoff))
  {
    ghost var vs := Versions(names);
    recorded, ok := ledger, false;
    var i := 0;
    ThroughLength(vs, cutoff);
    hide Version, Leq, Through;
    assert vs[..0] == [];
    while i < |names|
      invariant i <= |names|
      invariant forall k :: 0 <= k < i ==> Leq(vs[k], cutoff)
      invariant recorded == ledger + Elements(vs[..i])
      invariant ok <==> cutoff in vs[..i]
    {
      var version := Version(names[i]);
      assert vs[i] == version;
      if !Leq(version, cutoff) { break; }
      assert vs[..i + 1] == vs[..i] + [version];
      ElementsStep(vs[..i], version);
      recorded := recorded + {version};
      ok := ok || version == cutoff;
      i := i + 1;
    }
    assert i == |Through(vs, cutoff)|;
  }

  lemma RoundSucceeds<S>(exec: (string, S) -> Option<S>, vs: seq<string>, i: nat, ledger: set<string>, s: S, t: S)
    requires i < |vs| && Execute(exec, Pending(vs[..i], ledger), s) == Some(t)
    ensures Elements(vs[..i + 1]) == Elements(vs[..i]) + {vs[i]}
    ensures vs[i] in ledger + Elements(vs[..i]) ==> Pending(vs[..i + 1], ledger) == Pending(vs[..i], ledger)
    ensures vs[i] !in ledger + Elements(vs[..i]) ==> Pending(vs[..i + 1], ledger) == Pending(vs[..i], ledger) + [vs[i]]
    ensures vs[i] !in ledger + Elements(vs[..i]) ==> Execute(exec, Pending(vs[..i + 1], ledger), s) == exec(vs[i], t)
  {
    hide Pending, Execute;
    assert vs[..i + 1] == vs[..i] + [vs[i]];
    ElementsStep(vs[..i], vs[i]);
    PendingStep(vs[..i], vs[i], ledger);
    ExecuteStep(exec, Pending(vs[..i], ledger), vs[i], s, t);
  }

  /** What the script loop has recorded, reached and executed when it has read the first n versions. */
  predicate Read<S(==)>(exec: (string, S) -> Option<S>, vs: seq<string>, n: nat, start: Db<S>, recorded: set<string>, reached: S, ran: seq<string>)
    requires n <= |vs|
  {
    && recorded == Recorded(start) + Elements(vs[..n])
    && ran == start.log + Pending(vs[..n], Recorded(start))
    && Execute(exec, Pending(vs[..n], Recorded(start)), start.schema) == Some(reached)
  }

  lemma ReadNothing<S>(exec: (string, S) -> Option<S>, vs: seq<string>, start: Db<S>)
    ensures Read(exec, vs, 0, start, Recorded(start), start.schema, start.log)
  {
    assert vs[..0] == [];
  }

  lemma ReadAll<S>(exec: (string, S) -> Option<S>, vs: seq<string>, start: Db<S>, recorded: set<string>, reached: S, ran: seq<string>)
    requires Read(exec, vs, |vs|, start, recorded, reached, ran)
    ensures Execute(exec, Pending(vs, Recorded(start)), start.schema) == Some(reached)
    ensures recorded == Recorded(start) + Elements(vs) && ran == start.log + Pending(vs, Recorded(start))
  {
    hide Pending, Execute, Elements;
    assert vs[..|vs|] == vs;
  }

  /** A recorded version is passed over. */
  lemma ReadRecorded<S>(exec: (string, S) -> Option<S>, vs: seq<string>, n: nat, start: Db<S>, recorded: set<string>, reached: S, ran: seq<string>)
    requires n < |vs| && Read(exec, vs, n, start, recorded, reached, ran) && vs[n] in recorded
    ensures Read(exec, vs, n + 1, start, recorded + {vs[n]}, reached, ran)
  {
    hide Pending, Execute, Elements;
    RoundSucceeds(exec, vs, n, Recorded(start), start.schema, reached);
  }

  /** A pending one is executed and recorded. */
  lemma ReadPending<S>(exec: (string, S) -> Option<S>, vs: seq<string>, n: nat, start: Db<S>, recorded: set<string>, reached: S, ran: seq<string>)
    requires n < |vs| && Read(exec, vs, n, start, recorded, reached, ran) && vs[n] !in recorded && exec(vs[n], reached).Some?
    ensures Read(exec, vs, n + 1, start, recorded + {vs[n]}, exec(vs[n], reached).value, ran + [vs[n]])
  {
    hide Pending, Execute, Elements;
    RoundSucceeds(exec, vs, n, Recorded(start), start.schema, reached);
  }

  lemma RoundFails<S>(exec: (string, S) -> Option<S>, vs: seq<string>, n: nat, start: Db<S>, recorded: set<string>, reached: S, ran: seq<string>)
    requires n < |vs| && Read(exec, vs, n, start, recorded, reached, ran) && vs[n] !in recorded && exec(vs[n], reached) == None
    ensures Execute(exec, Pending(vs, Recorded(start)), start.schema) == None
  {
    hide Pending, Execute, Elements;
    RoundSucceeds(exec, vs, n, Recorded(start), start.schema, reached);
    PendingPrefix(vs, Recorded(start), n + 1);
    ExecutePrefix(exec, Pending(vs[..n + 1], Recorded(start)), Pending(vs, Recorded(start)), start.schema);
  }

  /** The script loop inside the transaction. */
  method ApplyIncrementalMigrations<S>(b: Binary<S>, ledger: set<string>, schema: S, log: seq<string>)
    returns (ok: bool, recorded: set<string>, reached: S, ran: seq<string>)
    ensures ok <==> Execute(b.exec, Pending(Versions(b.names), ledger), schema).Some?
    ensures ok ==> recorded == ledger + Elements(Versions(b.names)) && ran == log + Pending(Versions(b.names), ledger)
                   && Execute(b.exec, Pending(Versions(b.names), ledger), schema) == Some(reached)
  {
    ghost var vs, start := Versions(b.names), Db(Some(ledger), schema, log);
    ok, recorded, reached, ran := true, ledger, schema, log;
    var i := 0;
    ReadNothing(b.exec, vs, start);
    while i < |b.names|
      invariant i <= |b.names|
      invariant Read(b.exec, vs, i, start, recorded, reached, ran)
    {
      hide Read, Pending, Execute, Elements, Version, Versions;
      var version := Version(b.names[i]);
      if version in recorded {
        ReadRecorded(b.exec, vs, i, start, recorded, reached, ran);
      } else {
        var result := b.exec(version, reached);
        if result == None {
          RoundFails(b.exec, vs, i, start, recorded, reached, ran);
          ok := false;
          return;
        }
        ReadPending(b.exec, vs, i, start, recorded, reached, ran);
        reached, ran := result.value, ran + [version];
      }
      recorded := recorded + {version};
      i := i + 1;
    }
    ReadAll(b.exec, vs, start, recorded, reached, ran);
    hide Read, Pending, Execute, Elements;
  }

  lemma ExecutePrefix<S>(exec: (string, S) -> Option<S>, a: seq<string>, b: seq<string>, s: S)
    requires a <= b && Execute(exec, a, s) == None
    ensures Execute(exec, b, s) == None
  {
    assert b == a + b[|a|..];
    ExecuteConcat(exec, a, b[|a|..], s);
  }

  class Database<S> {
    var ledger: Option<set<string>>
    var schema: S
    var log: seq<string>

    constructor (ledger: Option<set<string>>, schema: S, log: seq<string>)
      ensures Contents() == Db(ledger, schema, log)
    {
      this.ledger, this.schema, this.log := ledger, schema, log;
    }

    function Contents(): Db<S>
      reads this
    {
      Db(ledger, schema, log)
    }

    /** applyBaseline: everything happens on copies; the fields change at the commit, or not at all. */
    method ApplyBaseline(b: Binary<S>, commits: bool) returns (ok: bool)
      modifies this
      ensures ok <==> commits && Migrated(b, old(Contents())).Some?
      ensures Contents() == if ok then Migrated(b, old(Contents())).value else old(Contents())
    {
      hide Pending, Execute, Through;
      var txLedger := if ledger.Some? then ledger.value else {};
      var txSchema, txLog := schema, log;
      var installed := Marker in txLedger;
      if !installed {
        if b.hasObjects(txSchema) {
          if !b.legacy(txSchema) { return false; }
          txLedger := txLedger + {Marker};
        } else {
          var result := b.baseline(txSchema);
          if result == None { return false; }
          txSchema := result.value;
          txLedger := txLedger + {Marker};
          var found: bool;
          found, txLedger := RecordBaselineMigrations(b.names, b.cutoff, txLedger);
          if !found { return false; }
        }
      }
      ok, txLedger, txSchema, txLog := ApplyIncrementalMigrations(b, txLedger, txSchema, txLog);
      if !ok || !b.hardened(txSchema) || !b.contract(txLedger, txSchema) || !commits { return false; }
      ledger, schema, log := Some(txLedger), txSchema, txLog;
    }
  }
}
