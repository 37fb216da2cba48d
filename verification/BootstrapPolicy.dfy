/** The plan gate of the secret phase: one pass over the resource changes decides a declarative policy. */
module BootstrapPolicy {
  import opened Text
  import opened Sorting
  import opened Json

  const V2Container := "aws_secretsmanager_secret.app_runtime"
  const V2Version := "aws_secretsmanager_secret_version.app_runtime"
  const LegacyContainer := "aws_secretsmanager_secret.legacy_runtime"
  const LegacyVersion := "aws_secretsmanager_secret_version.legacy_runtime"
  const OldContainer := "aws_secretsmanager_secret.runtime"
  const OldVersion := "aws_secretsmanager_secret_version.runtime"
  const V2Name := "/mycfc/production/app-runtime-secrets-v2"
  const V2Arn := "arn:aws:secretsmanager:eu-west-1:334960985019:secret:/mycfc/production/app-runtime-secrets-v2-sVoQ2n"
  const LegacyName := "/mycfc/production/app-secrets"

  const NoOp := Arr([Str("no-op")])
  const Create := Arr([Str("create")])
  const Read := Arr([Str("read")])

  /**
   * What the gate asks the interpreter and the outside: equality of values (1 == 1.0 == True), numbers that are false,
   * the live proof of a key, the inspection of the secret value, and the pattern of a legacy name.
   */
  datatype Oracles = Oracles(
    equal: (Value, Value) -> bool, zero: string -> bool, keyProven: Value -> bool, secretAccepted: Value -> bool,
    legacyArn: string -> bool)

  predicate Truthy(o: Oracles, v: Value)
  {
    match v
    case Null => false
    case Bool(b) => b
    case Num(lexeme) => !o.zero(lexeme)
    case Str(s) => s != ""
    case Arr(items) => items != []
    case Obj(fields) => fields != map[]
  }

  /** known: every leaf is the literal False. */
  predicate Known(v: Value)
  {
    match v
    case Obj(fields) => forall k :: k in fields ==> Known(fields[k])
    case Arr(items) => forall x :: x in items ==> Known(x)
    case _ => v == Bool(false)
  }

  // ----- one resource change -----

  function Address(r: Value): string { if r.Get("address").Str? then r.Get("address").s else "" }

  function Change(r: Value): Value { r.Get("change") }

  function Actions(r: Value): Value { Change(r).Get("actions") }

  predicate Managed(r: Value) { r.Get("mode") == Str("managed") }

  predicate IsChanged(r: Value) { Managed(r) && Actions(r) != NoOp }

  predicate IsMoved(r: Value) { r.Get("previous_address") != Null }

  predicate IsLegacy(address: string) { address == LegacyContainer || address == LegacyVersion }

  function MoveOf(address: string): string { if address == LegacyContainer then OldContainer else OldVersion }

  predicate AllKnown(change: Value) { change.Has("after_unknown") ==> Known(change.Get("after_unknown")) }

  predicate Unchanged(o: Oracles, change: Value)
  {
    var before, after := change.Get("before"), change.Get("after");
    before.Obj? && before.fields != map[] && o.equal(before, after) && AllKnown(change)
  }

  predicate RecoveryContainer(o: Oracles, change: Value)
  {
    var before := change.Get("before");
    Unchanged(o, change) && before.Get("name") == Str(V2Name) && before.Get("id") == Str(V2Arn) && before.Get("arn") == Str(V2Arn)
  }

  predicate V2Ok(o: Oracles, r: Value)
  {
    (Address(r) == V2Container || Address(r) == V2Version) ==>
      && Managed(r) && r.Get("action_reason") == Null
      && (Address(r) == V2Version ==> Change(r).Get("before") == Null)
      && (Address(r) == V2Container && Actions(r) == NoOp ==> RecoveryContainer(o, Change(r)))
  }

  predicate MoveOk(r: Value)
  {
    if IsMoved(r) then IsLegacy(Address(r)) && r.Get("previous_address") == Str(MoveOf(Address(r))) && Actions(r) == NoOp
    else IsLegacy(Address(r)) ==> Actions(r) == NoOp
  }

  predicate ModeOk(r: Value)
  {
    if r.Get("mode") == Str("data") then Actions(r) == NoOp || Actions(r) == Read else Managed(r)
  }

  /** The checks of one entry that do not look at the others. */
  predicate EntryOk(o: Oracles, r: Value)
  {
    && r.Obj? && r.Get("address").Str? && Change(r).Obj?
    && V2Ok(o, r) && Change(r).Get("importing") == Null && Actions(r).Arr?
    && Address(r) != OldContainer && Address(r) != OldVersion
    && (IsLegacy(Address(r)) ==> Managed(r))
    && MoveOk(r) && ModeOk(r)
  }

  // ----- the inventory of a plan -----

  predicate DistinctAddresses(rs: seq<Value>) { forall i, j :: 0 <= i < j < |rs| ==> Address(rs[i]) != Address(rs[j]) }

  function Inventory(rs: seq<Value>): map<string, Value>
    decreases |rs|
  {
    if rs == [] then map[] else Inventory(rs[..|rs| - 1])[Address(rs[|rs| - 1]) := rs[|rs| - 1]]
  }

  /** The container is already there: only the version is to be created. */
  predicate Continues(m: map<string, Value>) { V2Container in m && Actions(m[V2Container]) == NoOp }

  function Manifest(continuation: bool): set<string> { if continuation then {V2Version} else {V2Container, V2Version} }

  predicate ChangesAreManifest(m: map<string, Value>)
  {
    && (forall a :: a in m && IsChanged(m[a]) ==> a in Manifest(Continues(m)) && Actions(m[a]) == Create)
    && (forall a :: a in Manifest(Continues(m)) ==> a in m && IsChanged(m[a]))
  }

  predicate BothMoved(m: map<string, Value>)
  {
    LegacyContainer in m && LegacyVersion in m && IsMoved(m[LegacyContainer]) && IsMoved(m[LegacyVersion])
  }

  predicate NoneMoved(m: map<string, Value>) { forall a :: a in m ==> !IsMoved(m[a]) }

  predicate LegacyIdentity(o: Oracles, container: Value, version: Value)
  {
    var arn, id := container.Get("arn"), version.Get("version_id");
    && container.Get("name") == Str(LegacyName) && arn.Str? && o.legacyArn(arn.s) && container.Get("id") == arn
    && version.Get("secret_id") == arn && id.Str? && id.s != "" && version.Get("id") == Str(arn.s + "|" + id.s)
  }

  predicate LegacyCompleted(o: Oracles, m: map<string, Value>)
    requires LegacyContainer in m && LegacyVersion in m
  {
    && Unchanged(o, Change(m[LegacyContainer])) && Unchanged(o, Change(m[LegacyVersion]))
    && LegacyIdentity(o, Change(m[LegacyContainer]).Get("after"), Change(m[LegacyVersion]).Get("after"))
  }

  /** change["after_unknown"] is a dict, or missing. */
  predicate UnknownIsDict(change: Value) { change.Has("after_unknown") ==> change.Get("after_unknown").Obj? }

  predicate Uncertain(o: Oracles, change: Value, attribute: string) { Truthy(o, change.Get("after_unknown").Get(attribute)) }

  predicate Absent(v: Value) { v == Null || v == Str("") }

  predicate ContainerOk(o: Oracles, change: Value, continuation: bool)
  {
    var after := change.Get("after");
    && UnknownIsDict(change) && after.Get("name") == Str(V2Name)
    && !Uncertain(o, change, "kms_key_id") && !Uncertain(o, change, "description")
    && after.Get("description") == Str("MyCFC production web-runtime secrets v2")
    && !Uncertain(o, change, "recovery_window_in_days") && o.equal(after.Get("recovery_window_in_days"), Num("30"))
    && !Uncertain(o, change, "force_overwrite_replica_secret")
    && o.equal(after.Get("force_overwrite_replica_secret"), Bool(false))
    && (after.Get("kms_key_id") != Null ==> continuation && o.keyProven(after.Get("kms_key_id")))
    && (after.Get("replica") == Null || after.Get("replica") == Arr([])) && Absent(after.Get("name_prefix"))
  }

  predicate KnownField(change: Value, attribute: string)
  {
    var unknown := change.Get("after_unknown");
    unknown.Has(attribute) ==> unknown.Get(attribute) == Bool(false)
  }

  predicate VersionOk(o: Oracles, change: Value, continuation: bool)
  {
    var after, unknown := change.Get("after"), change.Get("after_unknown");
    && UnknownIsDict(change)
    && (continuation ==> after.Get("secret_id") == Str(V2Arn) && KnownField(change, "secret_id"))
    && (KnownField(change, "version_stages") || unknown.Get("version_stages") == Arr([Bool(false)]))
    && after.Get("version_stages") == Arr([Str("AWSCURRENT")])
    && !Uncertain(o, change, "secret_binary") && Absent(after.Get("secret_binary"))
    && !Uncertain(o, change, "secret_string_wo") && Absent(after.Get("secret_string_wo"))
    && !Uncertain(o, change, "secret_string_wo_version") && Absent(after.Get("secret_string_wo_version"))
    && !Uncertain(o, change, "secret_string") && o.secretAccepted(after.Get("secret_string"))
  }

  /** The policy over the inventory; configuration tells whether the configured references were accepted. */
  predicate InventoryOk(o: Oracles, configuration: bool, m: map<string, Value>)
  {
    && ChangesAreManifest(m)
    && LegacyContainer in m && LegacyVersion in m
    && (Continues(m) ==> NoneMoved(m))
    && (BothMoved(m) || (NoneMoved(m) && LegacyCompleted(o, m)))
    && configuration && V2Container in m && V2Version in m
    && ContainerOk(o, Change(m[V2Container]), Continues(m)) && VersionOk(o, Change(m[V2Version]), Continues(m))
  }

  /** validate for the secret phase, as a decision about plan["resource_changes"]. */
  predicate Accepts(o: Oracles, configuration: bool, changes: Value)
  {
    && changes.Arr? && (forall r :: r in changes.items ==> EntryOk(o, r)) && DistinctAddresses(changes.items)
    && InventoryOk(o, configuration, Inventory(changes.items))
  }

  // ----- the inventory does not depend on order -----

  lemma {:induction false} InventoryMembers(rs: seq<Value>)
    requires DistinctAddresses(rs)
    ensures forall r :: r in rs ==> Address(r) in Inventory(rs) && Inventory(rs)[Address(r)] == r
    ensures forall a :: a in Inventory(rs) ==> Inventory(rs)[a] in rs && Address(Inventory(rs)[a]) == a
    decreases |rs|
  {
    if rs != [] {
      var rest, last := rs[..|rs| - 1], rs[|rs| - 1];
      assert rs == rest + [last];
      InventoryMembers(rest);
      forall r | r in rest ensures Address(r) != Address(last) {
        var i :| 0 <= i < |rest| && rest[i] == r;
        assert rs[i] == r;
      }
      hide Address;
    }
  }

  lemma SameInventory(rs: seq<Value>, ss: seq<Value>)
    requires DistinctAddresses(rs) && DistinctAddresses(ss) && forall r :: r in rs <==> r in ss
    ensures Inventory(rs) == Inventory(ss)
  {
    InventoryMembers(rs);
    InventoryMembers(ss);
    hide Inventory, Address, DistinctAddresses;
    var m, n := Inventory(rs), Inventory(ss);
    forall a | a in m ensures a in n && n[a] == m[a] { assert m[a] in ss; }
    forall a | a in n ensures a in m { assert n[a] in rs; }
  }

  /** Distinctness of addresses is a property of the entries, not of their order. */
  lemma DistinctInAnyOrder(rs: seq<Value>, ss: seq<Value>)
    requires multiset(rs) == multiset(ss) && DistinctAddresses(rs)
    ensures DistinctAddresses(ss)
  {
    hide Address;
    assert Distinct(rs);
    DistinctReordered(ss, rs);
    forall i, j | 0 <= i < j < |ss| ensures Address(ss[i]) != Address(ss[j]) {
      assert ss[i] in multiset(rs) && ss[j] in multiset(rs) && ss[i] != ss[j];
      var k :| 0 <= k < |rs| && rs[k] == ss[i];
      var l :| 0 <= l < |rs| && rs[l] == ss[j];
      if k < l { assert Address(rs[k]) != Address(rs[l]); } else { assert Address(rs[l]) != Address(rs[k]); }
    }
  }

  /** The verdict is the same for every order of the resource changes. */
  lemma OrderDoesNotMatter(o: Oracles, configuration: bool, rs: seq<Value>, ss: seq<Value>)
    requires multiset(rs) == multiset(ss)
    ensures Accepts(o, configuration, Arr(rs)) <==> Accepts(o, configuration, Arr(ss))
  {
    SameElements(rs, ss);
    if DistinctAddresses(rs) { DistinctInAnyOrder(rs, ss); }
    if DistinctAddresses(ss) { DistinctInAnyOrder(ss, rs); }
    if DistinctAddresses(rs) && DistinctAddresses(ss) { SameInventory(rs, ss); }
    hide EntryOk, InventoryOk, DistinctAddresses, Inventory;
  }

  lemma SameElements(rs: seq<Value>, ss: seq<Value>)
    requires multiset(rs) == multiset(ss)
    ensures forall r :: r in rs <==> r in ss
  {
    forall r ensures r in rs <==> r in ss {
      assert r in multiset(rs) <==> r in rs;
      assert r in multiset(ss) <==> r in ss;
    }
  }

  // ----- what acceptance means for the plan -----

  /**
   * In an accepted plan every managed change is a creation named by the manifest and every name of the manifest is
   * created once; no address repeats and nothing is imported; both legacy resources are there, as no-ops, and either
   * both are moved from their old addresses, or nothing is moved and both are known, unchanged and bound to each other.
   */
  lemma AcceptedPlanIsTheManifest(o: Oracles, configuration: bool, rs: seq<Value>)
    requires Accepts(o, configuration, Arr(rs))
    ensures var continuation := exists r :: r in rs && Address(r) == V2Container && Actions(r) == NoOp;
            && (forall r :: r in rs && IsChanged(r) ==> Address(r) in Manifest(continuation) && Actions(r) == Create)
            && (forall a :: a in Manifest(continuation) ==> exists i :: 0 <= i < |rs| && Address(rs[i]) == a && IsChanged(rs[i]))
            && (continuation ==> forall r :: r in rs ==> !IsMoved(r))
    ensures DistinctAddresses(rs) && (forall r :: r in rs ==> Change(r).Get("importing") == Null)
    ensures forall a :: IsLegacy(a) ==> exists r :: r in rs && Address(r) == a && Managed(r) && Actions(r) == NoOp
    ensures (forall r :: r in rs ==> (IsMoved(r) <==> IsLegacy(Address(r)))) || (forall r :: r in rs ==> !IsMoved(r))
    ensures forall r :: r in rs && IsMoved(r) ==> r.Get("previous_address") == Str(MoveOf(Address(r)))
    ensures (forall r :: r in rs ==> !IsMoved(r)) ==>
              exists c, v :: c in rs && v in rs && Address(c) == LegacyContainer && Address(v) == LegacyVersion && LegacyBound(o, c, v)
  {
    InventoryMembers(rs);
    var m := Inventory(rs);
    CompletedLegacy(o, rs, m);
    ContinuesIff(rs, m);
    ManifestOfPlan(rs, m);
    forall r | r in rs ensures EntryMeans(r) { EntryFacts(o, r); }
    LegacyOfPlan(rs, m);
    hide Inventory, DistinctAddresses, Address, Actions, EntryOk, InventoryOk, Managed, IsMoved, IsLegacy, MoveOf, LegacyBound;
  }

  /** Both legacy resources are known and unchanged, and the version belongs to the container. */
  predicate LegacyBound(o: Oracles, container: Value, version: Value)
  {
    && Unchanged(o, Change(container)) && Unchanged(o, Change(version))
    && LegacyIdentity(o, Change(container).Get("after"), Change(version).Get("after"))
  }

  lemma CompletedLegacy(o: Oracles, rs: seq<Value>, m: map<string, Value>)
    requires forall r :: r in rs ==> Address(r) in m && m[Address(r)] == r
    requires forall a :: a in m ==> m[a] in rs && Address(m[a]) == a
    requires LegacyContainer in m && LegacyVersion in m && (BothMoved(m) || (NoneMoved(m) && LegacyCompleted(o, m)))
    ensures (forall r :: r in rs ==> !IsMoved(r)) ==>
              exists c, v :: c in rs && v in rs && Address(c) == LegacyContainer && Address(v) == LegacyVersion && LegacyBound(o, c, v)
  {
    hide Address, IsMoved, Unchanged, LegacyIdentity, Change, Value.Get;
    var c, v := m[LegacyContainer], m[LegacyVersion];
    assert c in rs && v in rs && Address(c) == LegacyContainer && Address(v) == LegacyVersion;
    if forall r :: r in rs ==> !IsMoved(r) {
      assert !BothMoved(m);
      assert LegacyBound(o, c, v);
    }
  }

  predicate EntryMeans(r: Value)
  {
    && Change(r).Get("importing") == Null
    && (IsMoved(r) ==> IsLegacy(Address(r)) && r.Get("previous_address") == Str(MoveOf(Address(r))))
    && (IsLegacy(Address(r)) ==> Managed(r) && Actions(r) == NoOp)
  }

  lemma EntryFacts(o: Oracles, r: Value)
    requires EntryOk(o, r)
    ensures EntryMeans(r)
  {
    hide V2Ok, ModeOk, Address, Actions, Managed, MoveOf, Change;
  }

  lemma ManifestOfPlan(rs: seq<Value>, m: map<string, Value>)
    requires forall r :: r in rs ==> Address(r) in m && m[Address(r)] == r
    requires forall a :: a in m ==> m[a] in rs && Address(m[a]) == a
    requires ChangesAreManifest(m)
    ensures forall r :: r in rs && IsChanged(r) ==> Address(r) in Manifest(Continues(m)) && Actions(r) == Create
    ensures forall a :: a in Manifest(Continues(m)) ==> exists i :: 0 <= i < |rs| && Address(rs[i]) == a && IsChanged(rs[i])
  {
    hide Address, Actions, IsChanged, Manifest, Continues;
    forall a | a in Manifest(Continues(m)) ensures exists i :: 0 <= i < |rs| && Address(rs[i]) == a && IsChanged(rs[i]) {
      assert m[a] in rs;
    }
  }

  lemma LegacyOfPlan(rs: seq<Value>, m: map<string, Value>)
    requires forall r :: r in rs ==> Address(r) in m && m[Address(r)] == r && EntryMeans(r)
    requires forall a :: a in m ==> m[a] in rs && Address(m[a]) == a
    requires LegacyContainer in m && LegacyVersion in m && (BothMoved(m) || NoneMoved(m))
    ensures forall a :: IsLegacy(a) ==> exists r :: r in rs && Address(r) == a && Managed(r) && Actions(r) == NoOp
    ensures (forall r :: r in rs ==> (IsMoved(r) <==> IsLegacy(Address(r)))) || (forall r :: r in rs ==> !IsMoved(r))
    ensures Continues(m) && NoneMoved(m) ==> forall r :: r in rs ==> !IsMoved(r)
  {
    hide Address, Actions, IsMoved, Managed, MoveOf, Change, Continues;
    forall a | IsLegacy(a) ensures exists r :: r in rs && Address(r) == a && Managed(r) && Actions(r) == NoOp {
      assert m[a] in rs && Address(m[a]) == a;
    }
  }

  lemma ContinuesIff(rs: seq<Value>, m: map<string, Value>)
    requires forall r :: r in rs ==> Address(r) in m && m[Address(r)] == r
    requires forall a :: a in m ==> m[a] in rs && Address(m[a]) == a
    ensures Continues(m) <==> exists r :: r in rs && Address(r) == V2Container && Actions(r) == NoOp
  {
    hide Address, Actions;
    if Continues(m) { assert m[V2Container] in rs; }
  }

  // ----- the one pass -----

  function ChangedOf(m: map<string, Value>): map<string, Value> { map a | a in m && IsChanged(m[a]) :: Actions(m[a]) }

  function MovesOf(m: map<string, Value>): map<string, Value> { map a | a in m && IsMoved(m[a]) :: m[a].Get("previous_address") }

  function LegacyOf(m: map<string, Value>): map<string, Value> { map a | a in m && IsLegacy(a) :: Change(m[a]) }

  lemma AddEntry(m: map<string, Value>, a: string, r: Value)
    requires a !in m
    ensures var n := m[a := r];
            && ChangedOf(n) == (if IsChanged(r) then ChangedOf(m)[a := Actions(r)] else ChangedOf(m))
            && MovesOf(n) == (if IsMoved(r) then MovesOf(m)[a := r.Get("previous_address")] else MovesOf(m))
            && LegacyOf(n) == (if IsLegacy(a) then LegacyOf(m)[a := Change(r)] else LegacyOf(m))
  {
    hide IsChanged, IsMoved, IsLegacy, Actions, Change, Value.Get;
  }

  function Expected(continuation: bool): map<string, Value> { map a | a in Manifest(continuation) :: Create }

  /** The comparison of the two dictionaries is the manifest clause. */
  lemma ChangedIsExpectedIff(m: map<string, Value>)
    ensures ChangedOf(m) == Expected(Continues(m)) <==> ChangesAreManifest(m)
  {
    hide IsChanged, Actions, Manifest, Continues;
    var c, e := ChangedOf(m), Expected(Continues(m));
    if ChangesAreManifest(m) {
      assert c.Keys == e.Keys;
    }
    if c == e {
      forall a | a in m && IsChanged(m[a]) ensures a in Manifest(Continues(m)) && Actions(m[a]) == Create { assert a in c; }
      forall a | a in Manifest(Continues(m)) ensures a in m && IsChanged(m[a]) { assert a in e; }
    }
  }

  lemma MovesIff(m: map<string, Value>)
    requires forall a :: a in m ==> (IsMoved(m[a]) ==> IsLegacy(a) && m[a].Get("previous_address") == Str(MoveOf(a)))
    ensures MovesOf(m) == map[] <==> NoneMoved(m)
    ensures MovesOf(m) == map[LegacyContainer := Str(OldContainer), LegacyVersion := Str(OldVersion)] <==> BothMoved(m)
  {
    hide IsMoved, Value.Get;
    LegacyNames();
    var moves, all := MovesOf(m), map[LegacyContainer := Str(OldContainer), LegacyVersion := Str(OldVersion)];
    if moves == map[] {
      forall a | a in m ensures !IsMoved(m[a]) { assert a !in moves; }
    }
    if moves == all {
      assert LegacyContainer in moves && LegacyVersion in moves;
    }
    if BothMoved(m) {
      assert moves.Keys == all.Keys;
    }
  }

  lemma LegacyNames()
    ensures LegacyContainer != LegacyVersion && V2Container != V2Version
  {
    assert |LegacyContainer| != |LegacyVersion|;
    assert |V2Container| != |V2Version|;
  }

  /** The checks the loop makes on one entry, in its order; previous entries only matter through seen. */
  method CheckEntry(o: Oracles, r: Value) returns (ok: bool)
    ensures ok <==> EntryOk(o, r)
  {
    hide RecoveryContainer;
    if !r.Obj? || !r.Get("address").Str? || !Change(r).Obj? { return false; }
    var address, change, actions := Address(r), Change(r), Actions(r);
    if address == V2Container || address == V2Version {
      if !Managed(r) || r.Get("action_reason") != Null { return false; }
      if address == V2Version && change.Get("before") != Null { return false; }
      if address == V2Container && actions == NoOp && !RecoveryContainer(o, change) { return false; }
    }
    if change.Get("importing") != Null || !actions.Arr? { return false; }
    if address == OldContainer || address == OldVersion { return false; }
    if IsLegacy(address) && !Managed(r) { return false; }
    if r.Get("previous_address") != Null {
      if !IsLegacy(address) || r.Get("previous_address") != Str(MoveOf(address)) || actions != NoOp { return false; }
    } else if IsLegacy(address) && actions != NoOp {
      return false;
    }
    if r.Get("mode") == Str("data") { return actions == NoOp || actions == Read; }
    return Managed(r);
  }

  /** What the loop has gathered from a prefix without repetition. */
  predicate Gathered(o: Oracles, rs: seq<Value>, seen: set<string>, changed: map<string, Value>, moves: map<string, Value>,
                     legacy: map<string, Value>, continuation: bool)
  {
    var m := Inventory(rs);
    && DistinctAddresses(rs) && (forall r :: r in rs ==> EntryOk(o, r))
    && seen == m.Keys && changed == ChangedOf(m) && moves == MovesOf(m) && legacy == LegacyOf(m) && continuation == Continues(m)
  }

  lemma GatherOne(o: Oracles, rs: seq<Value>, r: Value, seen: set<string>, changed: map<string, Value>,
                  moves: map<string, Value>, legacy: map<string, Value>, continuation: bool)
    requires Gathered(o, rs, seen, changed, moves, legacy, continuation) && EntryOk(o, r) && Address(r) !in seen
    ensures var a := Address(r);
            Gathered(o, rs + [r], seen + {a}, if IsChanged(r) then changed[a := Actions(r)] else changed,
                     if IsMoved(r) then moves[a := r.Get("previous_address")] else moves,
                     if IsLegacy(a) then legacy[a := Change(r)] else legacy,
                     continuation || (a == V2Container && Actions(r) == NoOp))
  {
    hide EntryOk, IsChanged, IsMoved, IsLegacy, Actions, Change, Address, ChangedOf, MovesOf, LegacyOf, Value.Get, Inventory, DistinctAddresses;
    InventoryAppend(rs, r);
    AddEntry(Inventory(rs), Address(r), r);
  }

  lemma InventoryAppend(rs: seq<Value>, r: Value)
    requires DistinctAddresses(rs) && Address(r) !in Inventory(rs)
    ensures DistinctAddresses(rs + [r]) && Inventory(rs + [r]) == Inventory(rs)[Address(r) := r]
  {
    InventoryMembers(rs);
    assert (rs + [r])[..|rs + [r]| - 1] == rs;
    forall i, j | 0 <= i < j < |rs + [r]| ensures Address((rs + [r])[i]) != Address((rs + [r])[j]) {
      if j == |rs| { assert rs[i] in rs; }
    }
  }

  lemma RepeatedAddress(rs: seq<Value>, i: nat)
    requires i < |rs| && DistinctAddresses(rs[..i]) && Address(rs[i]) in Inventory(rs[..i])
    ensures !DistinctAddresses(rs)
  {
    InventoryMembers(rs[..i]);
    var r := Inventory(rs[..i])[Address(rs[i])];
    var k :| 0 <= k < i && rs[..i][k] == r;
    assert Address(rs[k]) == Address(rs[i]);
  }

  /**
   * validate for the secret phase: the loop gathers dictionaries and stops at the first offence; the checks after it
   * compare them. The repeated-move, repeated-change and repeated-legacy checks of the loop can never fire once a
   * repeated address has been refused.
   */
  method Validate(o: Oracles, configuration: bool, changes: Value) returns (ok: bool)
    ensures ok <==> Accepts(o, configuration, changes)
  {
    hide EntryOk, InventoryOk, IsChanged, IsMoved, Actions, Change, Address, Value.Get, Inventory, DistinctAddresses;
    if !changes.Arr? { return false; }
    var rs := changes.items;
    var seen: set<string>, changed: map<string, Value>, moves: map<string, Value>, legacy: map<string, Value> := {}, map[], map[], map[];
    var continuation := false;
    var i := 0;
    NothingGathered(o, rs);
    while i < |rs|
      invariant i <= |rs| && Gathered(o, rs[..i], seen, changed, moves, legacy, continuation)
    {
      hide ChangedOf, MovesOf, LegacyOf, Continues, InventoryOk, IsLegacy;
      var r := rs[i];
      var entryOk := CheckEntry(o, r);
      if !entryOk {
        assert r in rs;
        return false;
      }
      var address := Address(r);
      if address in seen {
        RepeatedAddress(rs, i);
        return false;
      }
      GatherOne(o, rs[..i], r, seen, changed, moves, legacy, continuation);
      assert rs[..i + 1] == rs[..i] + [r];
      seen := seen + {address};
      if address == V2Container && Actions(r) == NoOp { continuation := true; }
      if IsLegacy(address) { legacy := legacy[address := Change(r)]; }
      if IsMoved(r) { moves := moves[address := r.Get("previous_address")]; }
      if IsChanged(r) { changed := changed[address := Actions(r)]; }
      i := i + 1;
    }
    assert rs[..i] == rs;
    ok := Conclude(o, configuration, rs, seen, changed, moves, legacy, continuation);
  }

  lemma NothingGathered(o: Oracles, rs: seq<Value>)
    ensures Gathered(o, rs[..0], {}, map[], map[], map[], false)
  {
    assert rs[..0] == [];
  }

  lemma NotBoth(m: map<string, Value>)
    ensures NoneMoved(m) ==> !BothMoved(m)
    ensures NoneMoved(m) || BothMoved(m) ==> (Continues(m) && !NoneMoved(m) ==> BothMoved(m))
  {
    hide IsMoved;
  }

  lemma MovesFit(o: Oracles, rs: seq<Value>)
    requires DistinctAddresses(rs) && forall r :: r in rs ==> EntryOk(o, r)
    ensures var m := Inventory(rs);
            forall a :: a in m ==> (IsMoved(m[a]) ==> IsLegacy(a) && m[a].Get("previous_address") == Str(MoveOf(a)))
  {
    InventoryMembers(rs);
    var m := Inventory(rs);
    forall a | a in m && IsMoved(m[a]) ensures IsLegacy(a) && m[a].Get("previous_address") == Str(MoveOf(a)) {
      EntryFacts(o, m[a]);
      hide EntryOk, IsMoved, IsLegacy, MoveOf, Address, Inventory, DistinctAddresses, Value.Get;
    }
  }

  lemma V2InInventory(m: map<string, Value>)
    ensures ChangesAreManifest(m) ==> V2Container in m && V2Version in m
  {
    hide IsChanged, Actions;
    assert V2Version in Manifest(Continues(m));
    assert !Continues(m) ==> V2Container in Manifest(Continues(m));
  }

  /** The first entry with an address. */
  method Find(rs: seq<Value>, address: string) returns (r: Value)
    requires DistinctAddresses(rs) && address in Inventory(rs)
    ensures r == Inventory(rs)[address]
  {
    InventoryMembers(rs);
    ghost var x := Inventory(rs)[address];
    hide Inventory, DistinctAddresses, Address;
    var i := 0;
    while Address(rs[i]) != address
      invariant i < |rs| && x in rs[i..]
      decreases |rs| - i
    {
      assert rs[i..] == [rs[i]] + rs[i + 1..];
      i := i + 1;
    }
    assert rs[i] in rs;
    return rs[i];
  }

  /** The comparisons after the loop. */
  method Conclude(o: Oracles, configuration: bool, rs: seq<Value>, seen: set<string>, changed: map<string, Value>,
                  moves: map<string, Value>, legacy: map<string, Value>, continuation: bool) returns (ok: bool)
    requires Gathered(o, rs, seen, changed, moves, legacy, continuation)
    ensures ok <==> InventoryOk(o, configuration, Inventory(rs))
  {
    ghost var m := Inventory(rs);
    InventoryMembers(rs);
    ChangedIsExpectedIff(m);
    MovesFit(o, rs);
    MovesIff(m);
    LegacyNames();
    NotBoth(m);
    hide Inventory, DistinctAddresses, EntryOk, IsChanged, IsMoved, Actions, Change, Address, Value.Get, MoveOf,
      Unchanged, LegacyIdentity, ContainerOk, VersionOk, ChangesAreManifest, BothMoved, NoneMoved, ChangedOf, MovesOf, Continues;
    if continuation && moves != map[] { return false; }
    if changed != Expected(continuation) { return false; }
    if LegacyContainer !in legacy || LegacyVersion !in legacy { return false; }
    if moves != map[] && moves != map[LegacyContainer := Str(OldContainer), LegacyVersion := Str(OldVersion)] { return false; }
    if moves == map[] {
      var container, version := legacy[LegacyContainer], legacy[LegacyVersion];
      if !Unchanged(o, container) || !Unchanged(o, version)
         || !LegacyIdentity(o, container.Get("after"), version.Get("after")) { return false; }
    }
    if !configuration { return false; }
    V2InInventory(m);
    var container := Find(rs, V2Container);
    var version := Find(rs, V2Version);
    return ContainerOk(o, Change(container), continuation) && VersionOk(o, Change(version), continuation);
  }
}
