/** The plans that the secret phase lets through, entry by entry, and plans of both kinds that it does let through. */
module BootstrapPlan {
  import opened Text
  import opened Sorting
  import opened Json
  import opened BootstrapPolicy

  /** The four entries that the phase is about, and in which of its situations the plan is. */
  datatype Four = Four(
    container: Value, version: Value, legacyContainer: Value, legacyVersion: Value, continuation: bool, moved: bool)

  predicate At(r: Value, address: string) { r.Get("address") == Str(address) }

  predicate Acts(r: Value, action: string) { r.Get("change").Get("actions") == Arr([Str(action)]) }

  predicate IsManaged(r: Value) { r.Get("mode") == Str("managed") }

  /** Every entry has an address and a change that imports nothing, and is not one of the old addresses. */
  predicate Described(r: Value)
  {
    && r.Obj? && r.Get("address").Str? && r.Get("change").Obj? && r.Get("change").Get("importing") == Null
    && !At(r, "aws_secretsmanager_secret.runtime") && !At(r, "aws_secretsmanager_secret_version.runtime")
  }

  /** An entry at another address neither moves nor changes anything. */
  predicate Untouched(r: Value)
  {
    && r.Get("previous_address") == Null
    && ((r.Get("mode") == Str("data") && (Acts(r, "no-op") || Acts(r, "read"))) || (IsManaged(r) && Acts(r, "no-op")))
  }

  /** The change leaves a known, non-empty object as it is. */
  predicate Same(o: Oracles, change: Value)
  {
    && change.Get("before").Obj? && change.Get("before").fields != map[] && o.equal(change.Get("before"), change.Get("after"))
    && (change.Has("after_unknown") ==> Known(change.Get("after_unknown")))
  }

  /** The new container: created, or found as the known empty one of the partial first attempt. */
  predicate ContainerEntry(o: Oracles, r: Value, continuation: bool)
  {
    && At(r, "aws_secretsmanager_secret.app_runtime") && IsManaged(r) && r.Get("action_reason") == Null && r.Get("previous_address") == Null
    && if !continuation then Acts(r, "create")
       else
         var before := r.Get("change").Get("before");
         && Acts(r, "no-op") && Same(o, r.Get("change"))
         && before.Get("name") == Str("/mycfc/production/app-runtime-secrets-v2")
         && before.Get("id") == Str("arn:aws:secretsmanager:eu-west-1:334960985019:secret:/mycfc/production/app-runtime-secrets-v2-sVoQ2n")
         && before.Get("arn") == before.Get("id")
  }

  predicate MaybeDict(change: Value) { change.Has("after_unknown") ==> change.Get("after_unknown").Obj? }

  predicate Settled(o: Oracles, change: Value, attribute: string) { !Truthy(o, change.Get("after_unknown").Get(attribute)) }

  predicate Unset(v: Value) { v == Null || v == Str("") }

  predicate ContainerFields(o: Oracles, change: Value, continuation: bool)
  {
    var after := change.Get("after");
    && MaybeDict(change)
    && after.Get("name") == Str("/mycfc/production/app-runtime-secrets-v2")
    && after.Get("description") == Str("MyCFC production web-runtime secrets v2") && Settled(o, change, "description")
    && o.equal(after.Get("recovery_window_in_days"), Num("30")) && Settled(o, change, "recovery_window_in_days")
    && o.equal(after.Get("force_overwrite_replica_secret"), Bool(false)) && Settled(o, change, "force_overwrite_replica_secret")
    && Settled(o, change, "kms_key_id")
    && (after.Get("kms_key_id") == Null || (continuation && o.keyProven(after.Get("kms_key_id"))))
    && (after.Get("replica") == Null || after.Get("replica") == Arr([])) && Unset(after.Get("name_prefix"))
  }

  /** The new version: always created, where there was none. */
  predicate VersionEntry(r: Value)
  {
    && At(r, "aws_secretsmanager_secret_version.app_runtime") && IsManaged(r) && r.Get("action_reason") == Null
    && r.Get("previous_address") == Null && r.Get("change").Get("before") == Null && Acts(r, "create")
  }

  predicate NotUnknown(change: Value, attribute: string)
  {
    !change.Get("after_unknown").Has(attribute) || change.Get("after_unknown").Get(attribute) == Bool(false)
  }

  predicate VersionFields(o: Oracles, change: Value, continuation: bool)
  {
    var after := change.Get("after");
    && MaybeDict(change)
    && (continuation ==>
          && after.Get("secret_id") == Str("arn:aws:secretsmanager:eu-west-1:334960985019:secret:/mycfc/production/app-runtime-secrets-v2-sVoQ2n")
          && NotUnknown(change, "secret_id"))
    && after.Get("version_stages") == Arr([Str("AWSCURRENT")])
    && (NotUnknown(change, "version_stages") || change.Get("after_unknown").Get("version_stages") == Arr([Bool(false)]))
    && Unset(after.Get("secret_binary")) && Settled(o, change, "secret_binary")
    && Unset(after.Get("secret_string_wo")) && Settled(o, change, "secret_string_wo")
    && Unset(after.Get("secret_string_wo_version")) && Settled(o, change, "secret_string_wo_version")
    && o.secretAccepted(after.Get("secret_string")) && Settled(o, change, "secret_string")
  }

  /** A legacy resource: unchanged, and either moved from its old address or not moved. */
  predicate LegacyEntry(r: Value, address: string, old_: string, moved: bool)
  {
    At(r, address) && IsManaged(r) && Acts(r, "no-op") && r.Get("previous_address") == if moved then Str(old_) else Null
  }

  /** The legacy version belongs to the legacy container. */
  predicate LegacyFields(o: Oracles, container: Value, version: Value)
  {
    var arn := container.Get("arn");
    && container.Get("name") == Str("/mycfc/production/app-secrets") && container.Get("id") == arn && arn.Str? && o.legacyArn(arn.s)
    && version.Get("secret_id") == arn && version.Get("version_id").Str? && version.Get("version_id").s != ""
    && version.Get("id") == Str(arn.s + "|" + version.Get("version_id").s)
  }

  predicate FourEntries(o: Oracles, x: Four)
  {
    && ContainerEntry(o, x.container, x.continuation) && ContainerFields(o, x.container.Get("change"), x.continuation)
    && VersionEntry(x.version) && VersionFields(o, x.version.Get("change"), x.continuation)
    && LegacyEntry(x.legacyContainer, "aws_secretsmanager_secret.legacy_runtime", "aws_secretsmanager_secret.runtime", x.moved)
    && LegacyEntry(x.legacyVersion, "aws_secretsmanager_secret_version.legacy_runtime", "aws_secretsmanager_secret_version.runtime", x.moved)
    && (x.continuation ==> !x.moved)
    && (!x.moved ==>
          && Same(o, x.legacyContainer.Get("change")) && Same(o, x.legacyVersion.Get("change"))
          && LegacyFields(o, x.legacyContainer.Get("change").Get("after"), x.legacyVersion.Get("change").Get("after")))
  }

  predicate IsOne(r: Value, x: Four) { r == x.container || r == x.version || r == x.legacyContainer || r == x.legacyVersion }

  /** The four entries are there, every other one is left alone, and no address occurs twice. */
  predicate PlanOf(o: Oracles, rs: seq<Value>, x: Four)
  {
    && FourEntries(o, x) && x.container in rs && x.version in rs && x.legacyContainer in rs && x.legacyVersion in rs
    && (forall r :: r in rs ==> Described(r) && (IsOne(r, x) || Untouched(r)))
    && forall i, j :: 0 <= i < j < |rs| ==> rs[i].Get("address") != rs[j].Get("address")
  }

  // ----- the pass decides exactly these plans -----

  lemma PiecesIff(o: Oracles, r: Value, s: Value, continuation: bool)
    ensures ContainerFields(o, Change(r), continuation) <==> ContainerOk(o, Change(r), continuation)
    ensures VersionFields(o, Change(r), continuation) <==> VersionOk(o, Change(r), continuation)
    ensures Same(o, Change(r)) <==> Unchanged(o, Change(r))
    ensures LegacyFields(o, r, s) <==> LegacyIdentity(o, r, s)
  {
    hide Value.Get, Value.Has, Truthy, Known;
  }

  lemma AddressIs(r: Value, address: string)
    requires r.Get("address").Str?
    ensures At(r, address) <==> Address(r) == address
  {
    hide Value.Get;
  }

  lemma ActsIs(r: Value)
    ensures Acts(r, "no-op") <==> Actions(r) == NoOp
    ensures Acts(r, "create") <==> Actions(r) == Create
    ensures Acts(r, "read") <==> Actions(r) == BootstrapPolicy.Read
  {
    hide Value.Get;
  }

  predicate OneOfFour(address: string)
  {
    address == V2Container || address == V2Version || address == LegacyContainer || address == LegacyVersion
  }

  /** The checks of one entry, for each kind of address. */
  lemma EntryIff(o: Oracles, r: Value)
    requires r.Obj? && r.Get("address").Str?
    ensures EntryOk(o, r) ==> Described(r)
    ensures !OneOfFour(Address(r)) ==> (EntryOk(o, r) && !IsChanged(r) <==> Described(r) && Untouched(r))
  {
    AddressIs(r, OldContainer);
    AddressIs(r, OldVersion);
    ActsIs(r);
    hide Value.Get, Address, At, Acts, Truthy, Unchanged, RecoveryContainer;
  }

  lemma ContainerIff(o: Oracles, r: Value, continuation: bool)
    requires Described(r) && Address(r) == V2Container
    ensures ContainerEntry(o, r, continuation) <==>
            EntryOk(o, r) && (if continuation then Actions(r) == NoOp else Actions(r) == Create) && !IsMoved(r)
  {
    FourAddresses(r);
    ActsIs(r);
    PiecesIff(o, r, r, continuation);
    hide Value.Get, Address, At, Acts, Truthy, Unchanged, Same;
  }

  lemma VersionIff(o: Oracles, r: Value)
    requires Described(r) && Address(r) == V2Version
    ensures VersionEntry(r) <==> EntryOk(o, r) && Actions(r) == Create && !IsMoved(r)
  {
    FourAddresses(r);
    ActsIs(r);
    hide Value.Get, Address, At, Acts, Truthy, Unchanged, RecoveryContainer;
  }

  lemma LegacyIff(o: Oracles, r: Value, moved: bool)
    requires Described(r) && IsLegacy(Address(r))
    ensures LegacyEntry(r, Address(r), MoveOf(Address(r)), moved) <==> EntryOk(o, r) && IsMoved(r) == moved
  {
    FourAddresses(r);
    ActsIs(r);
    hide Value.Get, Address, Acts, Truthy, Unchanged, RecoveryContainer;
  }

  /** The four addresses and the two old ones differ from each other. */
  lemma FourAddresses(r: Value)
    requires r.Get("address").Str?
    ensures At(r, V2Container) <==> Address(r) == V2Container
    ensures At(r, V2Version) <==> Address(r) == V2Version
    ensures At(r, LegacyContainer) <==> Address(r) == LegacyContainer
    ensures At(r, LegacyVersion) <==> Address(r) == LegacyVersion
    ensures At(r, OldContainer) <==> Address(r) == OldContainer
    ensures At(r, OldVersion) <==> Address(r) == OldVersion
  {
    hide Value.Get;
  }

  lemma DifferentAddresses()
    ensures V2Container != V2Version && V2Container != LegacyContainer && V2Container != LegacyVersion
    ensures V2Version != LegacyContainer && V2Version != LegacyVersion && LegacyContainer != LegacyVersion
    ensures OldContainer != V2Container && OldContainer != LegacyContainer && OldContainer != V2Version && OldContainer != LegacyVersion
    ensures OldVersion != V2Container && OldVersion != LegacyContainer && OldVersion != V2Version && OldVersion != LegacyVersion
  {
    assert |V2Container| == 37 && |V2Version| == 45 && |LegacyContainer| == 40 && |LegacyVersion| == 48;
    assert |OldContainer| == 33 && |OldVersion| == 41;
  }

  lemma DistinctIff(rs: seq<Value>)
    requires forall r :: r in rs ==> r.Get("address").Str?
    ensures DistinctAddresses(rs) <==> forall i, j :: 0 <= i < j < |rs| ==> rs[i].Get("address") != rs[j].Get("address")
  {
    hide Value.Get;
    forall i | 0 <= i < |rs| ensures rs[i].Get("address") == Str(Address(rs[i])) { assert rs[i] in rs; }
    hide Address;
  }

  /** The two legacy entries, bound to each other unless they are moved. */
  predicate LegacyPair(o: Oracles, c: Value, v: Value, moved: bool)
  {
    && LegacyEntry(c, "aws_secretsmanager_secret.legacy_runtime", "aws_secretsmanager_secret.runtime", moved)
    && LegacyEntry(v, "aws_secretsmanager_secret_version.legacy_runtime", "aws_secretsmanager_secret_version.runtime", moved)
    && (!moved ==>
          && Same(o, c.Get("change")) && Same(o, v.Get("change"))
          && LegacyFields(o, c.Get("change").Get("after"), v.Get("change").Get("after")))
  }

  lemma FourIff(o: Oracles, x: Four)
    ensures FourEntries(o, x) <==>
            && ContainerEntry(o, x.container, x.continuation) && ContainerFields(o, x.container.Get("change"), x.continuation)
            && VersionEntry(x.version) && VersionFields(o, x.version.Get("change"), x.continuation)
            && LegacyPair(o, x.legacyContainer, x.legacyVersion, x.moved) && (x.continuation ==> !x.moved)
  {
    hide ContainerEntry, ContainerFields, VersionEntry, VersionFields, LegacyEntry, Same, LegacyFields, Value.Get;
  }

  lemma LegacyPairIff(o: Oracles, c: Value, v: Value, moved: bool)
    requires Described(c) && Described(v) && Address(c) == LegacyContainer && Address(v) == LegacyVersion
    ensures LegacyPair(o, c, v, moved) <==>
            && EntryOk(o, c) && EntryOk(o, v) && IsMoved(c) == moved && IsMoved(v) == moved
            && (!moved ==> Unchanged(o, Change(c)) && Unchanged(o, Change(v))
                           && LegacyIdentity(o, Change(c).Get("after"), Change(v).Get("after")))
  {
    hide EntryOk, LegacyEntry, LegacyFields, Same, Unchanged, LegacyIdentity, Described, Address, IsMoved, Value.Get;
    DifferentAddresses();
    LegacyIff(o, c, moved);
    LegacyIff(o, v, moved);
    PiecesIff(o, c, c, false);
    PiecesIff(o, v, v, false);
    PiecesIff(o, Change(c).Get("after"), Change(v).Get("after"), false);
  }

  lemma NewPairIff(o: Oracles, c: Value, v: Value, continuation: bool)
    requires Described(c) && Described(v) && Address(c) == V2Container && Address(v) == V2Version
    ensures && ContainerEntry(o, c, continuation) && ContainerFields(o, c.Get("change"), continuation)
            && VersionEntry(v) && VersionFields(o, v.Get("change"), continuation) <==>
            && EntryOk(o, c) && EntryOk(o, v) && (if continuation then Actions(c) == NoOp else Actions(c) == Create) && Actions(v) == Create
            && ContainerOk(o, Change(c), continuation) && VersionOk(o, Change(v), continuation) && !IsMoved(c) && !IsMoved(v)
  {
    hide EntryOk, ContainerEntry, ContainerFields, VersionEntry, VersionFields, ContainerOk, VersionOk, Described, Address, IsMoved, Value.Get;
    ContainerIff(o, c, continuation);
    VersionIff(o, v);
    PiecesIff(o, c, c, continuation);
    PiecesIff(o, v, v, continuation);
  }

  /** An entry of the new pair is never moved. */
  lemma NewNotMoved(o: Oracles, r: Value)
    requires EntryOk(o, r) && (Address(r) == V2Container || Address(r) == V2Version)
    ensures !IsMoved(r)
  {
    DifferentAddresses();
    hide Address, IsMoved, V2Ok, ModeOk, Value.Get;
  }

  /** The four entries of an inventory that the policy accepts. */
  lemma AcceptedFour(o: Oracles, m: map<string, Value>) returns (x: Four)
    requires InventoryOk(o, true, m)
    requires forall a :: a in m ==> EntryOk(o, m[a]) && Address(m[a]) == a
    ensures V2Container in m && V2Version in m && LegacyContainer in m && LegacyVersion in m
    ensures x == Four(m[V2Container], m[V2Version], m[LegacyContainer], m[LegacyVersion], Continues(m), BothMoved(m))
    ensures FourEntries(o, x)
  {
    hide EntryOk, ContainerOk, VersionOk, Address, IsMoved, Unchanged, LegacyIdentity, Value.Get, ContainerEntry, ContainerFields, VersionEntry,
      VersionFields, LegacyPair, FourEntries, Described, Continues, ChangesAreManifest, BothMoved, NoneMoved;
    x := Four(m[V2Container], m[V2Version], m[LegacyContainer], m[LegacyVersion], Continues(m), BothMoved(m));
    DescribedAt(o, m, V2Container);
    DescribedAt(o, m, V2Version);
    DescribedAt(o, m, LegacyContainer);
    DescribedAt(o, m, LegacyVersion);
    CreatedAt(m);
    NewNotMoved(o, x.container);
    NewNotMoved(o, x.version);
    NewPairIff(o, x.container, x.version, x.continuation);
    NoneMovedAt(m);
    LegacyPairIff(o, x.legacyContainer, x.legacyVersion, x.moved);
    FourIff(o, x);
  }

  lemma DescribedAt(o: Oracles, m: map<string, Value>, a: string)
    requires a in m && EntryOk(o, m[a])
    ensures Described(m[a])
  {
    EntryIff(o, m[a]);
  }

  lemma CreatedAt(m: map<string, Value>)
    requires ChangesAreManifest(m) && V2Container in m && V2Version in m
    ensures Actions(m[V2Version]) == Create
    ensures if Continues(m) then Actions(m[V2Container]) == NoOp else Actions(m[V2Container]) == Create
  {
    hide IsChanged, Actions;
    assert V2Version in Manifest(Continues(m));
    assert !Continues(m) ==> V2Container in Manifest(Continues(m));
  }

  lemma NoneMovedAt(m: map<string, Value>)
    requires LegacyContainer in m && LegacyVersion in m && (BothMoved(m) || NoneMoved(m))
    ensures IsMoved(m[LegacyContainer]) == BothMoved(m) && IsMoved(m[LegacyVersion]) == BothMoved(m)
    ensures NoneMoved(m) ==> !BothMoved(m)
  {
    hide IsMoved;
  }

  /** The other entries of an accepted inventory are left alone. */
  lemma OthersUntouched(o: Oracles, m: map<string, Value>, a: string)
    requires a in m && EntryOk(o, m[a]) && Address(m[a]) == a && ChangesAreManifest(m) && !OneOfFour(a)
    ensures Untouched(m[a])
  {
    EntryIff(o, m[a]);
    hide EntryOk, Untouched, Described, Address, Actions, IsChanged;
    assert a !in Manifest(Continues(m));
  }

  /** m is the plan's inventory: every entry under its address. */
  ghost predicate Indexes(rs: seq<Value>, m: map<string, Value>)
  {
    && (forall r :: r in rs ==> Address(r) in m && m[Address(r)] == r)
    && (forall a :: a in m ==> m[a] in rs && Address(m[a]) == a)
  }

  lemma AcceptedParts(o: Oracles, rs: seq<Value>)
    requires Accepts(o, true, Arr(rs))
    ensures DistinctAddresses(rs) && (forall r :: r in rs ==> EntryOk(o, r)) && InventoryOk(o, true, Inventory(rs)) && Indexes(rs, Inventory(rs))
  {
    hide Inventory, EntryOk, InventoryOk, Address, DistinctAddresses;
    InventoryMembers(rs);
  }

  lemma EntriesOfPlan(o: Oracles, rs: seq<Value>, m: map<string, Value>, x: Four)
    requires Indexes(rs, m) && (forall r :: r in rs ==> EntryOk(o, r)) && ChangesAreManifest(m)
    requires V2Container in m && V2Version in m && LegacyContainer in m && LegacyVersion in m
    requires x == Four(m[V2Container], m[V2Version], m[LegacyContainer], m[LegacyVersion], x.continuation, x.moved)
    ensures x.container in rs && x.version in rs && x.legacyContainer in rs && x.legacyVersion in rs
    ensures forall r :: r in rs ==> Described(r) && (IsOne(r, x) || Untouched(r))
  {
    hide EntryOk, Address, Described, Untouched, ChangesAreManifest;
    forall r | r in rs ensures Described(r) && (IsOne(r, x) || Untouched(r)) {
      var a := Address(r);
      DescribedAt(o, m, a);
      if !OneOfFour(a) { OthersUntouched(o, m, a); }
    }
  }

  lemma AcceptedIsPlan(o: Oracles, rs: seq<Value>) returns (x: Four)
    requires Accepts(o, true, Arr(rs))
    ensures PlanOf(o, rs, x)
  {
    hide Accepts, Inventory, EntryOk, ContainerOk, VersionOk, Address, LegacyCompleted, Value.Get, FourEntries, Described, Continues,
      DistinctAddresses, Untouched, BothMoved, NoneMoved, ChangesAreManifest, IsOne;
    AcceptedParts(o, rs);
    var m := Inventory(rs);
    x := AcceptedFour(o, m);
    EntriesOfPlan(o, rs, m, x);
    AddressesThere(rs);
    DistinctIff(rs);
  }

  lemma AddressesThere(rs: seq<Value>)
    requires forall r :: r in rs ==> Described(r)
    ensures forall r :: r in rs ==> r.Get("address").Str?
  {
  }

  // ----- the other direction -----

  lemma EntryOfPlan(o: Oracles, rs: seq<Value>, x: Four, r: Value)
    requires PlanOf(o, rs, x) && r in rs
    ensures EntryOk(o, r) && (IsOne(r, x) || (!OneOfFour(Address(r)) && !IsChanged(r) && !IsMoved(r)))
  {
    hide PlanOf, FourEntries, EntryOk, Untouched, Address, IsChanged, IsMoved, Described, OneOfFour;
    if IsOne(r, x) {
      FourOk(o, rs, x);
    } else {
      OtherAddress(o, rs, x, r);
      OtherEntry(o, r);
    }
  }

  lemma FourOk(o: Oracles, rs: seq<Value>, x: Four)
    requires PlanOf(o, rs, x)
    ensures EntryOk(o, x.container) && EntryOk(o, x.version) && EntryOk(o, x.legacyContainer) && EntryOk(o, x.legacyVersion)
  {
    PlanAddresses(o, rs, x);
    hide ContainerEntry, ContainerFields, VersionEntry, VersionFields, LegacyPair, FourEntries, EntryOk, Untouched, Value.Get, Address, IsMoved,
      Described, ContainerOk, VersionOk, Unchanged, LegacyIdentity;
    FourIff(o, x);
    NewPairIff(o, x.container, x.version, x.continuation);
    LegacyPairIff(o, x.legacyContainer, x.legacyVersion, x.moved);
  }

  lemma OtherEntry(o: Oracles, r: Value)
    requires Described(r) && Untouched(r) && !OneOfFour(Address(r))
    ensures EntryOk(o, r) && !IsChanged(r) && !IsMoved(r)
  {
    EntryIff(o, r);
    hide Described, Address, EntryOk, IsChanged, OneOfFour;
  }

  lemma PlanAddresses(o: Oracles, rs: seq<Value>, x: Four)
    requires PlanOf(o, rs, x)
    ensures Described(x.container) && Address(x.container) == V2Container && Described(x.version) && Address(x.version) == V2Version
    ensures Described(x.legacyContainer) && Address(x.legacyContainer) == LegacyContainer
    ensures Described(x.legacyVersion) && Address(x.legacyVersion) == LegacyVersion
  {
    hide ContainerFields, VersionFields, LegacyFields, Same, Untouched, Value.Get, Acts, Truthy;
    assert Described(x.container) && Described(x.version) && Described(x.legacyContainer) && Described(x.legacyVersion);
    FourAddresses(x.container);
    FourAddresses(x.version);
    FourAddresses(x.legacyContainer);
    FourAddresses(x.legacyVersion);
  }

  lemma OtherAddress(o: Oracles, rs: seq<Value>, x: Four, r: Value)
    requires PlanOf(o, rs, x) && r in rs && !IsOne(r, x)
    ensures !OneOfFour(Address(r)) && Described(r) && Untouched(r)
  {
    PlanAddresses(o, rs, x);
    hide FourEntries, Untouched, Described, Value.Get, Address;
    AddressesThere(rs);
    DistinctIff(rs);
    DifferentAddress(rs, r, x.container);
    DifferentAddress(rs, r, x.version);
    DifferentAddress(rs, r, x.legacyContainer);
    DifferentAddress(rs, r, x.legacyVersion);
  }

  lemma DifferentAddress(rs: seq<Value>, r: Value, s: Value)
    requires DistinctAddresses(rs) && r in rs && s in rs && r != s
    ensures Address(r) != Address(s)
  {
    hide Address;
    var i :| 0 <= i < |rs| && rs[i] == r;
    var j :| 0 <= j < |rs| && rs[j] == s;
    if i < j { assert Address(rs[i]) != Address(rs[j]); } else { assert Address(rs[j]) != Address(rs[i]); }
  }

  lemma PlanIsAccepted(o: Oracles, rs: seq<Value>, x: Four)
    requires PlanOf(o, rs, x)
    ensures Accepts(o, true, Arr(rs))
  {
    hide PlanOf, Inventory, EntryOk, InventoryOk, Address, IsChanged, IsMoved, DistinctAddresses, OneOfFour, IsOne, Indexes;
    forall r | r in rs ensures EntryOk(o, r) && (IsOne(r, x) || (!OneOfFour(Address(r)) && !IsChanged(r) && !IsMoved(r))) {
      EntryOfPlan(o, rs, x, r);
    }
    PlanIndexes(o, rs, x);
    PlanInventory(o, rs, x, Inventory(rs));
  }

  lemma PlanIndexes(o: Oracles, rs: seq<Value>, x: Four)
    requires PlanOf(o, rs, x)
    ensures DistinctAddresses(rs) && Indexes(rs, Inventory(rs))
  {
    hide Inventory, FourEntries, Described, Untouched, Address, IsOne, Value.Get;
    AddressesThere(rs);
    DistinctIff(rs);
    InventoryMembers(rs);
  }

  lemma PlanInventory(o: Oracles, rs: seq<Value>, x: Four, m: map<string, Value>)
    requires PlanOf(o, rs, x) && Indexes(rs, m)
    requires forall r :: r in rs ==> IsOne(r, x) || (!OneOfFour(Address(r)) && !IsChanged(r) && !IsMoved(r))
    ensures InventoryOk(o, true, m)
  {
    PlanAddresses(o, rs, x);
    FourIff(o, x);
    hide ContainerFields, VersionFields, LegacyFields, ContainerEntry, VersionEntry, Untouched, Value.Get, Address, IsChanged, IsMoved, Described,
      LegacyPair, FourEntries, EntryOk, ContainerOk, VersionOk, Unchanged, LegacyIdentity, Actions, OneOfFour, ChangesAreManifest, NoneMoved;
    NewPairIff(o, x.container, x.version, x.continuation);
    LegacyPairIff(o, x.legacyContainer, x.legacyVersion, x.moved);
    assert m[V2Container] == x.container && m[V2Version] == x.version;
    assert m[LegacyContainer] == x.legacyContainer && m[LegacyVersion] == x.legacyVersion;
    assert Continues(m) == x.continuation by { CreateIsNoNoOp(); }
    assert BothMoved(m) == x.moved;
    ManifestHolds(o, rs, x, m);
    if !x.moved { NothingMoves(rs, x, m); }
  }

  lemma CreateIsNoNoOp()
    ensures Create != NoOp
  {
    assert |"create"| != |"no-op"|;
  }

  lemma NothingMoves(rs: seq<Value>, x: Four, m: map<string, Value>)
    requires Indexes(rs, m) && (forall r :: r in rs ==> IsOne(r, x) || !IsMoved(r))
    requires !IsMoved(x.container) && !IsMoved(x.version) && !IsMoved(x.legacyContainer) && !IsMoved(x.legacyVersion)
    ensures NoneMoved(m)
  {
    hide IsMoved, Address;
  }

  lemma ManifestHolds(o: Oracles, rs: seq<Value>, x: Four, m: map<string, Value>)
    requires Indexes(rs, m) && V2Container in m && V2Version in m && LegacyContainer in m && LegacyVersion in m
    requires x == Four(m[V2Container], m[V2Version], m[LegacyContainer], m[LegacyVersion], Continues(m), x.moved)
    requires EntryOk(o, x.container) && EntryOk(o, x.version) && EntryOk(o, x.legacyContainer) && EntryOk(o, x.legacyVersion)
    requires Actions(x.version) == Create && (!Continues(m) ==> Actions(x.container) == Create)
    requires forall r :: r in rs ==> IsOne(r, x) || !IsChanged(r)
    ensures ChangesAreManifest(m)
  {
    hide EntryOk, Address, Actions, Managed, Continues;
    CreateIsNoNoOp();
    DifferentAddresses();
    NewManaged(o, x.container);
    NewManaged(o, x.version);
    LegacyUnchanged(o, x.legacyContainer);
    LegacyUnchanged(o, x.legacyVersion);
    assert IsChanged(x.version) && (!Continues(m) ==> IsChanged(x.container));
    ContinuationIdle(m);
    hide IsChanged;
  }

  lemma ContinuationIdle(m: map<string, Value>)
    ensures Continues(m) ==> !IsChanged(m[V2Container])
  {
    hide Actions, Managed;
  }

  lemma NewManaged(o: Oracles, r: Value)
    requires EntryOk(o, r) && (Address(r) == V2Container || Address(r) == V2Version)
    ensures Managed(r)
  {
    hide Address, MoveOk, ModeOk, Value.Get;
  }

  lemma LegacyUnchanged(o: Oracles, r: Value)
    requires EntryOk(o, r) && IsLegacy(Address(r))
    ensures !IsChanged(r)
  {
    hide Address, V2Ok, ModeOk, Value.Get;
  }

  /** The gate accepts exactly the plans described above, when the configuration refers to the new secret alone. */
  lemma AcceptsPlanIff(o: Oracles, configuration: bool, rs: seq<Value>)
    ensures Accepts(o, configuration, Arr(rs)) <==> configuration && exists x :: PlanOf(o, rs, x)
  {
    NeedsConfiguration(o, configuration, rs);
    hide Accepts, PlanOf;
    if configuration && Accepts(o, true, Arr(rs)) { var x := AcceptedIsPlan(o, rs); }
    forall x | PlanOf(o, rs, x) ensures Accepts(o, true, Arr(rs)) { PlanIsAccepted(o, rs, x); }
  }

  lemma NeedsConfiguration(o: Oracles, configuration: bool, rs: seq<Value>)
    ensures Accepts(o, configuration, Arr(rs)) ==> configuration
  {
    hide EntryOk, ContainerOk, VersionOk, Inventory, DistinctAddresses, ChangesAreManifest, LegacyCompleted;
  }

  // ----- plans of each situation -----

  function EntryOf(address: string, previous: Value, change: Value): Value
  {
    Obj(map["address" := Str(address), "mode" := Str("managed"), "previous_address" := previous, "change" := change])
  }

  function ChangeOf(action: string, before: Value, after: Value): Value
  {
    Obj(map["actions" := Arr([Str(action)]), "before" := before, "after" := after])
  }

  /** The new container as planned, or as found. */
  function NewContainer(arn: string): Value
  {
    Obj(map["name" := Str("/mycfc/production/app-runtime-secrets-v2"), "id" := Str(arn), "arn" := Str(arn),
            "description" := Str("MyCFC production web-runtime secrets v2"), "recovery_window_in_days" := Num("30"),
            "force_overwrite_replica_secret" := Bool(false)])
  }

  function NewVersion(arn: string, secret: string): Value
  {
    Obj(map["secret_id" := Str(arn), "version_stages" := Arr([Str("AWSCURRENT")]), "secret_string" := Str(secret)])
  }

  function OldContainerItem(arn: string): Value
  {
    Obj(map["name" := Str("/mycfc/production/app-secrets"), "arn" := Str(arn), "id" := Str(arn)])
  }

  function OldVersionItem(arn: string, versionId: string): Value
  {
    Obj(map["secret_id" := Str(arn), "version_id" := Str(versionId), "id" := Str(arn + "|" + versionId)])
  }

  const RecoveryArn := "arn:aws:secretsmanager:eu-west-1:334960985019:secret:/mycfc/production/app-runtime-secrets-v2-sVoQ2n"

  /** The four entries of a first attempt, or of its continuation; the legacy resources just moved, or moved before. */
  function FourOf(arn: string, versionId: string, secret: string, continuation: bool, moved: bool): Four
  {
    var container, old_, version := NewContainer(RecoveryArn), OldContainerItem(arn), OldVersionItem(arn, versionId);
    Four(
      EntryOf("aws_secretsmanager_secret.app_runtime", Null,
              if continuation then ChangeOf("no-op", container, container) else ChangeOf("create", Null, container)),
      EntryOf("aws_secretsmanager_secret_version.app_runtime", Null, ChangeOf("create", Null, NewVersion(RecoveryArn, secret))),
      EntryOf("aws_secretsmanager_secret.legacy_runtime", if moved then Str("aws_secretsmanager_secret.runtime") else Null,
              ChangeOf("no-op", old_, old_)),
      EntryOf("aws_secretsmanager_secret_version.legacy_runtime", if moved then Str("aws_secretsmanager_secret_version.runtime") else Null,
              ChangeOf("no-op", version, version)),
      continuation, moved)
  }

  function EntriesOf(x: Four, others: seq<Value>): seq<Value> { [x.container, x.version, x.legacyContainer, x.legacyVersion] + others }

  /** The interpreter's equality is reflexive, and the secret and the legacy name are acceptable. */
  ghost predicate Suits(o: Oracles, arn: string, secret: string)
  {
    (forall v: Value :: o.equal(v, v)) && o.secretAccepted(Str(secret)) && o.legacyArn(arn)
  }

  /** Other entries leave everything alone and have addresses of their own. */
  predicate Bystanders(others: seq<Value>)
  {
    && (forall i :: 0 <= i < |others| ==>
          && Described(others[i]) && Untouched(others[i])
          && !At(others[i], "aws_secretsmanager_secret.app_runtime") && !At(others[i], "aws_secretsmanager_secret_version.app_runtime")
          && !At(others[i], "aws_secretsmanager_secret.legacy_runtime") && !At(others[i], "aws_secretsmanager_secret_version.legacy_runtime"))
    && forall i, j :: 0 <= i < j < |others| ==> others[i].Get("address") != others[j].Get("address")
  }

  lemma EntryFields(address: string, previous: Value, change: Value)
    ensures var r := EntryOf(address, previous, change);
            && r.Obj? && r.Get("address") == Str(address) && r.Get("mode") == Str("managed") && r.Get("previous_address") == previous
            && r.Get("change") == change && r.Get("action_reason") == Null
  {
    assert |"address"| == 7 && |"mode"| == 4 && |"previous_address"| == 16 && |"change"| == 6 && |"action_reason"| == 13;
  }

  lemma ChangeFields(action: string, before: Value, after: Value)
    ensures var c := ChangeOf(action, before, after);
            && c.Obj? && c.Get("actions") == Arr([Str(action)]) && c.Get("before") == before && c.Get("after") == after
            && c.Get("importing") == Null && !c.Has("after_unknown") && c.Get("after_unknown") == Null
  {
    assert |"actions"| == 7 && |"before"| == 6 && |"after"| == 5 && |"importing"| == 9 && |"after_unknown"| == 13;
  }

  lemma NewContainerFields(arn: string)
    ensures var v := NewContainer(arn);
            && v.Obj? && v.fields != map[] && v.Get("name") == Str("/mycfc/production/app-runtime-secrets-v2")
            && v.Get("id") == Str(arn) && v.Get("arn") == Str(arn)
            && v.Get("description") == Str("MyCFC production web-runtime secrets v2")
            && v.Get("recovery_window_in_days") == Num("30") && v.Get("force_overwrite_replica_secret") == Bool(false)
            && v.Get("kms_key_id") == Null && v.Get("replica") == Null && v.Get("name_prefix") == Null
  {
    assert |"name"| == 4 && |"id"| == 2 && |"arn"| == 3 && |"description"| == 11 && |"recovery_window_in_days"| == 23;
    assert |"force_overwrite_replica_secret"| == 30 && |"kms_key_id"| == 10 && |"replica"| == 7 && |"name_prefix"| == 11;
    assert "name_prefix"[0] == 'n' && "description"[0] == 'd';
    assert "id" in NewContainer(arn).fields;
  }

  lemma NewVersionFields(arn: string, secret: string)
    ensures var v := NewVersion(arn, secret);
            && v.Get("secret_id") == Str(arn) && v.Get("version_stages") == Arr([Str("AWSCURRENT")]) && v.Get("secret_string") == Str(secret)
            && v.Get("secret_binary") == Null && v.Get("secret_string_wo") == Null && v.Get("secret_string_wo_version") == Null
  {
    assert |"secret_id"| == 9 && |"version_stages"| == 14 && |"secret_string"| == 13 && |"secret_binary"| == 13;
    assert |"secret_string_wo"| == 16 && |"secret_string_wo_version"| == 24;
    assert "secret_string"[7] == 's' && "secret_binary"[7] == 'b';
  }

  lemma OldFields(arn: string, versionId: string)
    ensures var c, v := OldContainerItem(arn), OldVersionItem(arn, versionId);
            && c.Obj? && v.Obj? && c.fields != map[] && v.fields != map[]
            && c.Get("name") == Str("/mycfc/production/app-secrets") && c.Get("arn") == Str(arn) && c.Get("id") == Str(arn)
            && v.Get("secret_id") == Str(arn) && v.Get("version_id") == Str(versionId) && v.Get("id") == Str(arn + "|" + versionId)
  {
    assert |"name"| == 4 && |"id"| == 2 && |"arn"| == 3 && |"secret_id"| == 9 && |"version_id"| == 10;
    assert "id" in OldContainerItem(arn).fields && "id" in OldVersionItem(arn, versionId).fields;
  }

  lemma ContainerFits(o: Oracles, arn: string, versionId: string, secret: string, continuation: bool, moved: bool)
    requires Suits(o, arn, secret)
    ensures var r := FourOf(arn, versionId, secret, continuation, moved).container;
            Described(r) && ContainerEntry(o, r, continuation) && ContainerFields(o, r.Get("change"), continuation)
  {
    hide NewContainer, OldContainerItem, OldVersionItem, NewVersion, EntryOf, ChangeOf, Value.Get, Value.Has, ContainerEntry, ContainerFields,
      Described;
    var v := NewContainer(RecoveryArn);
    var c := if continuation then ChangeOf("no-op", v, v) else ChangeOf("create", Null, v);
    var r := EntryOf("aws_secretsmanager_secret.app_runtime", Null, c);
    EntryFields("aws_secretsmanager_secret.app_runtime", Null, c);
    ChangeFields("no-op", v, v);
    ChangeFields("create", Null, v);
    NotOld(V2Container);
    IsDescribed(r, V2Container);
    ContainerEntryFits(o, r, v, continuation);
    ContainerFieldsFit(o, c, v, continuation);
  }

  lemma IsDescribed(r: Value, address: string)
    requires r.Obj? && r.Get("address") == Str(address) && r.Get("change").Obj? && r.Get("change").Get("importing") == Null
    requires address != "aws_secretsmanager_secret.runtime" && address != "aws_secretsmanager_secret_version.runtime"
    ensures Described(r)
  {
    hide Value.Get;
  }

  lemma ContainerEntryFits(o: Oracles, r: Value, v: Value, continuation: bool)
    requires At(r, "aws_secretsmanager_secret.app_runtime") && IsManaged(r) && r.Get("action_reason") == Null && r.Get("previous_address") == Null
    requires v == NewContainer(RecoveryArn) && Acts(r, if continuation then "no-op" else "create") && o.equal(v, v)
    requires continuation ==> r.Get("change").Get("before") == v && r.Get("change").Get("after") == v && !r.Get("change").Has("after_unknown")
    ensures ContainerEntry(o, r, continuation)
  {
    NewContainerFields(RecoveryArn);
    hide NewContainer, Value.Get, Value.Has, Known, At, Acts;
  }

  lemma ContainerFieldsFit(o: Oracles, c: Value, v: Value, continuation: bool)
    requires v == NewContainer(RecoveryArn) && c.Get("after") == v && !c.Has("after_unknown") && c.Get("after_unknown") == Null
    requires forall x: Value :: o.equal(x, x)
    ensures ContainerFields(o, c, continuation)
  {
    NewContainerFields(RecoveryArn);
    NothingUnknown(o, c);
    hide NewContainer, Value.Get, Value.Has, Settled;
  }

  lemma NotOld(address: string)
    requires |address| != 33 && |address| != 41
    ensures address != "aws_secretsmanager_secret.runtime" && address != "aws_secretsmanager_secret_version.runtime"
  {
    assert |"aws_secretsmanager_secret.runtime"| == 33 && |"aws_secretsmanager_secret_version.runtime"| == 41;
  }

  lemma VersionFits(o: Oracles, arn: string, versionId: string, secret: string, continuation: bool, moved: bool)
    requires Suits(o, arn, secret)
    ensures var r := FourOf(arn, versionId, secret, continuation, moved).version;
            Described(r) && VersionEntry(r) && VersionFields(o, r.Get("change"), continuation)
  {
    hide NewContainer, OldContainerItem, OldVersionItem, NewVersion, EntryOf, ChangeOf, Value.Get, Value.Has, Settled, NotUnknown;
    var v := NewVersion(RecoveryArn, secret);
    var c := ChangeOf("create", Null, v);
    EntryFields("aws_secretsmanager_secret_version.app_runtime", Null, c);
    ChangeFields("create", Null, v);
    NewVersionFields(RecoveryArn, secret);
    NothingUnknown(o, c);
    NotOld(V2Version);
  }

  lemma NothingUnknown(o: Oracles, change: Value)
    requires change.Get("after_unknown") == Null
    ensures forall attribute :: Settled(o, change, attribute) && NotUnknown(change, attribute)
  {
  }

  lemma LegacyFits(o: Oracles, arn: string, versionId: string, secret: string, continuation: bool, moved: bool)
    requires Suits(o, arn, secret) && versionId != ""
    ensures var x := FourOf(arn, versionId, secret, continuation, moved);
            Described(x.legacyContainer) && Described(x.legacyVersion) && LegacyPair(o, x.legacyContainer, x.legacyVersion, moved)
  {
    hide NewContainer, OldContainerItem, OldVersionItem, NewVersion, EntryOf, ChangeOf, Value.Get, Value.Has, Known;
    var c, v := OldContainerItem(arn), OldVersionItem(arn, versionId);
    EntryFields("aws_secretsmanager_secret.legacy_runtime", if moved then Str("aws_secretsmanager_secret.runtime") else Null,
                ChangeOf("no-op", c, c));
    EntryFields("aws_secretsmanager_secret_version.legacy_runtime",
                if moved then Str("aws_secretsmanager_secret_version.runtime") else Null, ChangeOf("no-op", v, v));
    ChangeFields("no-op", c, c);
    ChangeFields("no-op", v, v);
    OldFields(arn, versionId);
    NotOld(LegacyContainer);
    NotOld(LegacyVersion);
  }

  lemma FourPlan(o: Oracles, x: Four, others: seq<Value>)
    requires FourEntries(o, x) && Bystanders(others)
    requires Described(x.container) && Described(x.version) && Described(x.legacyContainer) && Described(x.legacyVersion)
    ensures PlanOf(o, EntriesOf(x, others), x)
  {
    hide FourEntries, Described, Untouched, Value.Get, Bystanders;
    var rs := EntriesOf(x, others);
    BystandersAre(others);
    forall r | r in rs ensures Described(r) && (IsOne(r, x) || Untouched(r)) {
      if !IsOne(r, x) { assert r in others; }
    }
    AllDiffer(o, x, others);
    assert rs[0] == x.container && rs[1] == x.version && rs[2] == x.legacyContainer && rs[3] == x.legacyVersion;
  }

  lemma BystandersAre(others: seq<Value>)
    requires Bystanders(others)
    ensures forall r :: r in others ==> Described(r) && Untouched(r)
  {
    hide Described, Untouched, At;
  }

  lemma AllDiffer(o: Oracles, x: Four, others: seq<Value>)
    requires FourEntries(o, x) && Bystanders(others)
    ensures var rs := EntriesOf(x, others); forall i, j :: 0 <= i < j < |rs| ==> rs[i].Get("address") != rs[j].Get("address")
  {
    hide FourEntries, Described, Untouched, Value.Get;
    FourTexts(o, x);
    DifferentAddresses();
    var rs := EntriesOf(x, others);
    forall i, j | 0 <= i < j < |rs| ensures rs[i].Get("address") != rs[j].Get("address") {
      if i < 4 <= j {
        assert rs[j] == others[j - 4];
      } else if 4 <= i {
        assert rs[i] == others[i - 4] && rs[j] == others[j - 4];
      }
    }
  }

  lemma FourTexts(o: Oracles, x: Four)
    requires FourEntries(o, x)
    ensures x.container.Get("address") == Str(V2Container) && x.version.Get("address") == Str(V2Version)
    ensures x.legacyContainer.Get("address") == Str(LegacyContainer) && x.legacyVersion.Get("address") == Str(LegacyVersion)
  {
    hide Value.Get, ContainerFields, VersionFields, LegacyFields, Same, Acts;
  }

  /**
   * The gate is passable in each of its situations: a first attempt with the legacy resources just moved or moved before,
   * and a continuation, with any secret the inspection accepts and any other entries that leave everything alone.
   */
  lemma GateIsPassable(o: Oracles, arn: string, versionId: string, secret: string, continuation: bool, moved: bool, others: seq<Value>)
    requires Suits(o, arn, secret) && versionId != "" && Bystanders(others) && (continuation ==> !moved)
    ensures Accepts(o, true, Arr(EntriesOf(FourOf(arn, versionId, secret, continuation, moved), others)))
  {
    var x := FourOf(arn, versionId, secret, continuation, moved);
    assert x.continuation == continuation && x.moved == moved;
    hide FourOf, ContainerEntry, ContainerFields, VersionEntry, VersionFields, LegacyPair, Described, Accepts, Suits, FourEntries, PlanOf;
    ContainerFits(o, arn, versionId, secret, continuation, moved);
    VersionFits(o, arn, versionId, secret, continuation, moved);
    LegacyFits(o, arn, versionId, secret, continuation, moved);
    FourIff(o, x);
    FourPlan(o, x, others);
    PlanIsAccepted(o, EntriesOf(x, others), x);
  }
}
